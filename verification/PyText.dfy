/** The string operations the pipeline relies on. */
module PyText {

  /** The characters str.isspace() accepts, which are the ones str.strip() removes. */
  predicate IsSpace(c: char) {
    var n := c as int;
    || 0x09 <= n <= 0x0d || 0x1c <= n <= 0x20 || n == 0x85 || n == 0xa0 || n == 0x1680
    || 0x2000 <= n <= 0x200a || n == 0x2028 || n == 0x2029 || n == 0x202f || n == 0x205f || n == 0x3000
  }

  function StripLeft(s: string): string {
    if s != [] && IsSpace(s[0]) then StripLeft(s[1..]) else s
  }

  function StripRight(s: string): string {
    if s != [] && IsSpace(s[|s| - 1]) then StripRight(s[..|s| - 1]) else s
  }

  function Strip(s: string): string {
    StripRight(StripLeft(s))
  }

  /** No white space at either end. */
  predicate Trimmed(s: string) {
    s == [] || (!IsSpace(s[0]) && !IsSpace(s[|s| - 1]))
  }

  lemma {:induction false} StripLeftEdge(s: string)
    ensures |StripLeft(s)| <= |s|
    ensures StripLeft(s) == [] || !IsSpace(StripLeft(s)[0])
  {
    if s != [] && IsSpace(s[0]) {
      StripLeftEdge(s[1..]);
    }
  }

  lemma {:induction false} StripRightEdges(s: string)
    ensures |StripRight(s)| <= |s| && StripRight(s) == s[..|StripRight(s)|]
    ensures StripRight(s) == [] || !IsSpace(StripRight(s)[|StripRight(s)| - 1])
  {
    if s != [] && IsSpace(s[|s| - 1]) {
      StripRightEdges(s[..|s| - 1]);
    }
  }

  /** strip() yields a text without outer white space and leaves such a text alone. */
  lemma StripTrims(s: string)
    ensures Trimmed(Strip(s)) && |Strip(s)| <= |s|
    ensures Trimmed(s) ==> Strip(s) == s
    ensures Strip(Strip(s)) == Strip(s)
  {
    StripLeftEdge(s);
    StripRightEdges(StripLeft(s));
  }

  /** t is s without white space at its ends: what lies between i and j. */
  ghost predicate StrippedTo(s: string, i: nat, j: nat, t: string) {
    && i <= j <= |s| && t == s[i..j]
    && (forall k :: 0 <= k < i ==> IsSpace(s[k]))
    && (forall k :: j <= k < |s| ==> IsSpace(s[k]))
    && (i < j ==> !IsSpace(s[i]) && !IsSpace(s[j - 1]))
  }

  ghost predicate AllSpace(s: string) {
    forall k :: 0 <= k < |s| ==> IsSpace(s[k])
  }

  /** The characters that count as white space, one by one. */
  lemma SpaceCharacters(c: char)
    ensures IsSpace(c) <==> c as int in {
      9, 10, 11, 12, 13, 28, 29, 30, 31, 32, 133, 160, 5760, 8192, 8193, 8194, 8195, 8196, 8197, 8198, 8199, 8200, 8201,
      8202, 8232, 8233, 8239, 8287, 12288}
  {
  }

  lemma {:induction false} StripLeftTo(s: string)
    ensures |StripLeft(s)| <= |s| && StripLeft(s) == s[|s| - |StripLeft(s)|..]
    ensures forall k :: 0 <= k < |s| - |StripLeft(s)| ==> IsSpace(s[k])
  {
    if s != [] && IsSpace(s[0]) {
      StripLeftTo(s[1..]);
      assert forall k :: 0 <= k < |s| - |StripLeft(s)| ==> k == 0 || s[k] == s[1..][k - 1];
    }
  }

  lemma {:induction false} StripRightTo(s: string)
    ensures |StripRight(s)| <= |s| && StripRight(s) == s[..|StripRight(s)|]
    ensures forall k :: |StripRight(s)| <= k < |s| ==> IsSpace(s[k])
  {
    if s != [] && IsSpace(s[|s| - 1]) {
      StripRightTo(s[..|s| - 1]);
    }
  }

  /** strip() removes the white space at both ends and nothing else. */
  lemma StripExactly(s: string)
    ensures exists i, j :: StrippedTo(s, i, j, Strip(s))
    ensures Strip(s) == "" <==> AllSpace(s)
  {
    var l := StripLeft(s);
    StripLeftTo(s);
    StripRightTo(l);
    StripTrims(s);
    var i := |s| - |l|;
    var j := i + |Strip(s)|;
    assert Strip(s) == s[i..j];
    forall k | j <= k < |s| ensures IsSpace(s[k]) { assert s[k] == l[k - i]; }
    assert StrippedTo(s, i, j, Strip(s));
    if Strip(s) != "" { assert !IsSpace(s[i]); }
  }

  /** SQL trim(), which removes blanks only. */
  function SqlTrim(s: string): string {
    SqlTrimRight(SqlTrimLeft(s))
  }

  function SqlTrimLeft(s: string): string {
    if s != [] && s[0] == ' ' then SqlTrimLeft(s[1..]) else s
  }

  function SqlTrimRight(s: string): string {
    if s != [] && s[|s| - 1] == ' ' then SqlTrimRight(s[..|s| - 1]) else s
  }

  lemma TrimmedSurvivesSqlTrim(s: string)
    requires Trimmed(s)
    ensures SqlTrim(s) == s
  {
  }

  lemma {:induction false} SqlTrimLeftBlank(s: string)
    ensures SqlTrimLeft(s) == "" <==> forall k :: 0 <= k < |s| ==> s[k] == ' '
    ensures SqlTrimLeft(s) != "" ==> SqlTrimLeft(s)[0] != ' '
  {
    if s != [] && s[0] == ' ' {
      SqlTrimLeftBlank(s[1..]);
      assert forall k :: 0 < k < |s| ==> s[k] == s[1..][k - 1];
    }
  }

  lemma {:induction false} SqlTrimRightKeeps(s: string)
    requires s != "" && s[0] != ' '
    ensures SqlTrimRight(s) != ""
  {
    if s[|s| - 1] == ' ' { SqlTrimRightKeeps(s[..|s| - 1]); }
  }

  /** Something is left of a text exactly when it has a character that is no blank. */
  lemma SqlTrimExactly(s: string)
    ensures SqlTrim(s) == "" <==> forall k :: 0 <= k < |s| ==> s[k] == ' '
  {
    SqlTrimLeftBlank(s);
    if SqlTrimLeft(s) != "" { SqlTrimRightKeeps(SqlTrimLeft(s)); }
  }
}
