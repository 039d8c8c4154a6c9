/** The column mapping of an import: validation, storage as JSON and re-reading. */
module CsvMapping {
  import opened Wrappers
  import opened PyText
  import opened Entities

  const CANONICAL_FIELDS: set<string> :=
    {"published_at", "author", "content", "engagement_count", "sentiment", "source_name"}

  /** The fields a mapping may have. */
  lemma CanonicalFieldsExactly(f: string)
    ensures f in CANONICAL_FIELDS <==>
            || f == "published_at" || f == "author" || f == "content"
            || f == "engagement_count" || f == "sentiment" || f == "source_name"
  {
  }

  datatype MappingError =
    | UnknownCanonicalField
    | MissingRequiredCanonicalField
    | BlankSourceColumn
    | DuplicateSourceColumn

  function Normalized(m: Mapping): Mapping {
    map f | f in m :: Strip(m[f])
  }

  function ValidateCsvMapping(m: Mapping): Result<Mapping, MappingError> {
    if !(m.Keys <= CANONICAL_FIELDS) then Err(UnknownCanonicalField)
    else if "content" !in m then Err(MissingRequiredCanonicalField)
    else
      var n := Normalized(m);
      if "" in n.Values then Err(BlankSourceColumn)
      else if |n.Values| != |n| then Err(DuplicateSourceColumn)
      else Ok(n)
  }

  /** Different fields read different columns. */
  ghost predicate Injective(m: Mapping) {
    forall f, g :: f in m && g in m && f != g ==> m[f] != m[g]
  }

  /** What every accepted mapping looks like. */
  ghost predicate Accepted(m: Mapping) {
    && m.Keys <= CANONICAL_FIELDS
    && "content" in m
    && (forall f :: f in m ==> m[f] != "" && Trimmed(m[f]))
    && Injective(m)
  }

  /** The size test on the set of values is exactly injectivity. */
  lemma {:induction false} ValuesCount(m: Mapping)
    ensures |m.Values| <= |m|
    ensures |m.Values| == |m| <==> Injective(m)
    decreases |m|
  {
    if m.Keys == {} {
      assert m == map[];
    } else {
      var f :| f in m;
      var rest := m - {f};
      assert rest.Keys == m.Keys - {f};
      assert |rest| == |m| - 1;
      ValuesCount(rest);
      assert m.Values == rest.Values + {m[f]} by {
        forall v | v in m.Values ensures v in rest.Values + {m[f]} {
          var g :| g in m && m[g] == v;
          if g != f { assert g in rest && rest[g] == v; }
        }
        forall v | v in rest.Values ensures v in m.Values {
          var g :| g in rest && rest[g] == v;
          assert g in m && m[g] == v;
        }
      }
      if m[f] in rest.Values {
        var g :| g in rest && rest[g] == m[f];
        assert g in m && g != f && m[g] == m[f];
        assert m.Values == rest.Values;
      } else {
        assert |m.Values| == |rest.Values| + 1;
        if Injective(rest) {
          forall a, b | a in m && b in m && a != b ensures m[a] != m[b] {
            if a == f { assert rest[b] in rest.Values; }
            else if b == f { assert rest[a] in rest.Values; }
            else { assert rest[a] != rest[b]; }
          }
        } else {
          var a, b :| a in rest && b in rest && a != b && rest[a] == rest[b];
          assert m[a] == m[b];
        }
      }
    }
  }

  /** Known fields, one of them `content`, with columns that say something and stay different once stripped. */
  ghost predicate Acceptable(m: Mapping) {
    && m.Keys <= CANONICAL_FIELDS
    && "content" in m
    && (forall f :: f in m ==> !AllSpace(m[f]))
    && (forall f, g :: f in m && g in m && f != g ==> Strip(m[f]) != Strip(m[g]))
  }

  /** validate_csv_mapping accepts exactly the acceptable mappings, and strips their columns. */
  lemma ValidationCharacterised(m: Mapping)
    ensures ValidateCsvMapping(m).Ok? <==> Acceptable(m)
    ensures ValidateCsvMapping(m).Ok? ==>
              var accepted := ValidateCsvMapping(m).value;
              && accepted.Keys == m.Keys && (forall f :: f in m ==> accepted[f] == Strip(m[f]))
              && Accepted(accepted)
  {
    var n := Normalized(m);
    assert n.Keys == m.Keys;
    ValuesCount(n);
    NormalizedColumns(m);
    BlankColumns(m);
  }

  lemma NormalizedColumns(m: Mapping)
    ensures forall f :: f in m ==> Trimmed(Normalized(m)[f])
    ensures Injective(Normalized(m)) <==> forall f, g :: f in m && g in m && f != g ==> Strip(m[f]) != Strip(m[g])
  {
    var n := Normalized(m);
    assert forall f :: f in m <==> f in n;
    forall f | f in m ensures Trimmed(n[f]) { StripTrims(m[f]); }
  }

  lemma BlankColumns(m: Mapping)
    ensures "" in Normalized(m).Values <==> exists f :: f in m && AllSpace(m[f])
    ensures forall f :: f in m ==> (AllSpace(m[f]) <==> Normalized(m)[f] == "")
  {
    var n := Normalized(m);
    forall f | f in m ensures n[f] in n.Values && (AllSpace(m[f]) <==> n[f] == "") { StripExactly(m[f]); }
    if "" in n.Values {
      var f :| f in n && n[f] == "";
      assert f in m && AllSpace(m[f]);
    }
  }

  /** Which error a mapping is refused with: the first of the four checks that fails. */
  lemma MappingErrorsExactly(m: Mapping)
    ensures var r := ValidateCsvMapping(m);
            var known := m.Keys <= CANONICAL_FIELDS;
            var blank := exists f :: f in m && AllSpace(m[f]);
            var same := exists f, g :: f in m && g in m && f != g && Strip(m[f]) == Strip(m[g]);
            && (r == Err(UnknownCanonicalField) <==> !known)
            && (r == Err(MissingRequiredCanonicalField) <==> known && "content" !in m)
            && (r == Err(BlankSourceColumn) <==> known && "content" in m && blank)
            && (r == Err(DuplicateSourceColumn) <==> known && "content" in m && !blank && same)
  {
    ValuesCount(Normalized(m));
    NormalizedColumns(m);
    BlankColumns(m);
  }

  /** Re-running the validation on an accepted mapping accepts it unchanged. */
  lemma ValidationIdempotent(m: Mapping)
    requires Accepted(m)
    ensures Normalized(m) == m
    ensures ValidateCsvMapping(m) == Ok(m)
  {
    forall f | f in m ensures Strip(m[f]) == m[f] && !AllSpace(m[f]) {
      StripTrims(m[f]);
      StripExactly(m[f]);
    }
    assert Normalized(m) == m;
    ValidationCharacterised(m);
  }

  /** The configuration `prepare` stores: {"mapping": accepted}. */
  function MappingConfiguration(m: Mapping): Json {
    JsonObject(map["mapping" := JsonObject(map f | f in m :: JsonString(m[f]))])
  }

  /** What `execute` reads back; None stands for InvalidImportJobConfigurationError. */
  function GetMapping(configuration: Json): Option<Mapping> {
    if !configuration.JsonObject? || "mapping" !in configuration.members then None
    else
      var stored := configuration.members["mapping"];
      if !stored.JsonObject? || exists f :: f in stored.members && !stored.members[f].JsonString? then None
      else
        match ValidateCsvMapping(map f | f in stored.members :: stored.members[f].s)
        case Ok(m) => Some(m)
        case Err(_) => None
  }

  /** A mapping accepted by `prepare` is read back by `execute` unchanged. */
  lemma MappingRoundTrip(m: Mapping)
    requires ValidateCsvMapping(m).Ok?
    ensures GetMapping(MappingConfiguration(ValidateCsvMapping(m).value)) == Some(ValidateCsvMapping(m).value)
    ensures Accepted(ValidateCsvMapping(m).value)
  {
    ValidationCharacterised(m);
    var n := ValidateCsvMapping(m).value;
    ValidationIdempotent(n);
    var stored := MappingConfiguration(n).members["mapping"];
    assert (map f | f in stored.members :: stored.members[f].s) == n;
  }

  /** The stored members are the texts of an acceptable mapping. */
  ghost predicate Configures(members: map<string, Json>, m: Mapping) {
    && members.Keys == m.Keys && (forall f :: f in m ==> members[f] == JsonString(m[f]))
    && Acceptable(m)
  }

  /**
   * A configuration is readable exactly when it is an object whose `mapping` is an object of texts that
   * form an acceptable mapping; what is read is that mapping with stripped columns.
   */
  lemma GetMappingExactly(configuration: Json)
    ensures GetMapping(configuration).Some? <==>
              && configuration.JsonObject? && "mapping" in configuration.members
              && configuration.members["mapping"].JsonObject?
              && exists m :: Configures(configuration.members["mapping"].members, m)
    ensures GetMapping(configuration).Some? ==> Accepted(GetMapping(configuration).value)
    ensures GetMapping(configuration).Some? ==>
              forall m :: Configures(configuration.members["mapping"].members, m) ==>
                var read := GetMapping(configuration).value;
                read.Keys == m.Keys && forall f :: f in m ==> read[f] == Strip(m[f])
  {
    if configuration.JsonObject? && "mapping" in configuration.members && configuration.members["mapping"].JsonObject? {
      var members := configuration.members["mapping"].members;
      if forall f :: f in members ==> members[f].JsonString? { TextsAreRead(members); }
    }
  }

  /** The texts of the members are the only mapping they may stand for. */
  lemma TextsAreRead(members: map<string, Json>)
    requires forall f :: f in members ==> members[f].JsonString?
    ensures var texts := map f | f in members :: members[f].s;
            && (ValidateCsvMapping(texts).Ok? <==> Configures(members, texts))
            && (ValidateCsvMapping(texts).Ok? ==>
                 && Accepted(ValidateCsvMapping(texts).value)
                 && ValidateCsvMapping(texts).value.Keys == texts.Keys
                 && forall f :: f in texts ==> ValidateCsvMapping(texts).value[f] == Strip(texts[f]))
            && (forall m :: Configures(members, m) ==> m == texts)
  {
    var texts := map f | f in members :: members[f].s;
    assert texts.Keys == members.Keys;
    ValidationCharacterised(texts);
    forall m | Configures(members, m) ensures m == texts {
      forall f | f in m ensures m[f] == texts[f] { assert members[f] == JsonString(m[f]); }
      assert m.Keys == texts.Keys;
    }
  }
}
