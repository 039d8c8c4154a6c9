/** Cutting a growing list into batches that are handed over as soon as they are full. */
module Batching {
  type Size = n: int | 1 <= n witness 1

  /** The batches that are full. */
  function FullBatches<T>(s: seq<T>, size: Size): seq<seq<T>> {
    if |s| < size then [] else [s[..size]] + FullBatches(s[size..], size)
  }

  /** The elements behind the last full batch. */
  function Rest<T>(s: seq<T>, size: Size): seq<T> {
    if |s| < size then s else Rest(s[size..], size)
  }

  /** The batches of a list that has ended. */
  function AllBatches<T>(s: seq<T>, size: Size): seq<seq<T>> {
    FullBatches(s, size) + if Rest(s, size) == [] then [] else [Rest(s, size)]
  }

  function Flatten<T>(batches: seq<seq<T>>): seq<T> {
    if batches == [] then [] else batches[0] + Flatten(batches[1..])
  }

  lemma {:induction false} FlattenConcat<T>(a: seq<seq<T>>, b: seq<seq<T>>)
    ensures Flatten(a + b) == Flatten(a) + Flatten(b)
  {
    if a == [] {
      assert a + b == b;
    } else {
      assert (a + b)[1..] == a[1..] + b;
      FlattenConcat(a[1..], b);
    }
  }

  /** One more element either waits or completes a batch. */
  lemma {:induction false} AppendOne<T>(s: seq<T>, x: T, size: Size)
    ensures |Rest(s, size)| < size
    ensures |Rest(s, size)| + 1 < size ==>
              FullBatches(s + [x], size) == FullBatches(s, size) && Rest(s + [x], size) == Rest(s, size) + [x]
    ensures |Rest(s, size)| + 1 == size ==>
              FullBatches(s + [x], size) == FullBatches(s, size) + [Rest(s, size) + [x]] && Rest(s + [x], size) == []
  {
    if |s| < size {
      if |s| + 1 == size {
        assert (s + [x])[..size] == s + [x];
        assert (s + [x])[size..] == [];
      }
    } else {
      AppendOne(s[size..], x, size);
      assert (s + [x])[..size] == s[..size];
      assert (s + [x])[size..] == s[size..] + [x];
    }
  }

  /** Full batches stay as they are when more elements follow. */
  lemma {:induction false} FullBatchesStay<T>(s: seq<T>, t: seq<T>, size: Size)
    ensures FullBatches(s, size) <= FullBatches(s + t, size)
  {
    if |s| >= size {
      FullBatchesStay(s[size..], t, size);
      assert (s + t)[..size] == s[..size];
      assert (s + t)[size..] == s[size..] + t;
    }
  }

  /** The full batches hold exactly k - k mod size elements, and nothing is lost or reordered. */
  lemma {:induction false} FullBatchesLaw<T>(s: seq<T>, size: Size)
    ensures Flatten(FullBatches(s, size)) + Rest(s, size) == s
    ensures forall b :: b in FullBatches(s, size) ==> |b| == size
    ensures |Rest(s, size)| == |s| % size
    ensures |FullBatches(s, size)| == |s| / size
  {
    if |s| >= size {
      FullBatchesLaw(s[size..], size);
      assert s == s[..size] + s[size..];
      Divide(|s|, size);
    } else {
      Small(|s|, size);
    }
  }

  lemma Divide(n: nat, size: Size)
    requires n >= size
    ensures n / size == (n - size) / size + 1
    ensures n % size == (n - size) % size
  {
    var q, r := (n - size) / size, (n - size) % size;
    assert n == size * (q + 1) + r;
    Quotient(n, size, q + 1, r);
  }

  lemma Quotient(n: nat, size: Size, q: nat, r: nat)
    requires n == size * q + r && r < size
    ensures n / size == q && n % size == r
  {
    var d := n / size - q;
    Multiple(size, d);
    assert size * d == r - n % size;
  }

  lemma Multiple(size: int, d: int)
    requires size >= 1
    ensures d > 0 ==> size * d >= size
    ensures d < 0 ==> size * d <= -size
  {
  }

  lemma Small(n: nat, size: Size)
    requires n < size
    ensures n / size == 0 && n % size == n
  {
    Quotient(n, size, 0, n);
  }

  /** The batching law: the batches are the list again, in order. */
  lemma BatchesConcatenate<T>(s: seq<T>, size: Size)
    ensures Flatten(AllBatches(s, size)) == s
  {
    var full, rest := FullBatches(s, size), Rest(s, size);
    assert Flatten(full) + rest == s by { FullBatchesLaw(s, size); }
    FlattenConcat(full, if rest == [] then [] else [rest]);
    FlattenOne(rest);
  }

  lemma FlattenOne<T>(b: seq<T>)
    ensures Flatten([b]) == b
  {
    assert [b][1..] == [];
    assert b + [] == b;
  }

  lemma OneMoreBatch<T>(batches: seq<seq<T>>, n: nat)
    requires n < |batches|
    ensures Flatten(batches[..n + 1]) == Flatten(batches[..n]) + batches[n]
  {
    assert batches[..n + 1] == batches[..n] + [batches[n]];
    FlattenConcat(batches[..n], [batches[n]]);
    FlattenOne(batches[n]);
  }

  /** After k elements exactly k - k mod size have been handed over. */
  lemma HandedOver<T>(s: seq<T>, size: Size)
    ensures |Flatten(FullBatches(s, size))| == |s| - |s| % size
  {
    FullBatchesLaw(s, size);
    assert |Flatten(FullBatches(s, size)) + Rest(s, size)| == |s|;
  }

  /** Every batch but the last is full and none is empty. */
  lemma BatchSizes<T>(s: seq<T>, size: Size)
    ensures forall i :: 0 <= i < |AllBatches(s, size)| - 1 ==> |AllBatches(s, size)[i]| == size
    ensures forall b :: b in AllBatches(s, size) ==> 1 <= |b| <= size
  {
    var full, rest, all := FullBatches(s, size), Rest(s, size), AllBatches(s, size);
    assert |rest| < size && forall b :: b in full ==> |b| == size by { FullBatchesLaw(s, size); }
    forall i | 0 <= i < |all| ensures 1 <= |all[i]| <= size && (i < |all| - 1 ==> |all[i]| == size) {
      if i < |full| { assert all[i] == full[i] && full[i] in full; } else { assert all[i] == rest; }
    }
  }

  /** There are ceil(n / size) batches. */
  lemma BatchCount<T>(s: seq<T>, size: Size)
    ensures |AllBatches(s, size)| == (|s| + size - 1) / size
  {
    FullBatchesLaw(s, size);
    Ceiling(|s|, size);
  }

  lemma Ceiling(n: nat, size: Size)
    ensures (n + size - 1) / size == n / size + if n % size == 0 then 0 else 1
  {
    var q, r := n / size, n % size;
    if r == 0 {
      Quotient(n + size - 1, size, q, size - 1);
    } else {
      assert size * (q + 1) == size * q + size;
      Quotient(n + size - 1, size, q + 1, r - 1);
    }
  }
}
