/**
 * List idioms the scripts and the pipeline share: first-occurrence
 * de-duplication through a `seen` set, counting, flattening and
 * `xs[i:i+n]` chunking.
 */
module Seqs {
  import opened Text

  /** The keys of the elements of `xs` that `admit` lets through. */
  function KeysOf<T, K(==)>(xs: seq<T>, key: T -> K, admit: T -> bool): set<K>
  {
    set i | 0 <= i < |xs| && admit(xs[i]) :: key(xs[i])
  }

  /**
   * The loop `for x in xs: if not admit(x) or key(x) in seen: continue;
   * seen.add(key(x)); out.append(x)`: the admitted elements whose key has
   * not been admitted before, in order.
   */
  function DedupBy<T, K(==)>(xs: seq<T>, key: T -> K, admit: T -> bool): seq<T>
    decreases |xs|
  {
    if |xs| == 0 then []
    else
      var init := xs[..|xs| - 1];
      var x := xs[|xs| - 1];
      if !admit(x) || key(x) in KeysOf(init, key, admit) then DedupBy(init, key, admit)
      else DedupBy(init, key, admit) + [x]
  }

  /** One more element: it is kept exactly when it is admitted with a new key. */
  lemma DedupBySnoc<T, K>(xs: seq<T>, x: T, key: T -> K, admit: T -> bool)
    ensures DedupBy(xs + [x], key, admit)
         == if !admit(x) || key(x) in KeysOf(xs, key, admit) then DedupBy(xs, key, admit) else DedupBy(xs, key, admit) + [x]
    ensures KeysOf(xs + [x], key, admit) == KeysOf(xs, key, admit) + (if admit(x) then {key(x)} else {})
  {
    assert (xs + [x])[..|xs|] == xs;
    KeysOfSnoc(xs, x, key, admit);
  }

  lemma KeysOfSnoc<T, K>(xs: seq<T>, x: T, key: T -> K, admit: T -> bool)
    ensures KeysOf(xs + [x], key, admit)
         == KeysOf(xs, key, admit) + (if admit(x) then {key(x)} else {})
  {
    var l := KeysOf(xs + [x], key, admit);
    var r := KeysOf(xs, key, admit) + (if admit(x) then {key(x)} else {});
    forall k | k in l ensures k in r {
      var i :| 0 <= i < |xs| + 1 && admit((xs + [x])[i]) && key((xs + [x])[i]) == k;
      if i < |xs| { assert (xs + [x])[i] == xs[i]; }
    }
    forall k | k in r ensures k in l {
      if k in KeysOf(xs, key, admit) {
        var i :| 0 <= i < |xs| && admit(xs[i]) && key(xs[i]) == k;
        assert (xs + [x])[i] == xs[i];
      } else {
        assert (xs + [x])[|xs|] == x;
      }
    }
  }

  /**
   * What de-duplication promises: the kept elements are admitted, their keys
   * are pairwise distinct, and every admitted key of the input is kept once.
   */
  lemma {:induction false} DedupByProperties<T, K>(xs: seq<T>, key: T -> K, admit: T -> bool)
    ensures var r := DedupBy(xs, key, admit);
      && (forall i :: 0 <= i < |r| ==> admit(r[i]) && r[i] in xs)
      && (forall i, j :: 0 <= i < j < |r| ==> key(r[i]) != key(r[j]))
      && KeysOf(r, key, admit) == KeysOf(xs, key, admit)
    decreases |xs|
  {
    if |xs| > 0 {
      var init := xs[..|xs| - 1];
      var x := xs[|xs| - 1];
      assert xs == init + [x];
      DedupByProperties(init, key, admit);
      var d := DedupBy(init, key, admit);
      KeysOfSnoc(init, x, key, admit);
      if admit(x) && key(x) !in KeysOf(init, key, admit) {
        KeysOfSnoc(d, x, key, admit);
        var r := d + [x];
        forall i, j | 0 <= i < j < |r| ensures key(r[i]) != key(r[j]) {
          if j == |d| {
            assert r[i] == d[i];
            assert key(d[i]) in KeysOf(d, key, admit);
          }
        }
      }
    }
  }

  /** The number of kept elements is the number of distinct admitted keys. */
  lemma DedupByCount<T, K>(xs: seq<T>, key: T -> K, admit: T -> bool)
    ensures |DedupBy(xs, key, admit)| == |KeysOf(xs, key, admit)|
  {
    var r := DedupBy(xs, key, admit);
    DedupByProperties(xs, key, admit);
    DistinctKeysCount(r, key, admit);
  }

  lemma {:induction false} DistinctKeysCount<T, K>(r: seq<T>, key: T -> K, admit: T -> bool)
    requires forall i :: 0 <= i < |r| ==> admit(r[i])
    requires forall i, j :: 0 <= i < j < |r| ==> key(r[i]) != key(r[j])
    ensures |KeysOf(r, key, admit)| == |r|
    decreases |r|
  {
    if |r| > 0 {
      var init := r[..|r| - 1];
      var x := r[|r| - 1];
      assert r == init + [x];
      DistinctKeysCount(init, key, admit);
      KeysOfSnoc(init, x, key, admit);
      assert key(x) !in KeysOf(init, key, admit);
    }
  }

  /** Every element is admitted. */
  function AdmitAll<T>(x: T): bool { true }

  /** `sum(1 for x in xs if p(x))`. */
  function CountWhere<T>(xs: seq<T>, p: T -> bool): (n: nat)
    ensures n <= |xs|
    decreases |xs|
  {
    if |xs| == 0 then 0
    else CountWhere(xs[..|xs| - 1], p) + (if p(xs[|xs| - 1]) then 1 else 0)
  }

  /** `[x for x in xs if p(x)]`. */
  function Filter<T>(xs: seq<T>, p: T -> bool): (r: seq<T>)
    ensures |r| == CountWhere(xs, p)
    ensures forall i :: 0 <= i < |r| ==> p(r[i]) && r[i] in xs
    decreases |xs|
  {
    if |xs| == 0 then []
    else
      var init := Filter(xs[..|xs| - 1], p);
      if p(xs[|xs| - 1]) then init + [xs[|xs| - 1]] else init
  }

  lemma {:induction false} FilterAppend<T>(xs: seq<T>, ys: seq<T>, p: T -> bool)
    ensures Filter(xs + ys, p) == Filter(xs, p) + Filter(ys, p)
    decreases |ys|
  {
    if |ys| == 0 {
      assert xs + ys == xs;
    } else {
      assert (xs + ys)[..|xs + ys| - 1] == xs + ys[..|ys| - 1];
      FilterAppend(xs, ys[..|ys| - 1], p);
    }
  }

  /** Every element that passes the test survives filtering. */
  lemma {:induction false} FilterKeeps<T>(xs: seq<T>, p: T -> bool, x: T)
    requires x in xs && p(x)
    ensures x in Filter(xs, p)
    decreases |xs|
  {
    var init := xs[..|xs| - 1];
    assert xs == init + [xs[|xs| - 1]];
    if x != xs[|xs| - 1] {
      FilterKeeps(init, p, x);
    }
  }

  /** Filtering keeps a list whose every element passes. */
  lemma {:induction false} FilterAll<T>(xs: seq<T>, p: T -> bool)
    requires forall i :: 0 <= i < |xs| ==> p(xs[i])
    ensures Filter(xs, p) == xs
    decreases |xs|
  {
    if |xs| > 0 {
      FilterAll(xs[..|xs| - 1], p);
      assert xs == xs[..|xs| - 1] + [xs[|xs| - 1]];
    }
  }

  /** Concatenation of a list of lists. */
  function Flatten<T>(xss: seq<seq<T>>): seq<T>
    decreases |xss|
  {
    if |xss| == 0 then [] else Flatten(xss[..|xss| - 1]) + xss[|xss| - 1]
  }

  lemma FlattenSnoc<T>(xss: seq<seq<T>>, xs: seq<T>)
    ensures Flatten(xss + [xs]) == Flatten(xss) + xs
  {
    assert (xss + [xs])[..|xss|] == xss;
  }

  lemma {:induction false} FlattenCons<T>(xs: seq<T>, xss: seq<seq<T>>)
    ensures Flatten([xs] + xss) == xs + Flatten(xss)
    decreases |xss|
  {
    if |xss| == 0 {
      assert [xs] + xss == [] + [xs];
      assert Flatten([xs] + xss) == Flatten([]) + xs;
    } else {
      var init := xss[..|xss| - 1];
      var last := xss[|xss| - 1];
      assert [xs] + xss == ([xs] + init) + [last];
      FlattenSnoc([xs] + init, last);
      FlattenCons(xs, init);
      assert xss == init + [last];
      FlattenSnoc(init, last);
    }
  }

  /** `[xs[i:i + n] for i in range(0, len(xs), n)]`. */
  function Chunks<T>(xs: seq<T>, n: nat): seq<seq<T>>
    requires n > 0
    decreases |xs|
  {
    if |xs| <= n then (if |xs| == 0 then [] else [xs])
    else [xs[..n]] + Chunks(xs[n..], n)
  }

  /**
   * The chunks cover the list exactly once, in order; every chunk holds
   * between one and `n` elements and only the last may hold fewer than `n`.
   */
  lemma {:induction false} ChunksCover<T>(xs: seq<T>, n: nat)
    requires n > 0
    ensures Flatten(Chunks(xs, n)) == xs
    ensures forall k :: 0 <= k < |Chunks(xs, n)| ==> 0 < |Chunks(xs, n)[k]| <= n
    ensures forall k :: 0 <= k < |Chunks(xs, n)| - 1 ==> |Chunks(xs, n)[k]| == n
  {
    ChunksFlatten(xs, n);
    ChunksSizes(xs, n);
  }

  lemma {:induction false} ChunksFlatten<T>(xs: seq<T>, n: nat)
    requires n > 0
    ensures Flatten(Chunks(xs, n)) == xs
    decreases |xs|
  {
    if |xs| <= n {
      ChunksFlattenSmall(xs, n);
    } else {
      ChunksFlatten(xs[n..], n);
      ChunksFlattenJoin(xs, n);
    }
  }

  lemma ChunksFlattenSmall<T>(xs: seq<T>, n: nat)
    requires 0 < n && |xs| <= n
    ensures Flatten(Chunks(xs, n)) == xs
  {
    ChunksSmall(xs, n);
    if |xs| > 0 {
      FlattenOne(xs);
    }
  }

  lemma ChunksFlattenJoin<T>(xs: seq<T>, n: nat)
    requires 0 < n < |xs| && Flatten(Chunks(xs[n..], n)) == xs[n..]
    ensures Flatten(Chunks(xs, n)) == xs
  {
    SplitAt(xs, n);
    ChunksStep(xs, n);
    FlattenJoin(xs[..n], xs[n..], Chunks(xs[n..], n), Chunks(xs, n), xs);
  }

  lemma PrefixSnoc<T>(xs: seq<T>, i: nat)
    requires i < |xs|
    ensures xs[..i + 1] == xs[..i] + [xs[i]]
  {
  }

  lemma SplitAt<T>(xs: seq<T>, n: nat)
    requires n <= |xs|
    ensures xs[..n] + xs[n..] == xs
  {
  }

  lemma FlattenOne<T>(xs: seq<T>)
    ensures Flatten([xs]) == xs
  {
    assert [xs][..0] == [];
  }

  lemma FlattenJoin<T>(a: seq<T>, b: seq<T>, rest: seq<seq<T>>, c: seq<seq<T>>, xs: seq<T>)
    requires c == [a] + rest && Flatten(rest) == b && a + b == xs
    ensures Flatten(c) == xs
  {
    FlattenCons(a, rest);
  }

  lemma {:induction false} ChunksSizes<T>(xs: seq<T>, n: nat)
    requires n > 0
    ensures forall k :: 0 <= k < |Chunks(xs, n)| ==> 0 < |Chunks(xs, n)[k]| <= n
    ensures forall k :: 0 <= k < |Chunks(xs, n)| - 1 ==> |Chunks(xs, n)[k]| == n
    decreases |xs|
  {
    if |xs| > n {
      var c := Chunks(xs, n);
      var rest := Chunks(xs[n..], n);
      ChunksStep(xs, n);
      ChunksSizes(xs[n..], n);
      forall k | 1 <= k < |c| ensures c[k] == rest[k - 1] { }
    }
  }

  lemma ChunksSmall<T>(xs: seq<T>, n: nat)
    requires 0 < n && |xs| <= n
    ensures Chunks(xs, n) == if |xs| == 0 then [] else [xs]
  {
  }

  lemma ChunksStep<T>(xs: seq<T>, n: nat)
    requires 0 < n < |xs|
    ensures Chunks(xs, n) == [xs[..n]] + Chunks(xs[n..], n)
  {
  }

  /** `[f(x) for x in xs]`. */
  function MapSeq<T, U>(xs: seq<T>, f: T -> U): (r: seq<U>)
    ensures |r| == |xs| && forall i :: 0 <= i < |xs| ==> r[i] == f(xs[i])
    decreases |xs|
  {
    if |xs| == 0 then [] else MapSeq(xs[..|xs| - 1], f) + [f(xs[|xs| - 1])]
  }

  lemma MapSeqSnoc<T, U>(xs: seq<T>, k: nat, f: T -> U)
    requires k < |xs|
    ensures MapSeq(xs[..k + 1], f) == MapSeq(xs[..k], f) + [f(xs[k])]
  {
    assert xs[..k + 1][..k] == xs[..k];
  }

  /**
   * The loop `seen = set(); for x in xs: if not admit(x) or key(x) in seen:
   * continue; seen.add(key(x)); out.append(f(x))`.
   */
  method DedupMap<T, K(==), U>(xs: seq<T>, key: T -> K, admit: T -> bool, f: T -> U) returns (out: seq<U>)
    ensures out == MapSeq(DedupBy(xs, key, admit), f)
  {
    var seen: set<K> := {};
    out := [];
    var i := 0;
    while i < |xs|
      invariant 0 <= i <= |xs|
      invariant seen == KeysOf(xs[..i], key, admit)
      invariant out == MapSeq(DedupBy(xs[..i], key, admit), f)
    {
      var x := xs[i];
      PrefixSnoc(xs, i);
      DedupBySnoc(xs[..i], x, key, admit);
      if admit(x) && key(x) !in seen {
        seen := seen + {key(x)};
        out := out + [f(x)];
      }
      i := i + 1;
    }
    assert xs[..i] == xs;
  }

  /**
   * The loop `for x in xs: if key(x) in seen or count >= cap: continue;
   * seen.add(key(x)); out.append(f(x)); count += 1`: the first `cap` kept
   * elements of the de-duplication.
   */
  method DedupMapCapped<T, K(==), U>(xs: seq<T>, key: T -> K, f: T -> U, cap: nat) returns (out: seq<U>, count: nat)
    ensures out == MapSeq(Take(DedupBy(xs, key, AdmitAll), cap), f)
    ensures count == |out|
  {
    var seen: set<K> := {};
    out := [];
    count := 0;
    var i := 0;
    while i < |xs|
      invariant 0 <= i <= |xs|
      invariant out == MapSeq(Take(DedupBy(xs[..i], key, AdmitAll), cap), f)
      invariant count == |out|
      invariant count < cap ==> seen == KeysOf(xs[..i], key, AdmitAll)
    {
      var x := xs[i];
      CappedStep(xs, i, key, cap);
      if key(x) in seen || count >= cap {
      } else {
        seen := seen + {key(x)};
        out := out + [f(x)];
        count := count + 1;
      }
      i := i + 1;
    }
    assert xs[..i] == xs;
  }

  /** One step of the capped loop, on the de-duplicated prefix and its keys. */
  lemma CappedStep<T, K>(xs: seq<T>, i: nat, key: T -> K, cap: nat)
    requires i < |xs|
    ensures var d := DedupBy(xs[..i], key, AdmitAll);
      var d' := DedupBy(xs[..i + 1], key, AdmitAll);
      && KeysOf(xs[..i + 1], key, AdmitAll) == KeysOf(xs[..i], key, AdmitAll) + {key(xs[i])}
      && (key(xs[i]) in KeysOf(xs[..i], key, AdmitAll) ==> d' == d)
      && (key(xs[i]) !in KeysOf(xs[..i], key, AdmitAll) ==> d' == d + [xs[i]])
      && (|d| >= cap ==> Take(d', cap) == Take(d, cap))
  {
    var x := xs[i];
    assert xs[..i + 1] == xs[..i] + [x];
    assert xs[..i + 1][..i] == xs[..i];
    KeysOfSnoc(xs[..i], x, key, AdmitAll);
    var d := DedupBy(xs[..i], key, AdmitAll);
    var d' := DedupBy(xs[..i + 1], key, AdmitAll);
    if |d| >= cap && d' != d {
      assert d' == d + [x];
      assert d'[..cap] == d[..cap];
    }
  }

  /** Emitting `k` items per element emits `k` times as many. */
  lemma {:induction false} FlattenMapLength<T, U>(xs: seq<T>, f: T -> seq<U>, k: nat)
    requires forall x :: |f(x)| == k
    ensures |Flatten(MapSeq(xs, f))| == k * |xs|
    decreases |xs|
  {
    if |xs| > 0 {
      var init := xs[..|xs| - 1];
      FlattenMapLength(init, f, k);
      assert MapSeq(xs, f) == MapSeq(init, f) + [f(xs[|xs| - 1])];
      FlattenSnoc(MapSeq(init, f), f(xs[|xs| - 1]));
    }
  }

  /** An item of the flattened list comes from the list of some element. */
  lemma {:induction false} FlattenMapItem<T, U>(xs: seq<T>, f: T -> seq<U>, y: U)
    requires y in Flatten(MapSeq(xs, f))
    ensures exists i :: 0 <= i < |xs| && y in f(xs[i])
    decreases |xs|
  {
    var init := xs[..|xs| - 1];
    assert MapSeq(xs, f) == MapSeq(init, f) + [f(xs[|xs| - 1])];
    FlattenSnoc(MapSeq(init, f), f(xs[|xs| - 1]));
    if y !in f(xs[|xs| - 1]) {
      FlattenMapItem(init, f, y);
      var i :| 0 <= i < |init| && y in f(init[i]);
      assert init[i] == xs[i];
    }
  }

  /** The loop `for x in xs: out.append(f(x))`. */
  method MapAll<T, U>(xs: seq<T>, f: T -> U) returns (out: seq<U>)
    ensures out == MapSeq(xs, f)
  {
    out := [];
    var i := 0;
    while i < |xs|
      invariant 0 <= i <= |xs|
      invariant out == MapSeq(xs[..i], f)
    {
      assert xs[..i + 1][..i] == xs[..i];
      out := out + [f(xs[i])];
      i := i + 1;
    }
    assert xs[..i] == xs;
  }

  /** The loop `for x in xs: out.extend(f(x))`, one `append` per item of `f(x)`. */
  method FlatMapAll<T, U>(xs: seq<T>, f: T -> seq<U>) returns (out: seq<U>)
    ensures out == Flatten(MapSeq(xs, f))
  {
    out := [];
    var i := 0;
    while i < |xs|
      invariant 0 <= i <= |xs|
      invariant out == Flatten(MapSeq(xs[..i], f))
    {
      MapSeqSnoc(xs, i, f);
      FlattenSnoc(MapSeq(xs[..i], f), f(xs[i]));
      out := out + f(xs[i]);
      i := i + 1;
    }
    assert xs[..i] == xs;
  }

  /**
   * Two keys that tell the same elements apart, and two tests that agree,
   * de-duplicate alike.
   */
  lemma {:induction false} DedupBySameKeys<T, K1, K2>(xs: seq<T>, key1: T -> K1, admit1: T -> bool,
                                                     key2: T -> K2, admit2: T -> bool)
    requires forall x, y :: key1(x) == key1(y) <==> key2(x) == key2(y)
    requires forall x :: admit1(x) == admit2(x)
    ensures DedupBy(xs, key1, admit1) == DedupBy(xs, key2, admit2)
    decreases |xs|
  {
    if |xs| > 0 {
      var init := xs[..|xs| - 1];
      var x := xs[|xs| - 1];
      DedupBySameKeys(init, key1, admit1, key2, admit2);
      if key1(x) in KeysOf(init, key1, admit1) {
        var i :| 0 <= i < |init| && admit1(init[i]) && key1(init[i]) == key1(x);
        assert key2(init[i]) in KeysOf(init, key2, admit2);
      }
      if key2(x) in KeysOf(init, key2, admit2) {
        var i :| 0 <= i < |init| && admit2(init[i]) && key2(init[i]) == key2(x);
        assert key1(init[i]) in KeysOf(init, key1, admit1);
      }
    }
  }
}
