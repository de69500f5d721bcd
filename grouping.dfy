/**
 * Distinct non-empty values in first-seen order (`Array.from(new Set(xs.filter(Boolean)))`)
 * and key -> count group maps built by incrementing `(m[k] || 0) + 1` in a loop.
 */
module Grouping {
  import opened Options
  import opened Sequences

  predicate NoDuplicates<T(==)>(xs: seq<T>) {
    forall i, j :: 0 <= i < j < |xs| ==> xs[i] != xs[j]
  }

  /**
   * The distinct non-empty strings of `vs`, in the order a JavaScript `Set` keeps them:
   * the order of first insertion.
   */
  function Unique(vs: seq<Option<string>>): (r: seq<string>)
    ensures forall k :: k in r <==> k != "" && Some(k) in vs
    ensures NoDuplicates(r)
    decreases |vs|
  {
    if vs == [] then []
    else
      var init, v := vs[..|vs| - 1], vs[|vs| - 1];
      assert vs == init + [v];
      var u := Unique(init);
      if Present(v) && v.value !in u then u + [v.value] else u
  }

  /** `rows.filter(r => r.key === k)`. */
  function WithValue<R(!new)>(rows: seq<R>, key: R -> Option<string>, k: string): seq<R> {
    Filter(rows, r => key(r) == Some(k))
  }

  /** The records whose key is truthy. */
  function Located<R(!new)>(rows: seq<R>, key: R -> Option<string>): seq<R> {
    Filter(rows, r => Present(key(r)))
  }

  /** `set.add(v)` for one more value. */
  lemma UniqueSnoc(vs: seq<Option<string>>, v: Option<string>)
    ensures Unique(vs + [v]) == if Present(v) && v.value !in Unique(vs) then Unique(vs) + [v.value] else Unique(vs)
  {
    assert (vs + [v])[..|vs|] == vs;
  }

  /** Index of the first occurrence of `x` in `xs`. */
  function FirstIndex<T(==)>(xs: seq<T>, x: T): (i: nat)
    requires x in xs
    ensures i < |xs| && xs[i] == x && x !in xs[..i]
  {
    if xs[0] == x then 0 else 1 + FirstIndex(xs[1..], x)
  }

  lemma FirstIndexOfPrefix<T>(xs: seq<T>, n: nat, x: T)
    requires n <= |xs| && x in xs[..n]
    ensures FirstIndex(xs, x) == FirstIndex(xs[..n], x)
  {
    var i, j := FirstIndex(xs, x), FirstIndex(xs[..n], x);
    assert xs[..n][..j] == xs[..j];
  }

  /** The distinct values come out in the order of their first occurrence. */
  lemma {:induction false} UniqueFirstSeenOrder(vs: seq<Option<string>>, i: nat, j: nat)
    requires i < j < |Unique(vs)|
    ensures FirstIndex(vs, Some(Unique(vs)[i])) < FirstIndex(vs, Some(Unique(vs)[j]))
    decreases |vs|
  {
    var init, v := vs[..|vs| - 1], vs[|vs| - 1];
    assert vs == init + [v];
    var u := Unique(init);
    var a, b := Unique(vs)[i], Unique(vs)[j];
    assert Some(a) in init by { assert a in u; }
    FirstIndexOfPrefix(vs, |vs| - 1, Some(a));
    if j < |u| {
      assert Some(b) in init by { assert b in u; }
      FirstIndexOfPrefix(vs, |vs| - 1, Some(b));
      UniqueFirstSeenOrder(init, i, j);
    } else {
      assert Some(b) !in init;
      assert FirstIndex(vs, Some(b)) == |vs| - 1;
    }
  }

  /** Number of entries equal to `Some(k)`. */
  function CountOf(vs: seq<Option<string>>, k: string): nat
    decreases |vs|
  {
    if vs == [] then 0
    else CountOf(vs[..|vs| - 1], k) + (if vs[|vs| - 1] == Some(k) then 1 else 0)
  }

  /** Number of entries that are truthy. */
  function PresentCount(vs: seq<Option<string>>): nat
    decreases |vs|
  {
    if vs == [] then 0
    else PresentCount(vs[..|vs| - 1]) + (if Present(vs[|vs| - 1]) then 1 else 0)
  }

  lemma {:induction false} PresentCountBound(vs: seq<Option<string>>)
    ensures PresentCount(vs) <= |vs|
    ensures PresentCount(vs) == |vs| <==> forall i :: 0 <= i < |vs| ==> Present(vs[i])
    decreases |vs|
  {
    if vs != [] {
      var init := vs[..|vs| - 1];
      PresentCountBound(init);
      assert forall i :: 0 <= i < |init| ==> init[i] == vs[i];
    }
  }

  /** Counting a key over projected rows is counting the rows that carry that key. */
  lemma {:induction false} CountOfRows<R(!new)>(rows: seq<R>, key: R -> Option<string>, k: string)
    ensures CountOf(MapSeq(rows, key), k) == |WithValue(rows, key, k)|
    decreases |rows|
  {
    if rows != [] {
      var init := rows[..|rows| - 1];
      assert MapSeq(rows, key)[..|rows| - 1] == MapSeq(init, key);
      CountOfRows(init, key, k);
    }
  }

  /** Truthy entries of projected rows are the rows whose key is truthy. */
  lemma {:induction false} PresentCountRows<R(!new)>(rows: seq<R>, key: R -> Option<string>)
    ensures PresentCount(MapSeq(rows, key)) == |Located(rows, key)|
    decreases |rows|
  {
    if rows != [] {
      var init := rows[..|rows| - 1];
      assert MapSeq(rows, key)[..|rows| - 1] == MapSeq(init, key);
      PresentCountRows(init, key);
    }
  }

  /** Sum of the counts of the keys `ks`. */
  function SumCounts(vs: seq<Option<string>>, ks: seq<string>): nat
    decreases |ks|
  {
    if ks == [] then 0 else SumCounts(vs, ks[..|ks| - 1]) + CountOf(vs, ks[|ks| - 1])
  }

  lemma {:induction false} SumCountsSnoc(vs: seq<Option<string>>, v: Option<string>, ks: seq<string>)
    requires NoDuplicates(ks)
    ensures SumCounts(vs + [v], ks) == SumCounts(vs, ks) + (if v.Some? && v.value in ks then 1 else 0)
    decreases |ks|
  {
    assert (vs + [v])[..|vs|] == vs;
    if ks != [] {
      var init := ks[..|ks| - 1];
      assert ks == init + [ks[|ks| - 1]];
      SumCountsSnoc(vs, v, init);
    }
  }

  /**
   * Partition law: over distinct non-empty keys that include every truthy entry, the
   * counts add up to the number of truthy entries.
   */
  lemma {:induction false} SumCountsCovers(vs: seq<Option<string>>, ks: seq<string>)
    requires NoDuplicates(ks) && "" !in ks
    requires forall i :: 0 <= i < |vs| && Present(vs[i]) ==> vs[i].value in ks
    ensures SumCounts(vs, ks) == PresentCount(vs)
    decreases |vs|
  {
    if vs == [] {
      SumCountsEmpty(ks);
    } else {
      var init, v := vs[..|vs| - 1], vs[|vs| - 1];
      assert vs == init + [v];
      SumCountsCovers(init, ks);
      SumCountsSnoc(init, v, ks);
    }
  }

  lemma {:induction false} SumCountsEmpty(ks: seq<string>)
    ensures SumCounts([], ks) == 0
    decreases |ks|
  {
    if ks != [] {
      SumCountsEmpty(ks[..|ks| - 1]);
    }
  }

  /** The group map: each truthy key of `vs` mapped to the number of its occurrences. */
  function GroupCounts(vs: seq<Option<string>>): (m: map<string, nat>)
    ensures forall k :: k in m <==> k != "" && Some(k) in vs
  {
    map k | k in Unique(vs) :: CountOf(vs, k)
  }

  lemma CountOfPositive(vs: seq<Option<string>>, k: string)
    requires Some(k) in vs
    ensures CountOf(vs, k) >= 1
    decreases |vs|
  {
    var init := vs[..|vs| - 1];
    assert vs == init + [vs[|vs| - 1]];
    if vs[|vs| - 1] != Some(k) {
      CountOfPositive(init, k);
    }
  }

  /** Every value in a group map is the (positive) number of entries with that key. */
  lemma GroupCountsValues(vs: seq<Option<string>>, k: string)
    requires k in GroupCounts(vs)
    ensures GroupCounts(vs)[k] == CountOf(vs, k) >= 1
  {
    CountOfPositive(vs, k);
  }

  /** `m[k] = (m[k] || 0) + 1` when `k` is truthy; nothing otherwise. */
  function Bump(m: map<string, nat>, k: Option<string>): map<string, nat> {
    if Present(k) then m[k.value := (if k.value in m then m[k.value] else 0) + 1] else m
  }

  /** One loop step. */
  lemma GroupCountsSnoc(vs: seq<Option<string>>, v: Option<string>)
    ensures GroupCounts(vs + [v]) == Bump(GroupCounts(vs), v)
  {
    var before, after := GroupCounts(vs), GroupCounts(vs + [v]);
    assert (vs + [v])[..|vs|] == vs;
    forall k | k in after
      ensures after[k] == CountOf(vs, k) + (if v == Some(k) then 1 else 0)
    {
    }
    if Present(v) {
      var expected := before[v.value := (if v.value in before then before[v.value] else 0) + 1];
      assert after.Keys == expected.Keys;
      forall k | k in after ensures after[k] == expected[k] {
        if k != v.value {
          assert Some(k) in vs;
        } else if v.value !in before {
          assert Some(k) !in vs;
          CountOfAbsent(vs, k);
        }
      }
      assert after == expected;
    } else {
      assert after.Keys == before.Keys;
    }
  }

  lemma CountOfAbsent(vs: seq<Option<string>>, k: string)
    requires Some(k) !in vs
    ensures CountOf(vs, k) == 0
    decreases |vs|
  {
    if vs != [] {
      var init := vs[..|vs| - 1];
      assert vs == init + [vs[|vs| - 1]];
      CountOfAbsent(init, k);
    }
  }

  /**
   * Builds a group map the way the views do: one pass over the rows, incrementing the
   * count of each truthy key in place.
   */
  method CountByKey<R>(rows: seq<R>, key: R -> Option<string>) returns (counts: map<string, nat>)
    ensures counts == GroupCounts(MapSeq(rows, key))
  {
    counts := map[];
    for i := 0 to |rows|
      invariant counts == GroupCounts(MapSeq(rows[..i], key))
    {
      var k := key(rows[i]);
      PrefixSnoc(rows, i);
      GroupCountsRowsSnoc(rows[..i], rows[i], key);
      if Present(k) {
        counts := counts[k.value := (if k.value in counts then counts[k.value] else 0) + 1];
      }

    }
    assert rows[..|rows|] == rows;
  }

  /** One loop step over records. */
  lemma GroupCountsRowsSnoc<R>(rows: seq<R>, row: R, key: R -> Option<string>)
    ensures GroupCounts(MapSeq(rows + [row], key)) == Bump(GroupCounts(MapSeq(rows, key)), key(row))
  {
    assert MapSeq(rows + [row], key) == MapSeq(rows, key) + [key(row)];
    GroupCountsSnoc(MapSeq(rows, key), key(row));
  }

  /** Sum of the values of `m` at the keys `ks`. */
  function SumOver(m: map<string, nat>, ks: seq<string>): nat
    requires forall k :: k in ks ==> k in m
    decreases |ks|
  {
    if ks == [] then 0 else SumOver(m, ks[..|ks| - 1]) + m[ks[|ks| - 1]]
  }

  lemma {:induction false} SumOverCounts(m: map<string, nat>, vs: seq<Option<string>>, ks: seq<string>)
    requires forall k :: k in ks ==> k in m && m[k] == CountOf(vs, k)
    ensures SumOver(m, ks) == SumCounts(vs, ks)
    decreases |ks|
  {
    if ks != [] {
      SumOverCounts(m, vs, ks[..|ks| - 1]);
    }
  }

  /**
   * The values of a group map, summed over its keys (taken in insertion order), add up to
   * the number of entries that have a truthy key: at most all of them, and all of them
   * exactly when no entry lacks the key.
   */
  lemma GroupCountsSum(vs: seq<Option<string>>)
    ensures forall k :: k in Unique(vs) ==> k in GroupCounts(vs)
    ensures SumOver(GroupCounts(vs), Unique(vs)) == PresentCount(vs) <= |vs|
    ensures SumOver(GroupCounts(vs), Unique(vs)) == |vs| <==> forall i :: 0 <= i < |vs| ==> Present(vs[i])
  {
    var ks := Unique(vs);
    SumOverCounts(GroupCounts(vs), vs, ks);
    forall i | 0 <= i < |vs| && Present(vs[i]) ensures vs[i].value in ks {
      assert Some(vs[i].value) in vs;
    }
    SumCountsCovers(vs, ks);
    PresentCountBound(vs);
  }

  /** There are no more distinct values than truthy entries. */
  lemma {:induction false} UniqueLength(vs: seq<Option<string>>)
    ensures |Unique(vs)| <= PresentCount(vs)
    decreases |vs|
  {
    if vs != [] {
      UniqueLength(vs[..|vs| - 1]);
    }
  }

  /** A group map over entries that all carry the same key has that one key. */
  lemma GroupCountsSingleKey(vs: seq<Option<string>>, k: string)
    requires k != ""
    requires forall i :: 0 <= i < |vs| ==> vs[i] == Some(k)
    ensures GroupCounts(vs) == if vs == [] then map[] else map[k := |vs|]
  {
    if vs != [] {
      CountOfAll(vs, k);
      assert GroupCounts(vs).Keys == {k};
    }
  }

  lemma {:induction false} CountOfAll(vs: seq<Option<string>>, k: string)
    requires forall i :: 0 <= i < |vs| ==> vs[i] == Some(k)
    ensures CountOf(vs, k) == |vs|
    decreases |vs|
  {
    if vs != [] {
      CountOfAll(vs[..|vs| - 1], k);
    }
  }

  // ---------------------------------------------------------------------------------------
  // The same laws stated on records

  /**
   * `Array.from(new Set(rows.map(key).filter(Boolean)))`: the distinct truthy values of a
   * field, each once.
   */
  function DistinctValues<R>(rows: seq<R>, key: R -> Option<string>): (r: seq<string>)
    ensures NoDuplicates(r)
    ensures forall k :: k in r <==> k != "" && exists i :: 0 <= i < |rows| && key(rows[i]) == Some(k)
  {
    var vs := MapSeq(rows, key);
    assert forall k :: Some(k) in vs <==> exists i :: 0 <= i < |rows| && key(rows[i]) == Some(k) by {
      forall k | Some(k) in vs ensures exists i :: 0 <= i < |rows| && key(rows[i]) == Some(k) {
        var i :| 0 <= i < |vs| && vs[i] == Some(k);
      }
    }
    Unique(vs)
  }

  /** Index of the first record whose key is `k`. */
  function FirstRow<R>(rows: seq<R>, key: R -> Option<string>, k: string): nat
    requires k in DistinctValues(rows, key)
  {
    FirstIndex(MapSeq(rows, key), Some(k))
  }

  /** The distinct values come in the order in which they first occur among the records. */
  lemma DistinctValuesOrder<R>(rows: seq<R>, key: R -> Option<string>, i: nat, j: nat)
    requires i < j < |DistinctValues(rows, key)|
    ensures var r := DistinctValues(rows, key);
      FirstRow(rows, key, r[i]) < FirstRow(rows, key, r[j])
      && key(rows[FirstRow(rows, key, r[i])]) == Some(r[i])
  {
    UniqueFirstSeenOrder(MapSeq(rows, key), i, j);
  }

  /**
   * `r` lists values in the order in which they first occur among the records: wherever a
   * later entry occurs, every earlier entry has already occurred.
   */
  predicate InFirstSeenOrder<R>(rows: seq<R>, key: R -> Option<string>, r: seq<string>) {
    forall i, j, q :: 0 <= i < j < |r| && 0 <= q < |rows| && key(rows[q]) == Some(r[j]) ==>
      exists p :: 0 <= p < q && key(rows[p]) == Some(r[i])
  }

  /** No occurrence of `x` comes before its first one. */
  lemma FirstIndexLeast<T>(xs: seq<T>, x: T, q: int)
    requires 0 <= q < |xs| && xs[q] == x
    ensures FirstIndex(xs, x) <= q
  {
  }

  lemma DistinctValuesFirstSeen<R>(rows: seq<R>, key: R -> Option<string>)
    ensures InFirstSeenOrder(rows, key, DistinctValues(rows, key))
  {
    var r := DistinctValues(rows, key);
    var vs := MapSeq(rows, key);
    forall i, j, q | 0 <= i < j < |r| && 0 <= q < |rows| && key(rows[q]) == Some(r[j])
      ensures exists p :: 0 <= p < q && key(rows[p]) == Some(r[i])
    {
      DistinctValuesOrder(rows, key, i, j);
      FirstIndexLeast(vs, Some(r[j]), q);
      var p := FirstRow(rows, key, r[i]);
      assert 0 <= p < q && key(rows[p]) == Some(r[i]);
    }
  }

  /**
   * A group map built over records: it has a key exactly when some record carries that
   * truthy value, counts the records that carry it, and its counts add up to the records
   * with a truthy value, which is all of them exactly when none lacks it.
   */
  lemma GroupCountsOfRows<R(!new)>(rows: seq<R>, key: R -> Option<string>)
    ensures var m := GroupCounts(MapSeq(rows, key));
      (forall k :: k in m <==> k != "" && exists i :: 0 <= i < |rows| && key(rows[i]) == Some(k))
      && (forall k :: k in m ==> m[k] == |WithValue(rows, key, k)| >= 1)
      && (forall k :: k in DistinctValues(rows, key) ==> k in m)
      && SumOver(m, DistinctValues(rows, key)) == |Located(rows, key)| <= |rows|
      && (SumOver(m, DistinctValues(rows, key)) == |rows| <==> forall i :: 0 <= i < |rows| ==> Present(key(rows[i])))
  {
    var vs := MapSeq(rows, key);
    var m := GroupCounts(vs);
    assert DistinctValues(rows, key) == Unique(vs);
    forall k | k in m ensures m[k] == |WithValue(rows, key, k)| >= 1 {
      GroupCountsValues(vs, k);
      CountOfRows(rows, key, k);
    }
    forall k | Some(k) in vs ensures exists i :: 0 <= i < |rows| && key(rows[i]) == Some(k) {
      var i :| 0 <= i < |vs| && vs[i] == Some(k);
    }
    GroupCountsSum(vs);
    PresentCountRows(rows, key);
  }

  /** The key and sum laws of `GroupCountsOfRows` alone. */
  lemma GroupKeysAndSum<R(!new)>(rows: seq<R>, key: R -> Option<string>)
    ensures var m := GroupCounts(MapSeq(rows, key));
      (forall k :: k in m <==> k != "" && exists i :: 0 <= i < |rows| && key(rows[i]) == Some(k))
      && SumOver(m, DistinctValues(rows, key)) == |Located(rows, key)| <= |rows|
  {
    GroupCountsOfRows(rows, key);
  }
}
