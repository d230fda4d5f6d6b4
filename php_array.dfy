/**
 * PHP arrays with string keys, as the provider uses them: an ordered list of entries with distinct
 * keys, and `array_merge`, under which the right-hand side wins, the left-hand keys keep their
 * positions and the keys new on the right are appended in their order.
 */
module PhpArray {
  import opened Wrappers

  /** The scalar values the configuration tables and the fetched metadata hold. */
  datatype Value = Null | Int(i: int) | Bool(b: bool) | Str(s: string)

  type Entry = (string, Value)

  /** An array with string keys, in insertion order. */
  type Table = seq<Entry>

  function Keys(t: Table): (ks: seq<string>)
    ensures |ks| == |t|
    ensures forall i :: 0 <= i < |t| ==> ks[i] == t[i].0
  {
    if t == [] then [] else [t[0].0] + Keys(t[1..])
  }

  /** PHP arrays never hold a key twice. */
  predicate HasUniqueKeys(t: Table) {
    forall i, j :: 0 <= i < j < |t| ==> t[i].0 != t[j].0
  }

  /** `$t[$k]`, with the absent key as `None`. */
  function Find(t: Table, k: string): (r: Option<Value>)
    ensures r.None? <==> k !in Keys(t)
    ensures r.Some? ==> exists i :: 0 <= i < |t| && t[i] == (k, r.value)
  {
    if t == [] then None
    else if t[0].0 == k then Some(t[0].1)
    else
      var r := Find(t[1..], k);
      assert r.Some? ==> exists i :: 0 <= i < |t[1..]| && t[1..][i] == (k, r.value);
      assert r.Some? ==> exists i :: 0 <= i < |t| && t[i] == (k, r.value);
      r
  }

  /** In a PHP array, looking up the key of an entry gives that entry's value. */
  lemma {:induction false} FindEntry(t: Table, i: nat)
    requires HasUniqueKeys(t) && i < |t|
    ensures Find(t, t[i].0) == Some(t[i].1)
  {
    if i > 0 {
      FindEntry(t[1..], i - 1);
    }
  }

  /** The left-hand entries, each taking the right-hand value when the right-hand side has its key. */
  function Overwritten(a: Table, b: Table): (r: Table)
    ensures Keys(r) == Keys(a)
  {
    if a == [] then []
    else [(a[0].0, Find(b, a[0].0).GetOr(a[0].1))] + Overwritten(a[1..], b)
  }

  /** The right-hand entries whose key the left-hand side does not have, in their order. */
  function Appended(a: Table, b: Table): (r: Table)
    ensures forall k :: k in Keys(r) ==> k in Keys(b) && k !in Keys(a)
  {
    if b == [] then []
    else if b[0].0 in Keys(a) then Appended(a, b[1..])
    else [b[0]] + Appended(a, b[1..])
  }

  /** PHP's `array_merge($a, $b)` for string keys. */
  function ArrayMerge(a: Table, b: Table): (r: Table)
    ensures |r| >= |a|
    ensures Keys(r)[..|a|] == Keys(a)
  {
    var r := Overwritten(a, b) + Appended(a, b);
    assert Keys(r)[..|a|] == Keys(Overwritten(a, b));
    r
  }

  /** Merging in an empty array changes nothing. */
  lemma {:induction false} ArrayMergeEmpty(a: Table)
    ensures ArrayMerge(a, []) == a
  {
    OverwrittenEmpty(a);
    assert Appended(a, []) == [];
  }

  lemma {:induction false} OverwrittenEmpty(a: Table)
    ensures Overwritten(a, []) == a
  {
    if a != [] {
      OverwrittenEmpty(a[1..]);
      assert [a[0]] + a[1..] == a;
    }
  }

  /** Entry `j` of the left-hand side keeps its key and place; its value is the right-hand one if any. */
  lemma {:induction false} OverwrittenAt(a: Table, b: Table, j: nat)
    requires j < |a|
    ensures |Overwritten(a, b)| == |a|
    ensures Overwritten(a, b)[j] == (a[j].0, Find(b, a[j].0).GetOr(a[j].1))
  {
    if j > 0 {
      OverwrittenAt(a[1..], b, j - 1);
    }
  }

  lemma ArrayMergeAt(a: Table, b: Table, j: nat)
    requires j < |a|
    ensures |ArrayMerge(a, b)| >= |a|
    ensures ArrayMerge(a, b)[j] == (a[j].0, Find(b, a[j].0).GetOr(a[j].1))
  {
    OverwrittenAt(a, b, j);
  }

  /**
   * The entries `array_merge` appends after the left-hand ones: exactly the right-hand entries
   * whose key the left-hand side lacks, in their right-hand order. `idx` lists their positions
   * in `b`, increasing.
   */
  lemma ArrayMergeAppends(a: Table, b: Table) returns (idx: seq<nat>)
    ensures |ArrayMerge(a, b)| == |a| + |idx|
    ensures forall x :: 0 <= x < |idx| ==> idx[x] < |b| && ArrayMerge(a, b)[|a| + x] == b[idx[x]]
    ensures forall x, y :: 0 <= x < y < |idx| ==> idx[x] < idx[y]
    ensures forall i :: 0 <= i < |b| ==> (i in idx <==> b[i].0 !in Keys(a))
  {
    idx := AppendedPositions(a, b);
    assert Increasing(idx) && PicksFrom(Appended(a, b), b, idx) && PositionsOfFresh(a, b, idx);
    OverwrittenLength(a, b);
    var o, ap := Overwritten(a, b), Appended(a, b);
    assert ArrayMerge(a, b) == o + ap;
    forall x | 0 <= x < |idx| ensures ArrayMerge(a, b)[|a| + x] == b[idx[x]] {
      assert (o + ap)[|o| + x] == ap[x];
    }
  }

  lemma {:induction false} OverwrittenLength(a: Table, b: Table)
    ensures |Overwritten(a, b)| == |a|
  {
    if a != [] {
      OverwrittenLength(a[1..], b);
    }
  }

  /** Positions in increasing order. */
  predicate Increasing(idx: seq<nat>) {
    forall x, y :: 0 <= x < y < |idx| ==> idx[x] < idx[y]
  }

  /** `r` is the entries of `b` at the positions `idx`, in that order. */
  predicate PicksFrom(r: Table, b: Table, idx: seq<nat>) {
    |idx| == |r| && forall x :: 0 <= x < |idx| ==> idx[x] < |b| && r[x] == b[idx[x]]
  }

  /** `idx` holds exactly the positions of the entries of `b` whose key `a` lacks. */
  predicate PositionsOfFresh(a: Table, b: Table, idx: seq<nat>) {
    forall i :: 0 <= i < |b| ==> (i in idx <==> b[i].0 !in Keys(a))
  }

  lemma {:induction false} AppendedPositions(a: Table, b: Table) returns (idx: seq<nat>)
    ensures Increasing(idx) && PicksFrom(Appended(a, b), b, idx) && PositionsOfFresh(a, b, idx)
  {
    if b == [] {
      idx := [];
    } else {
      var tail := b[1..];
      var rest := AppendedPositions(a, tail);
      var shifted := Shifted(rest);
      ShiftedIncreasing(rest, shifted);
      ShiftedPicks(b, Appended(a, tail), rest, shifted);
      ShiftedFresh(a, b, rest, shifted);
      if b[0].0 in Keys(a) {
        idx := shifted;
        assert Appended(a, b) == Appended(a, tail);
      } else {
        idx := [0] + shifted;
        assert Appended(a, b) == [b[0]] + Appended(a, tail);
        ConsZero(a, b, Appended(a, tail), shifted);
      }
    }
  }

  /** The merge holds exactly the keys of both sides. */
  lemma ArrayMergeKeys(a: Table, b: Table)
    ensures forall k :: k in Keys(ArrayMerge(a, b)) <==> k in Keys(a) || k in Keys(b)
  {
    var idx := ArrayMergeAppends(a, b);
    MergedKeysFrom(a, b, ArrayMerge(a, b), idx);
    MergedKeysCover(a, b, ArrayMerge(a, b), idx);
  }

  lemma MergedKeysFrom(a: Table, b: Table, r: Table, idx: seq<nat>)
    requires |r| == |a| + |idx| && Keys(r)[..|a|] == Keys(a)
    requires forall x :: 0 <= x < |idx| ==> idx[x] < |b| && r[|a| + x] == b[idx[x]]
    ensures forall k :: k in Keys(r) ==> k in Keys(a) || k in Keys(b)
  {
    forall k | k in Keys(r) ensures k in Keys(a) || k in Keys(b) {
      var i :| 0 <= i < |r| && Keys(r)[i] == k;
      if i < |a| {
        assert Keys(r)[..|a|][i] == k;
      } else {
        assert r[|a| + (i - |a|)] == b[idx[i - |a|]];
        assert Keys(b)[idx[i - |a|]] == k;
      }
    }
  }

  lemma MergedKeysCover(a: Table, b: Table, r: Table, idx: seq<nat>)
    requires |r| == |a| + |idx| && Keys(r)[..|a|] == Keys(a)
    requires forall x :: 0 <= x < |idx| ==> idx[x] < |b| && r[|a| + x] == b[idx[x]]
    requires forall i :: 0 <= i < |b| ==> (i in idx <==> b[i].0 !in Keys(a))
    ensures forall k :: k in Keys(a) || k in Keys(b) ==> k in Keys(r)
  {
    forall k | k in Keys(a) || k in Keys(b) ensures k in Keys(r) {
      if k in Keys(a) {
        var i :| 0 <= i < |a| && Keys(a)[i] == k;
        assert Keys(r)[..|a|][i] == k;
      } else {
        var i :| 0 <= i < |b| && Keys(b)[i] == k;
        assert b[i].0 !in Keys(a);
        assert i in idx;
        var x :| 0 <= x < |idx| && idx[x] == i;
        assert r[|a| + x] == b[i];
      }
    }
  }

  /** Each position one further on. */
  lemma Shifted(rest: seq<nat>) returns (shifted: seq<nat>)
    ensures |shifted| == |rest|
    ensures forall x :: 0 <= x < |rest| ==> shifted[x] == rest[x] + 1
    ensures forall i :: i in shifted <==> i > 0 && i - 1 in rest
  {
    shifted := seq(|rest|, x requires 0 <= x < |rest| => rest[x] + 1);
    forall i | i in shifted ensures i > 0 && i - 1 in rest {
      var x :| 0 <= x < |shifted| && shifted[x] == i;
      assert rest[x] == i - 1;
    }
    forall i | i > 0 && i - 1 in rest ensures i in shifted {
      var x :| 0 <= x < |rest| && rest[x] == i - 1;
      assert shifted[x] == i;
    }
  }

  lemma ShiftedIncreasing(rest: seq<nat>, shifted: seq<nat>)
    requires Increasing(rest) && |shifted| == |rest|
    requires forall x :: 0 <= x < |rest| ==> shifted[x] == rest[x] + 1
    ensures Increasing(shifted) && Increasing([0] + shifted)
  {
    var idx := [0] + shifted;
    forall x, y | 0 <= x < y < |idx| ensures idx[x] < idx[y] {
      assert idx[y] == shifted[y - 1];
      if x > 0 {
        assert idx[x] == shifted[x - 1] && rest[x - 1] < rest[y - 1];
      }
    }
  }

  lemma ShiftedPicks(b: Table, r: Table, rest: seq<nat>, shifted: seq<nat>)
    requires b != [] && PicksFrom(r, b[1..], rest) && |shifted| == |rest|
    requires forall x :: 0 <= x < |rest| ==> shifted[x] == rest[x] + 1
    ensures PicksFrom(r, b, shifted)
  {
    forall x | 0 <= x < |shifted| ensures shifted[x] < |b| && r[x] == b[shifted[x]] {
      assert b[shifted[x]] == b[1..][rest[x]];
    }
  }

  lemma ShiftedFresh(a: Table, b: Table, rest: seq<nat>, shifted: seq<nat>)
    requires b != [] && PositionsOfFresh(a, b[1..], rest)
    requires forall i :: i in shifted <==> i > 0 && i - 1 in rest
    ensures forall i :: 0 < i < |b| ==> (i in shifted <==> b[i].0 !in Keys(a))
    ensures 0 !in shifted
  {
    forall i | 0 < i < |b| ensures i in shifted <==> b[i].0 !in Keys(a) {
      assert b[i] == b[1..][i - 1];
    }
  }

  lemma ConsZero(a: Table, b: Table, r: Table, shifted: seq<nat>)
    requires b != [] && b[0].0 !in Keys(a) && PicksFrom(r, b, shifted)
    requires forall i :: 0 < i < |b| ==> (i in shifted <==> b[i].0 !in Keys(a))
    ensures PicksFrom([b[0]] + r, b, [0] + shifted)
    ensures PositionsOfFresh(a, b, [0] + shifted)
  {
    var idx := [0] + shifted;
    forall x | 0 < x < |idx| ensures idx[x] < |b| && ([b[0]] + r)[x] == b[idx[x]] {
      assert idx[x] == shifted[x - 1] && ([b[0]] + r)[x] == r[x - 1];
    }
  }

  lemma {:induction false} FindAppend(a: Table, b: Table, k: string)
    ensures Find(a + b, k) == if k in Keys(a) then Find(a, k) else Find(b, k)
  {
    if a != [] {
      assert (a + b)[1..] == a[1..] + b;
      FindAppend(a[1..], b, k);
    } else {
      assert a + b == b;
    }
  }

  lemma {:induction false} FindOverwritten(a: Table, b: Table, k: string)
    requires k in Keys(a)
    ensures Find(Overwritten(a, b), k) == if k in Keys(b) then Find(b, k) else Find(a, k)
  {
    if a[0].0 != k {
      FindOverwritten(a[1..], b, k);
    }
  }

  lemma {:induction false} FindAppended(a: Table, b: Table, k: string)
    requires k !in Keys(a)
    ensures Find(Appended(a, b), k) == Find(b, k)
  {
    if b != [] {
      FindAppended(a, b[1..], k);
    }
  }

  /** The value of every key after `array_merge`: the right-hand one if there is one, else the left-hand one. */
  lemma ArrayMergeFind(a: Table, b: Table, k: string)
    ensures Find(ArrayMerge(a, b), k) == if k in Keys(b) then Find(b, k) else Find(a, k)
  {
    FindAppend(Overwritten(a, b), Appended(a, b), k);
    if k in Keys(a) {
      FindOverwritten(a, b, k);
    } else {
      FindAppended(a, b, k);
    }
  }

  lemma {:induction false} AppendedUnique(a: Table, b: Table)
    requires HasUniqueKeys(b)
    ensures HasUniqueKeys(Appended(a, b))
  {
    if b != [] {
      var tail := b[1..];
      assert HasUniqueKeys(tail) by {
        forall i, j | 0 <= i < j < |tail| ensures tail[i].0 != tail[j].0 {
          assert tail[i] == b[i + 1] && tail[j] == b[j + 1];
        }
      }
      AppendedUnique(a, tail);
      var rest := Appended(a, tail);
      if b[0].0 !in Keys(a) {
        var head: Table := [b[0]];
        forall k | k in Keys(rest) ensures k !in Keys(head) {
          var i :| 0 <= i < |tail| && Keys(tail)[i] == k;
          assert b[i + 1].0 == k;
        }
        UniqueConcat(head, rest);
      }
    }
  }

  lemma UniqueConcat(x: Table, y: Table)
    requires HasUniqueKeys(x) && HasUniqueKeys(y)
    requires forall k :: k in Keys(y) ==> k !in Keys(x)
    ensures HasUniqueKeys(x + y)
  {
    var r := x + y;
    forall i, j | 0 <= i < j < |r| ensures r[i].0 != r[j].0 {
      if j < |x| {
        assert r[i] == x[i] && r[j] == x[j];
      } else if i < |x| {
        var kx, ky := Keys(x)[i], Keys(y)[j - |x|];
        assert kx in Keys(x) && ky in Keys(y);
        assert r[i].0 == kx && r[j].0 == ky;
      } else {
        assert r[i] == y[i - |x|] && r[j] == y[j - |x|];
      }
    }
  }

  /** `array_merge` of two PHP arrays is a PHP array: no key twice. */
  lemma ArrayMergeUnique(a: Table, b: Table)
    requires HasUniqueKeys(a) && HasUniqueKeys(b)
    ensures HasUniqueKeys(ArrayMerge(a, b))
  {
    AppendedUnique(a, b);
    var o := Overwritten(a, b);
    assert HasUniqueKeys(o) by {
      forall i, j | 0 <= i < j < |o| ensures o[i].0 != o[j].0 {
        assert Keys(o)[i] == Keys(a)[i] && Keys(o)[j] == Keys(a)[j];
      }
    }
    UniqueConcat(o, Appended(a, b));
  }
}
