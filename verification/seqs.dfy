/** Order-preserving selection over sequences: `Array.prototype.filter`, `find`, and the
    `map(...).filter(Boolean)` idiom, each with a characterisation by positions. */
module Seqs {
  import opened Outcomes

  /** Positions listed in strictly ascending order. */
  ghost predicate Ascending(picks: seq<nat>) {
    forall a, b :: 0 <= a < b < |picks| ==> picks[a] < picks[b]
  }

  /** `s.filter(p)`: the elements of `s` that satisfy `p`, in their original order. */
  function Filter<T>(p: T -> bool, s: seq<T>): (r: seq<T>)
    ensures |r| <= |s|
    ensures forall k :: 0 <= k < |r| ==> p(r[k])
  {
    if s == [] then []
    else (if p(s[0]) then [s[0]] else []) + Filter(p, s[1..])
  }

  /** Add one to every position. */
  function Shift(picks: seq<nat>): (r: seq<nat>)
    ensures |r| == |picks|
    ensures forall k :: 0 <= k < |picks| ==> r[k] == picks[k] + 1
  {
    seq(|picks|, k requires 0 <= k < |picks| => picks[k] + 1)
  }

  /** A position is in the shifted list exactly when its predecessor was in the original;
      position 0 never is. */
  lemma ShiftMembers(picks: seq<nat>)
    ensures 0 !in Shift(picks)
    ensures forall i: nat :: i + 1 in Shift(picks) <==> i in picks
  {
    var r := Shift(picks);
    forall i: nat ensures i + 1 in r <==> i in picks {
      if i + 1 in r {
        var k :| 0 <= k < |r| && r[k] == i + 1;
        assert picks[k] == i;
      }
      if i in picks {
        var k :| 0 <= k < |picks| && picks[k] == i;
        assert r[k] == i + 1;
      }
    }
  }

  /** `picks` lists, in ascending order, the positions of `s` selected by `keep`, and `r` holds
      the elements found there. */
  ghost predicate SelectsPositions<T>(keep: T -> bool, s: seq<T>, r: seq<T>, picks: seq<nat>) {
    && |picks| == |r|
    && Ascending(picks)
    && (forall k :: 0 <= k < |picks| ==> picks[k] < |s| && r[k] == s[picks[k]])
    && (forall i :: 0 <= i < |s| ==> (keep(s[i]) <==> i in picks))
  }

  /** Shifting keeps positions ascending, and so does putting 0 in front of the shifted list. */
  lemma ShiftAscending(tail: seq<nat>)
    requires Ascending(tail)
    ensures Ascending(Shift(tail))
    ensures Ascending([0] + Shift(tail))
  {
    var st := Shift(tail);
    var picks := [0] + st;
    forall a, b | 0 <= a < b < |picks| ensures picks[a] < picks[b] {
      assert picks[b] == st[b - 1] == tail[b - 1] + 1;
      if a > 0 {
        assert picks[a] == st[a - 1] == tail[a - 1] + 1;
      }
    }
  }

  /** Positions selected in the tail `s[1..]`, moved one place to the right, are positions of `s`. */
  lemma ShiftPositions<T>(keep: T -> bool, s: seq<T>, r: seq<T>, tail: seq<nat>)
    requires s != []
    requires SelectsPositions(keep, s[1..], r, tail)
    ensures 0 !in Shift(tail)
    ensures |Shift(tail)| == |r|
    ensures forall k :: 0 <= k < |r| ==> Shift(tail)[k] < |s| && r[k] == s[Shift(tail)[k]]
    ensures forall i :: 1 <= i < |s| ==> (keep(s[i]) <==> i in Shift(tail))
  {
    var shifted := Shift(tail);
    ShiftMembers(tail);
    forall i | 1 <= i < |s| ensures keep(s[i]) <==> i in shifted {
      assert s[i] == s[1..][i - 1];
      assert (i - 1) + 1 in shifted <==> i - 1 in tail;
    }
    forall k | 0 <= k < |r| ensures shifted[k] < |s| && r[k] == s[shifted[k]] {
      assert s[shifted[k]] == s[1..][tail[k]];
    }
  }

  /** With the head selected, the k-th kept element sits at the k-th position of `[0] + Shift(tail)`. */
  lemma ConsElements<T>(s: seq<T>, r: seq<T>, tail: seq<nat>)
    requires s != []
    requires |Shift(tail)| == |r|
    requires forall k :: 0 <= k < |r| ==> Shift(tail)[k] < |s| && r[k] == s[Shift(tail)[k]]
    ensures forall k :: 0 <= k < |r| + 1 ==> ([0] + Shift(tail))[k] < |s| && ([s[0]] + r)[k] == s[([0] + Shift(tail))[k]]
  {
    var st := Shift(tail);
    var picks := [0] + st;
    var r' := [s[0]] + r;
    forall k | 0 <= k < |picks| ensures picks[k] < |s| && r'[k] == s[picks[k]] {
      if k > 0 {
        assert picks[k] == st[k - 1] && r'[k] == r[k - 1];
      }
    }
  }

  /** Selecting the head as well puts position 0 in front. */
  lemma ConsPositions<T>(keep: T -> bool, s: seq<T>, r: seq<T>, tail: seq<nat>)
    requires s != [] && keep(s[0])
    requires SelectsPositions(keep, s[1..], r, tail)
    ensures SelectsPositions(keep, s, [s[0]] + r, [0] + Shift(tail))
  {
    ShiftAscending(tail);
    ShiftPositions(keep, s, r, tail);
    ConsElements(s, r, tail);
    var picks := [0] + Shift(tail);
    forall i | 0 <= i < |s| ensures keep(s[i]) <==> i in picks {
      if i > 0 {
        assert i in picks <==> i in Shift(tail);
      }
    }
  }

  /** Dropping the head leaves the shifted positions. */
  lemma SkipPositions<T>(keep: T -> bool, s: seq<T>, r: seq<T>, tail: seq<nat>)
    requires s != [] && !keep(s[0])
    requires SelectsPositions(keep, s[1..], r, tail)
    ensures SelectsPositions(keep, s, r, Shift(tail))
  {
    ShiftAscending(tail);
    ShiftPositions(keep, s, r, tail);
  }

  /** `Filter(p, s)` is exactly the subsequence of `s` at the positions whose element satisfies
      `p`: the returned `picks` are those positions in ascending order, and the k-th result is
      the element at `picks[k]`. So nothing that satisfies `p` is missed, nothing else is kept,
      and order is preserved. */
  lemma {:induction false} FilterPositions<T>(p: T -> bool, s: seq<T>) returns (picks: seq<nat>)
    ensures |picks| == |Filter(p, s)|
    ensures Ascending(picks)
    ensures forall k :: 0 <= k < |picks| ==> picks[k] < |s| && Filter(p, s)[k] == s[picks[k]]
    ensures forall i :: 0 <= i < |s| ==> (p(s[i]) <==> i in picks)
  {
    if s == [] {
      picks := [];
    } else {
      var tail := FilterPositions(p, s[1..]);
      var rest := Filter(p, s[1..]);
      assert SelectsPositions(p, s[1..], rest, tail);
      if p(s[0]) {
        ConsPositions(p, s, rest, tail);
        picks := [0] + Shift(tail);
        assert Filter(p, s) == [s[0]] + rest;
      } else {
        SkipPositions(p, s, rest, tail);
        picks := Shift(tail);
        assert Filter(p, s) == rest;
      }
    }
  }

  /** Filtering by a predicate every element satisfies changes nothing. */
  lemma {:induction false} FilterKeepsAll<T>(p: T -> bool, s: seq<T>)
    requires forall i :: 0 <= i < |s| ==> p(s[i])
    ensures Filter(p, s) == s
  {
    if s != [] {
      FilterKeepsAll(p, s[1..]);
      assert [s[0]] + s[1..] == s;
    }
  }

  /** When exactly one element satisfies `p`, the filter returns just that element. */
  lemma {:induction false} FilterExactlyOne<T>(p: T -> bool, s: seq<T>, i: nat)
    requires i < |s| && p(s[i])
    requires forall j :: 0 <= j < |s| && j != i ==> !p(s[j])
    ensures Filter(p, s) == [s[i]]
  {
    if i == 0 {
      FilterKeepsNone(p, s[1..]);
    } else {
      FilterExactlyOne(p, s[1..], i - 1);
    }
  }

  /** When no element satisfies `p`, the filter returns nothing. */
  lemma {:induction false} FilterKeepsNone<T>(p: T -> bool, s: seq<T>)
    requires forall j :: 0 <= j < |s| ==> !p(s[j])
    ensures Filter(p, s) == []
  {
    if s != [] {
      FilterKeepsNone(p, s[1..]);
    }
  }

  /** Filtering twice by the same predicate is filtering once. */
  lemma FilterIdempotent<T>(p: T -> bool, s: seq<T>)
    ensures Filter(p, Filter(p, s)) == Filter(p, s)
  {
    var r := Filter(p, s);
    FilterKeepsAll(p, r);
  }

  /** Filtering a concatenation filters each part. */
  lemma {:induction false} FilterConcat<T>(p: T -> bool, a: seq<T>, b: seq<T>)
    ensures Filter(p, a + b) == Filter(p, a) + Filter(p, b)
    decreases |a|
  {
    if a != [] {
      assert (a + b)[1..] == a[1..] + b;
      FilterConcat(p, a[1..], b);
    } else {
      assert a + b == b;
    }
  }

  /** The test `filter(Boolean)` applies after `map(f)`: did `f` find a value? */
  function Found<A, B>(f: A -> Option<B>): A -> bool {
    x => f(x).Some?
  }

  /** `s.map(f).filter(Boolean)` for an `f` that may find nothing: the found values, in order. */
  function FilterMap<A, B>(f: A -> Option<B>, s: seq<A>): (r: seq<B>)
    ensures |r| <= |s|
  {
    var kept := Filter(Found(f), s);
    seq(|kept|, k requires 0 <= k < |kept| => f(kept[k]).value)
  }

  /** `FilterMap(f, s)` keeps, in ascending order, exactly the positions where `f` finds a
      value, and the k-th result is the value found at the k-th kept position. */
  lemma FilterMapPositions<A, B>(f: A -> Option<B>, s: seq<A>) returns (picks: seq<nat>)
    ensures |picks| == |FilterMap(f, s)|
    ensures Ascending(picks)
    ensures forall k :: 0 <= k < |picks| ==>
              picks[k] < |s| && f(s[picks[k]]).Some? && FilterMap(f, s)[k] == f(s[picks[k]]).value
    ensures forall i :: 0 <= i < |s| ==> (f(s[i]).Some? <==> i in picks)
  {
    picks := FilterPositions(Found(f), s);
  }

  /** When `f` finds a value everywhere, nothing is dropped. */
  lemma FilterMapTotal<A, B>(f: A -> Option<B>, s: seq<A>)
    requires forall i :: 0 <= i < |s| ==> f(s[i]).Some?
    ensures |FilterMap(f, s)| == |s|
    ensures forall k :: 0 <= k < |s| ==> FilterMap(f, s)[k] == f(s[k]).value
  {
    FilterKeepsAll(Found(f), s);
  }

  /** The position of the first element satisfying `p`, as `findIndex` computes it. */
  function FindFirst<T>(p: T -> bool, s: seq<T>): (r: Option<nat>)
    ensures r.Some? ==> r.value < |s| && p(s[r.value])
    ensures r.Some? ==> forall j :: 0 <= j < r.value ==> !p(s[j])
    ensures r.None? <==> forall j :: 0 <= j < |s| ==> !p(s[j])
  {
    if s == [] then None
    else if p(s[0]) then Some(0)
    else
      match FindFirst(p, s[1..])
      case None =>
        assert forall j :: 1 <= j < |s| ==> s[j] == s[1..][j - 1];
        None
      case Some(i) =>
        assert forall j :: 1 <= j < i + 1 ==> s[j] == s[1..][j - 1];
        Some(i + 1)
  }

  /** `s.find(p)`: the first element satisfying `p`, or nothing. */
  function Find<T>(p: T -> bool, s: seq<T>): Option<T> {
    match FindFirst(p, s)
    case Some(i) => Some(s[i])
    case None => None
  }
}
