/** The three array idioms the store and its pages are built from:
    `filter`, a `map` that replaces the elements matching a test, and `find`. */
module Seqs {
  import opened Wrappers

  /** `s.filter(keep)`: the elements of `s` that pass `keep`, in their order. */
  function Filter<T(!new)>(s: seq<T>, keep: T -> bool): (r: seq<T>)
    ensures |r| <= |s|
    ensures forall x :: x in r <==> x in s && keep(x)
    ensures (forall i :: 0 <= i < |s| ==> keep(s[i])) ==> r == s
    ensures (forall i :: 0 <= i < |s| ==> !keep(s[i])) ==> r == []
  {
    if s == [] then []
    else if keep(s[0]) then [s[0]] + Filter(s[1..], keep)
    else Filter(s[1..], keep)
  }

  /** Filtering distributes over concatenation, so it keeps relative order. */
  lemma {:induction false} FilterAppend<T(!new)>(a: seq<T>, b: seq<T>, keep: T -> bool)
    ensures Filter(a + b, keep) == Filter(a, keep) + Filter(b, keep)
  {
    if a == [] {
      assert a + b == b;
    } else {
      assert (a + b)[0] == a[0];
      assert (a + b)[1..] == a[1..] + b;
      FilterAppend(a[1..], b, keep);
    }
  }

  /** Appending one element adds one to the filter's size exactly when it passes. */
  lemma FilterSnoc<T(!new)>(s: seq<T>, x: T, keep: T -> bool)
    ensures |Filter(s + [x], keep)| == |Filter(s, keep)| + (if keep(x) then 1 else 0)
  {
    FilterAppend(s, [x], keep);
  }

  /** A test and its negation split a sequence: the two filters add up to it. */
  lemma {:induction false} FilterPartition<T(!new)>(s: seq<T>, p: T -> bool, q: T -> bool)
    requires forall x :: q(x) == !p(x)
    ensures |Filter(s, p)| + |Filter(s, q)| == |s|
  {
    if s != [] {
      FilterPartition(s[1..], p, q);
    }
  }

  /** Filtering twice with the same test changes nothing more. */
  lemma {:induction false} FilterIdempotent<T(!new)>(s: seq<T>, keep: T -> bool)
    ensures Filter(Filter(s, keep), keep) == Filter(s, keep)
  {
    var r := Filter(s, keep);
    assert forall i :: 0 <= i < |r| ==> keep(r[i]) by {
      forall i | 0 <= i < |r| ensures keep(r[i]) {
        assert r[i] in r;
      }
    }
  }

  /** Two sequences that differ at most at position `k` have filters whose
      sizes differ by what the test says about the two elements there. */
  lemma {:induction false} FilterCountAt<T(!new)>(s: seq<T>, t: seq<T>, k: nat, keep: T -> bool)
    requires |s| == |t| && k < |s|
    requires forall i :: 0 <= i < |s| && i != k ==> s[i] == t[i]
    ensures |Filter(t, keep)| + (if keep(s[k]) then 1 else 0) == |Filter(s, keep)| + (if keep(t[k]) then 1 else 0)
  {
    if k == 0 {
      assert s[1..] == t[1..];
    } else {
      FilterCountAt(s[1..], t[1..], k - 1, keep);
    }
  }

  /** When exactly the element at `k` fails the test, filtering removes just it. */
  lemma FilterDropsOne<T(!new)>(s: seq<T>, k: nat, keep: T -> bool)
    requires k < |s| && !keep(s[k])
    requires forall i :: 0 <= i < |s| && i != k ==> keep(s[i])
    ensures Filter(s, keep) == s[..k] + s[k + 1..]
  {
    var front, back := s[..k], s[k + 1..];
    forall i | 0 <= i < |front| ensures keep(front[i]) {
      assert front[i] == s[i];
    }
    forall i | 0 <= i < |back| ensures keep(back[i]) {
      assert back[i] == s[k + 1 + i];
    }
    FilterDropsMiddle(front, s[k], back, keep);
    assert s == front + [s[k]] + back;
  }

  /** The middle element fails and everything around it passes. */
  lemma FilterDropsMiddle<T(!new)>(front: seq<T>, x: T, back: seq<T>, keep: T -> bool)
    requires !keep(x)
    requires forall i :: 0 <= i < |front| ==> keep(front[i])
    requires forall i :: 0 <= i < |back| ==> keep(back[i])
    ensures Filter(front + [x] + back, keep) == front + back
  {
    var mid := [x];
    var fm := front + mid;
    assert Filter(mid, keep) == [];
    assert Filter(front, keep) == front;
    assert Filter(back, keep) == back;
    FilterAppend(front, mid, keep);
    assert Filter(fm, keep) == front;
    FilterAppend(fm, back, keep);
  }

  /** `s.map(x => hit(x) ? f(x) : x)`: replace the matching elements in place. */
  function MapWhere<T>(s: seq<T>, hit: T -> bool, f: T -> T): (r: seq<T>)
    ensures |r| == |s|
    ensures forall i :: 0 <= i < |s| && hit(s[i]) ==> r[i] == f(s[i])
    ensures forall i :: 0 <= i < |s| && !hit(s[i]) ==> r[i] == s[i]
  {
    if s == [] then []
    else [if hit(s[0]) then f(s[0]) else s[0]] + MapWhere(s[1..], hit, f)
  }

  /** Replacing where nothing matches leaves the sequence as it was. */
  lemma MapWhereNoHit<T>(s: seq<T>, hit: T -> bool, f: T -> T)
    requires forall i :: 0 <= i < |s| ==> !hit(s[i])
    ensures MapWhere(s, hit, f) == s
  {
  }

  /** Replacing twice is replacing once when the replacement keeps the match
      and is itself idempotent. */
  lemma MapWhereIdempotent<T(!new)>(s: seq<T>, hit: T -> bool, f: T -> T)
    requires forall x :: hit(x) ==> hit(f(x)) && f(f(x)) == f(x)
    ensures MapWhere(MapWhere(s, hit, f), hit, f) == MapWhere(s, hit, f)
  {
  }

  /** `s.findIndex(p)`: the first position whose element passes `p`. */
  function FindIndex<T>(s: seq<T>, p: T -> bool): (r: Option<nat>)
    ensures r.Some? ==> r.value < |s| && p(s[r.value])
    ensures r.Some? ==> forall j :: 0 <= j < r.value ==> !p(s[j])
    ensures r.None? <==> forall j :: 0 <= j < |s| ==> !p(s[j])
  {
    if s == [] then None
    else if p(s[0]) then Some(0)
    else match FindIndex(s[1..], p)
      case None => None
      case Some(k) => Some(k + 1)
  }

  /** Two sequences whose elements pass their tests at the same positions
      have their first passing element at the same position. */
  lemma {:induction false} FindIndexSamePositions<T, U>(s: seq<T>, p: T -> bool, t: seq<U>, q: U -> bool)
    requires |s| == |t|
    requires forall i :: 0 <= i < |s| ==> p(s[i]) == q(t[i])
    ensures FindIndex(s, p) == FindIndex(t, q)
  {
    if s != [] {
      FindIndexSamePositions(s[1..], p, t[1..], q);
    }
  }

  /** `s.find(p)`: the first element that passes `p`. */
  function Find<T(!new)>(s: seq<T>, p: T -> bool): (r: Option<T>)
    ensures r.Some? ==> r.value in s && p(r.value)
    ensures r.None? <==> forall x :: x in s ==> !p(x)
  {
    match FindIndex(s, p)
    case None => None
    case Some(i) => Some(s[i])
  }
}
