/**
 * The two orders of the list-backed sweep and what Python's stable `sorted`
 * does with them. `sorted(..., key=cmp_to_key(cmp))` with a comparator that
 * is a total preorder returns the unique stable sorted permutation; the
 * model computes it by insertion sort, inserting each element after every
 * element it does not strictly precede.
 */
module Ordering {
  import opened Events

  /** The comparator a `State` was built with: `cmp_xs` for the queue, `cmp_ys` at a sweep position for the status. */
  datatype Order = ByPosition | BySweepY(sweepX: real)

  /** `e` can be handed to the comparator: `cmp_ys` divides by the direction's dx. */
  predicate Comparable(o: Order, e: Event)
  {
    o.ByPosition? || NonVertical(e)
  }

  predicate AllComparable(o: Order, s: seq<Event>)
  {
    forall e | e in s :: Comparable(o, e)
  }

  /** The comparator's value: negative when `a` sorts before `b`. */
  function Cmp(o: Order, a: Event, b: Event): real
    requires Comparable(o, a) && Comparable(o, b)
  {
    match o
    case ByPosition => CmpXs(a, b)
    case BySweepY(x) => CmpYs(a, b, x)
  }

  /** Both comparators are total preorders: antisymmetric, and their `<=` is transitive. */
  lemma CmpTotalPreorder(o: Order, a: Event, b: Event, c: Event)
    requires Comparable(o, a) && Comparable(o, b) && Comparable(o, c)
    ensures Cmp(o, b, a) == -Cmp(o, a, b)
    ensures Cmp(o, a, b) <= 0.0 && Cmp(o, b, c) <= 0.0 ==> Cmp(o, a, c) <= 0.0
  {
  }

  ghost predicate Sorted(o: Order, s: seq<Event>)
    requires AllComparable(o, s)
  {
    forall i, j :: 0 <= i < j < |s| ==> Cmp(o, s[i], s[j]) <= 0.0
  }

  /** Insert `e` in front of the first element it strictly precedes (after every element it ties with). */
  function InsertSorted(o: Order, s: seq<Event>, e: Event): (r: seq<Event>)
    requires AllComparable(o, s) && Comparable(o, e)
    ensures multiset(r) == multiset(s) + multiset{e}
    ensures AllComparable(o, r)
    ensures Sorted(o, s) ==> Sorted(o, r)
  {
    if s == [] then [e]
    else if Cmp(o, e, s[0]) < 0.0 then
      var r := [e] + s;
      assert Sorted(o, s) ==> Sorted(o, r) by {
        if Sorted(o, s) {
          forall j | 0 < j < |r| ensures Cmp(o, e, r[j]) <= 0.0 {
            CmpTotalPreorder(o, e, s[0], r[j]);
          }
        }
      }
      r
    else
      var tail := InsertSorted(o, s[1..], e);
      var r := [s[0]] + tail;
      assert s == [s[0]] + s[1..];
      assert Sorted(o, s) ==> Sorted(o, r) by {
        if Sorted(o, s) {
          forall j | 0 < j < |r| ensures Cmp(o, s[0], r[j]) <= 0.0 {
            assert r[j] in multiset(tail);
            if r[j] == e {
              CmpTotalPreorder(o, e, s[0], s[0]);
            } else {
              assert r[j] in s[1..];
            }
          }
        }
      }
      r
  }

  lemma InsertSortedStep(o: Order, s: seq<Event>, e: Event)
    requires AllComparable(o, s) && Comparable(o, e)
    requires s != [] && Cmp(o, e, s[0]) >= 0.0
    ensures InsertSorted(o, s, e) == [s[0]] + InsertSorted(o, s[1..], e)
  {
  }

  lemma ConsSplit(s: seq<Event>, e: Event, k: nat)
    requires 0 < k <= |s|
    ensures [s[0]] + (s[1..][..k - 1] + [e] + s[1..][k - 1..]) == s[..k] + [e] + s[k..]
  {
    assert s[..k] == [s[0]] + s[1..][..k - 1];
    assert s[k..] == s[1..][k - 1..];
  }

  /** `InsertSorted` puts `e` just before the first element it strictly precedes. */
  lemma {:induction false} InsertSortedAt(o: Order, s: seq<Event>, e: Event, k: nat)
    requires AllComparable(o, s) && Comparable(o, e) && k <= |s|
    requires forall i :: 0 <= i < k ==> Cmp(o, e, s[i]) >= 0.0
    requires k < |s| ==> Cmp(o, e, s[k]) < 0.0
    ensures InsertSorted(o, s, e) == s[..k] + [e] + s[k..]
  {
    if s == [] {
    } else if Cmp(o, e, s[0]) < 0.0 {
      assert k == 0;
      assert s[..k] == [] && s[k..] == s;
    } else {
      var tail := s[1..];
      assert k > 0;
      forall i | 0 <= i < k - 1 ensures Cmp(o, e, tail[i]) >= 0.0 {
        assert tail[i] == s[i + 1];
      }
      assert k - 1 < |tail| ==> tail[k - 1] == s[k];
      InsertSortedAt(o, tail, e, k - 1);
      var inner := InsertSorted(o, tail, e);
      InsertSortedStep(o, s, e);
      ConsSplit(s, e, k);
    }
  }

  /** Python's stable `sorted(s)`, as insertion sort from the left. */
  function StableSort(o: Order, s: seq<Event>): (r: seq<Event>)
    requires AllComparable(o, s)
    ensures multiset(r) == multiset(s)
    ensures AllComparable(o, r)
    ensures Sorted(o, r)
  {
    if s == [] then []
    else
      var init := s[..|s| - 1];
      assert s == init + [s[|s| - 1]];
      InsertSorted(o, StableSort(o, init), s[|s| - 1])
  }

  /** Inserting an element that no element of `s` follows appends it. */
  lemma {:induction false} InsertSortedLast(o: Order, s: seq<Event>, e: Event)
    requires AllComparable(o, s) && Comparable(o, e)
    requires forall i :: 0 <= i < |s| ==> Cmp(o, e, s[i]) >= 0.0
    ensures InsertSorted(o, s, e) == s + [e]
  {
    if s != [] {
      var rest := s[1..];
      forall i | 0 <= i < |rest| ensures Cmp(o, e, rest[i]) >= 0.0 {
        assert rest[i] == s[i + 1];
      }
      InsertSortedLast(o, rest, e);
      InsertSortedStep(o, s, e);
      assert s + [e] == [s[0]] + (rest + [e]);
    }
  }

  /** Sorting an already sorted list changes nothing (stability). */
  lemma {:induction false} StableSortSorted(o: Order, s: seq<Event>)
    requires AllComparable(o, s) && Sorted(o, s)
    ensures StableSort(o, s) == s
  {
    if s != [] {
      var init := s[..|s| - 1];
      var last := s[|s| - 1];
      assert s == init + [last];
      StableSortSorted(o, init);
      forall i | 0 <= i < |init| ensures Cmp(o, last, init[i]) >= 0.0 {
        CmpTotalPreorder(o, init[i], last, last);
      }
      InsertSortedLast(o, init, last);
    }
  }

  /**
   * `sorted(state + [e])` on a sorted `state` is a single stable insertion:
   * `e` lands after every entry that does not strictly follow it.
   */
  lemma {:induction false} StableSortAppend(o: Order, s: seq<Event>, e: Event)
    requires AllComparable(o, s) && Comparable(o, e) && Sorted(o, s)
    ensures StableSort(o, s + [e]) == InsertSorted(o, s, e)
  {
    assert (s + [e])[..|s + [e]| - 1] == s;
    StableSortSorted(o, s);
  }

  /** The entries of `s` that tie with `e`, in their order in `s`. */
  function Ties(o: Order, s: seq<Event>, e: Event): seq<Event>
    requires AllComparable(o, s) && Comparable(o, e)
  {
    if s == [] then []
    else (if Cmp(o, s[0], e) == 0.0 then [s[0]] else []) + Ties(o, s[1..], e)
  }

  /** With no element tying with `e`, there are no ties. */
  lemma {:induction false} TiesNone(o: Order, t: seq<Event>, e: Event)
    requires AllComparable(o, t) && Comparable(o, e)
    requires forall j :: 0 <= j < |t| ==> Cmp(o, t[j], e) != 0.0
    ensures Ties(o, t, e) == []
  {
    if t != [] {
      TiesNone(o, t[1..], e);
    }
  }

  lemma {:induction false} TiesAppend(o: Order, a: seq<Event>, b: seq<Event>, e: Event)
    requires AllComparable(o, a) && AllComparable(o, b) && Comparable(o, e)
    ensures Ties(o, a + b, e) == Ties(o, a, e) + Ties(o, b, e)
  {
    if a == [] {
      assert a + b == b;
    } else {
      var ab := a + b;
      assert ab[0] == a[0] && ab[1..] == a[1..] + b;
      TiesAppend(o, a[1..], b, e);
      var head := if Cmp(o, a[0], e) == 0.0 then [a[0]] else [];
      assert Ties(o, ab, e) == head + Ties(o, ab[1..], e);
      assert Ties(o, a, e) == head + Ties(o, a[1..], e);
    }
  }

  /** Nothing after an element that strictly precedes a sorted list's head ties with what it ties with. */
  lemma NoTiesAfter(o: Order, t: seq<Event>, x: Event, e: Event)
    requires AllComparable(o, t) && Comparable(o, x) && Comparable(o, e) && Sorted(o, t)
    requires t != [] && Cmp(o, x, t[0]) < 0.0 && Cmp(o, x, e) == 0.0
    ensures forall j :: 0 <= j < |t| ==> Cmp(o, t[j], e) != 0.0
  {
    forall j | 0 <= j < |t| ensures Cmp(o, t[j], e) != 0.0 {
      CmpTotalPreorder(o, x, t[0], e);
      CmpTotalPreorder(o, e, x, t[j]);
      CmpTotalPreorder(o, t[j], e, x);
      CmpTotalPreorder(o, t[0], t[j], x);
    }
  }

  /** An element that strictly precedes a sorted list's head joins the end of its ties. */
  lemma FrontTies(o: Order, t: seq<Event>, x: Event, e: Event)
    requires AllComparable(o, t) && Comparable(o, x) && Comparable(o, e) && Sorted(o, t)
    requires t != [] && Cmp(o, x, t[0]) < 0.0
    ensures Ties(o, [x] + t, e) == Ties(o, t, e) + Ties(o, [x], e)
  {
    assert [x][1..] == [];
    TiesAppend(o, [x], t, e);
    if Cmp(o, x, e) == 0.0 {
      NoTiesAfter(o, t, x, e);
      TiesNone(o, t, e);
      assert Ties(o, [x], e) == [x];
    } else {
      assert Ties(o, [x], e) == [];
    }
  }

  lemma SortedTail(o: Order, t: seq<Event>)
    requires AllComparable(o, t) && Sorted(o, t) && t != []
    ensures AllComparable(o, t[1..]) && Sorted(o, t[1..])
  {
    var rest := t[1..];
    forall i, j | 0 <= i < j < |rest| ensures Cmp(o, rest[i], rest[j]) <= 0.0 {
      assert rest[i] == t[i + 1] && rest[j] == t[j + 1];
    }
  }

  lemma ConcatAssoc(a: seq<Event>, b: seq<Event>, c: seq<Event>)
    ensures a + (b + c) == (a + b) + c
  {
  }

  /** The ties of a non-empty list are its head's followed by its tail's. */
  lemma HeadTies(o: Order, t: seq<Event>, e: Event)
    requires AllComparable(o, t) && Comparable(o, e) && t != []
    ensures Ties(o, t, e) == Ties(o, [t[0]], e) + Ties(o, t[1..], e)
  {
    assert t == [t[0]] + t[1..];
    TiesAppend(o, [t[0]], t[1..], e);
  }

  /** Inserting behind the head keeps the head's ties in front. */
  lemma InsertedHeadTies(o: Order, t: seq<Event>, x: Event, e: Event)
    requires AllComparable(o, t) && Comparable(o, x) && Comparable(o, e)
    requires t != [] && Cmp(o, x, t[0]) >= 0.0
    ensures Ties(o, InsertSorted(o, t, x), e) == Ties(o, [t[0]], e) + Ties(o, InsertSorted(o, t[1..], x), e)
  {
    InsertSortedStep(o, t, x);
    TiesAppend(o, [t[0]], InsertSorted(o, t[1..], x), e);
  }

  /** Ties are unchanged by keeping the head in front of an insertion into the tail. */
  lemma StepTies(o: Order, t: seq<Event>, x: Event, e: Event)
    requires AllComparable(o, t) && Comparable(o, x) && Comparable(o, e)
    requires t != [] && Cmp(o, x, t[0]) >= 0.0
    requires Ties(o, InsertSorted(o, t[1..], x), e) == Ties(o, t[1..], e) + Ties(o, [x], e)
    ensures Ties(o, InsertSorted(o, t, x), e) == Ties(o, t, e) + Ties(o, [x], e)
  {
    InsertedHeadTies(o, t, x, e);
    HeadTies(o, t, e);
    ConcatAssoc(Ties(o, [t[0]], e), Ties(o, t[1..], e), Ties(o, [x], e));
  }

  /**
   * An element inserted into a sorted list comes after every element it
   * ties with: the ties of `e` gain it at their end.
   */
  lemma {:induction false} InsertSortedTies(o: Order, t: seq<Event>, x: Event, e: Event)
    requires AllComparable(o, t) && Comparable(o, x) && Comparable(o, e) && Sorted(o, t)
    ensures Ties(o, InsertSorted(o, t, x), e) == Ties(o, t, e) + Ties(o, [x], e)
  {
    if t == [] {
      assert InsertSorted(o, t, x) == [x];
    } else if Cmp(o, x, t[0]) < 0.0 {
      assert InsertSorted(o, t, x) == [x] + t;
      FrontTies(o, t, x, e);
    } else {
      SortedTail(o, t);
      InsertSortedTies(o, t[1..], x, e);
      StepTies(o, t, x, e);
    }
  }

  /** `sorted` is stable: the elements that tie with any `e` keep their input order. */
  lemma {:induction false} StableSortStable(o: Order, s: seq<Event>, e: Event)
    requires AllComparable(o, s) && Comparable(o, e)
    ensures Ties(o, StableSort(o, s), e) == Ties(o, s, e)
  {
    if s != [] {
      var init := s[..|s| - 1];
      var last := s[|s| - 1];
      assert s == init + [last];
      StableSortStable(o, init, e);
      InsertSortedTies(o, StableSort(o, init), last, e);
      TiesAppend(o, init, [last], e);
    }
  }
}
