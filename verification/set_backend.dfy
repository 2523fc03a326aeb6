/**
 * The `SortedSet`-backed `State`, `Sweep` and `EventsState` of
 * `set_state.py`. A `SortedSet(key=cmp_to_key(cmp_fun))` is a hash set (the
 * `in` test and `len`) beside a key-ordered list (`add`, `remove`, `index`,
 * indexing). The list is modelled as a single sublist: `add` bisects to the
 * right of equal keys, `remove` and `index` bisect to the left and then scan
 * the run of equal keys for an `==` match. The binary searches are Python's
 * `bisect`, written out, so that they are defined on a list the moving
 * sweep position has left out of order.
 */
module SetBackend {
  import opened Wrappers
  import opened Events
  import opened Ordering
  import opened SetEvents
  import ListBackend

  /** The key order of a `SortedSet` at the moment of the call: `cmp_xs`, or `cmp_ys` at a sweep position. */
  datatype KeyOrder = XsKey | YsKey(x: real)

  /** The key order a status built with `cmpFun` uses at sweep position `x`. */
  function KeyOrderAt(f: ListBackend.CmpFun, x: real): KeyOrder
  {
    match f
    case CmpXsFun => XsKey
    case CmpYsFun => YsKey(x)
  }

  /** `e` can be handed to the comparator: `cmp_ys` divides by the direction's dx. */
  predicate Keyable(o: KeyOrder, e: Event)
  {
    o.XsKey? || NonVertical(e)
  }

  predicate AllKeyable(o: KeyOrder, s: seq<Event>)
  {
    forall e | e in s :: Keyable(o, e)
  }

  function Sign(r: real): int
  {
    if r < 0.0 then -1 else if r == 0.0 then 0 else 1
  }

  /** The comparator as `cmp_to_key` reads it: only its sign matters. */
  function KeyCmp(o: KeyOrder, a: Event, b: Event): (r: int)
    requires Keyable(o, a) && Keyable(o, b)
    ensures -1 <= r <= 1
    ensures o.XsKey? ==> (r < 0 <==> CmpXs(a, b) < 0.0) && (r == 0 <==> CmpXs(a, b) == 0.0)
    ensures o.YsKey? ==> r == CmpYsEps(a, b, o.x)
  {
    match o
    case XsKey => Sign(CmpXs(a, b))
    case YsKey(x) => CmpYsEps(a, b, x)
  }

  /** `K(a) < K(b)`. */
  predicate Below(o: KeyOrder, a: Event, b: Event)
    requires Keyable(o, a) && Keyable(o, b)
  {
    KeyCmp(o, a, b) < 0
  }

  /** The entries of `s[lo..hi]` below `e` form a prefix of it. */
  ghost predicate BelowPrefix(o: KeyOrder, s: seq<Event>, e: Event, lo: nat, hi: nat)
    requires lo <= hi <= |s| && AllKeyable(o, s) && Keyable(o, e)
  {
    forall i, j :: lo <= i < j < hi && Below(o, s[j], e) ==> Below(o, s[i], e)
  }

  /** The entries of `s[lo..hi]` above `e` form a suffix of it. */
  ghost predicate AboveSuffix(o: KeyOrder, s: seq<Event>, e: Event, lo: nat, hi: nat)
    requires lo <= hi <= |s| && AllKeyable(o, s) && Keyable(o, e)
  {
    forall i, j :: lo <= i < j < hi && Below(o, e, s[i]) ==> Below(o, e, s[j])
  }

  /**
   * `bisect_left(keys, key, lo, hi)`. On a range whose entries below `e`
   * form a prefix it returns the end of that prefix; in any case, it stops
   * short of `hi` when the last entry is not below `e`.
   */
  function BisectLeft(o: KeyOrder, s: seq<Event>, e: Event, lo: nat, hi: nat): (r: nat)
    requires lo <= hi <= |s| && AllKeyable(o, s) && Keyable(o, e)
    ensures lo <= r <= hi
    ensures lo < hi && !Below(o, s[hi - 1], e) ==> r < hi
    ensures BelowPrefix(o, s, e, lo, hi) ==>
      (forall i :: lo <= i < r ==> Below(o, s[i], e)) && (forall i :: r <= i < hi ==> !Below(o, s[i], e))
    decreases hi - lo
  {
    if lo == hi then lo
    else
      var mid := (lo + hi) / 2;
      if Below(o, s[mid], e) then
        var r := BisectLeft(o, s, e, mid + 1, hi);
        assert BelowPrefix(o, s, e, lo, hi) ==>
          (forall i :: lo <= i < r ==> Below(o, s[i], e)) && (forall i :: r <= i < hi ==> !Below(o, s[i], e)) by {
          if BelowPrefix(o, s, e, lo, hi) {
            assert BelowPrefix(o, s, e, mid + 1, hi);
            forall i | lo <= i <= mid ensures Below(o, s[i], e) {
              if i < mid {
                assert Below(o, s[mid], e);
              }
            }
          }
        }
        r
      else
        var r := BisectLeft(o, s, e, lo, mid);
        assert BelowPrefix(o, s, e, lo, hi) ==>
          (forall i :: lo <= i < r ==> Below(o, s[i], e)) && (forall i :: r <= i < hi ==> !Below(o, s[i], e)) by {
          if BelowPrefix(o, s, e, lo, hi) {
            assert BelowPrefix(o, s, e, lo, mid);
            forall i | mid <= i < hi ensures !Below(o, s[i], e) {
              if i > mid {
                assert !Below(o, s[mid], e);
              }
            }
          }
        }
        r
  }

  /**
   * `bisect_right(keys, key, lo, hi)`. On a range whose entries above `e`
   * form a suffix it returns the start of that suffix.
   */
  function BisectRight(o: KeyOrder, s: seq<Event>, e: Event, lo: nat, hi: nat): (r: nat)
    requires lo <= hi <= |s| && AllKeyable(o, s) && Keyable(o, e)
    ensures lo <= r <= hi
    ensures AboveSuffix(o, s, e, lo, hi) ==>
      (forall i :: lo <= i < r ==> !Below(o, e, s[i])) && (forall i :: r <= i < hi ==> Below(o, e, s[i]))
    decreases hi - lo
  {
    if lo == hi then lo
    else
      var mid := (lo + hi) / 2;
      if Below(o, e, s[mid]) then
        var r := BisectRight(o, s, e, lo, mid);
        assert AboveSuffix(o, s, e, lo, hi) ==>
          (forall i :: lo <= i < r ==> !Below(o, e, s[i])) && (forall i :: r <= i < hi ==> Below(o, e, s[i])) by {
          if AboveSuffix(o, s, e, lo, hi) {
            assert AboveSuffix(o, s, e, lo, mid);
            forall i | mid <= i < hi ensures Below(o, e, s[i]) {
              if i > mid {
                assert Below(o, e, s[mid]);
              }
            }
          }
        }
        r
      else
        var r := BisectRight(o, s, e, mid + 1, hi);
        assert AboveSuffix(o, s, e, lo, hi) ==>
          (forall i :: lo <= i < r ==> !Below(o, e, s[i])) && (forall i :: r <= i < hi ==> Below(o, e, s[i])) by {
          if AboveSuffix(o, s, e, lo, hi) {
            assert AboveSuffix(o, s, e, mid + 1, hi);
            forall i | lo <= i <= mid ensures !Below(o, e, s[i]) {
              if i < mid {
                assert !Below(o, e, s[mid]);
              }
            }
          }
        }
        r
  }

  /**
   * Where `SortedKeyList.add` puts `e`: after the last entry when `e` is not
   * below the maximum, else at `bisect_right`. On a list whose entries above
   * `e` form a suffix, that is the start of the suffix.
   */
  function AddIndex(o: KeyOrder, s: seq<Event>, e: Event): (k: nat)
    requires AllKeyable(o, s) && Keyable(o, e)
    ensures k <= |s|
    ensures AboveSuffix(o, s, e, 0, |s|) ==>
      (forall i :: 0 <= i < k ==> !Below(o, e, s[i])) && (forall i :: k <= i < |s| ==> Below(o, e, s[i]))
  {
    if s == [] then 0
    else if !Below(o, e, s[|s| - 1]) then
      assert AboveSuffix(o, s, e, 0, |s|) ==> forall i :: 0 <= i < |s| ==> !Below(o, e, s[i]);
      |s|
    else BisectRight(o, s, e, 0, |s|)
  }

  /** `SortedKeyList.add`: `e` inserted at `AddIndex`, the other entries in their order. */
  function SortedAdd(o: KeyOrder, s: seq<Event>, e: Event): (r: seq<Event>)
    requires AllKeyable(o, s) && Keyable(o, e)
    ensures |r| == |s| + 1
    ensures multiset(r) == multiset(s) + multiset{e}
    ensures AllKeyable(o, r)
  {
    var k := AddIndex(o, s, e);
    assert s == s[..k] + s[k..];
    s[..k] + [e] + s[k..]
  }

  /** For `cmp_xs` on a sorted queue, `SortedKeyList.add` is the stable insertion `sorted` performs. */
  lemma {:induction false} AddIsInsertSorted(s: seq<Event>, e: Event)
    requires Sorted(ByPosition, s)
    ensures SortedAdd(XsKey, s, e) == InsertSorted(ByPosition, s, e)
  {
    assert AboveSuffix(XsKey, s, e, 0, |s|) by {
      forall i, j | 0 <= i < j < |s| && Below(XsKey, e, s[i]) ensures Below(XsKey, e, s[j]) {
        assert Cmp(ByPosition, s[i], s[j]) <= 0.0;
      }
    }
    var k := AddIndex(XsKey, s, e);
    InsertSortedAt(ByPosition, s, e, k);
  }

  /**
   * The set-backed queue and the list-backed queue insert a new event into
   * a sorted queue at the same place.
   */
  lemma QueueInsertAgrees(s: seq<Event>, e: Event)
    requires Sorted(ByPosition, s)
    ensures SortedAdd(XsKey, s, e) == StableSort(ByPosition, s + [e])
    ensures Sorted(ByPosition, SortedAdd(XsKey, s, e))
  {
    AddIsInsertSorted(s, e);
    StableSortAppend(ByPosition, s, e);
  }

  /** The scan of `remove`/`index` over the run of keys equal to `e`'s, from `i`. */
  function ScanRun(o: KeyOrder, s: seq<Event>, e: Event, i: nat): (r: Result<nat>)
    requires AllKeyable(o, s) && Keyable(o, e)
    ensures r.Ok? ==> i <= r.value < |s| && Same(s[r.value], e) && KeyCmp(o, s[r.value], e) == 0
    ensures r.Ok? ==> forall j :: i <= j < r.value ==> KeyCmp(o, s[j], e) == 0 && !Same(s[j], e)
    ensures r.Err? ==> r.raised == ValueError
    decreases |s| - i
  {
    if i >= |s| then Err(ValueError)
    else if KeyCmp(o, s[i], e) != 0 then Err(ValueError)
    else if Same(s[i], e) then Ok(i)
    else ScanRun(o, s, e, i + 1)
  }

  /**
   * The position `SortedKeyList.remove` and `index` find for `e`, or the
   * `ValueError` they raise: none when the list is empty or its maximum is
   * below `e`, else the first `==` match in the run of equal keys starting
   * at `bisect_left`.
   */
  function Locate(o: KeyOrder, s: seq<Event>, e: Event): (r: Result<nat>)
    requires AllKeyable(o, s) && Keyable(o, e)
    ensures r.Ok? ==> r.value < |s| && Same(s[r.value], e) && KeyCmp(o, s[r.value], e) == 0
    ensures r.Err? ==> r.raised == ValueError
  {
    if s == [] then Err(ValueError)
    else if Below(o, s[|s| - 1], e) then Err(ValueError)
    else ScanRun(o, s, e, BisectLeft(o, s, e, 0, |s|))
  }

  /**
   * Conversely, the lookup finds the entry `s[j]` equal to `e` whenever the
   * entries below `e` come first, `s[j]` ties with `e`, and every entry
   * before `s[j]` that is not below `e` ties with it and is not equal to it.
   */
  lemma {:induction false} LocateFinds(o: KeyOrder, s: seq<Event>, e: Event, j: nat)
    requires AllKeyable(o, s) && Keyable(o, e) && j < |s|
    requires BelowPrefix(o, s, e, 0, |s|)
    requires Same(s[j], e) && KeyCmp(o, s[j], e) == 0
    requires forall i :: 0 <= i < j && !Below(o, s[i], e) ==> KeyCmp(o, s[i], e) == 0 && !Same(s[i], e)
    ensures Locate(o, s, e) == Ok(j)
  {
    assert !Below(o, s[|s| - 1], e);
    var b := BisectLeft(o, s, e, 0, |s|);
    assert b <= j;
    ScanRunFinds(o, s, e, b, j);
  }

  lemma {:induction false} ScanRunFinds(o: KeyOrder, s: seq<Event>, e: Event, i: nat, j: nat)
    requires AllKeyable(o, s) && Keyable(o, e) && i <= j < |s|
    requires Same(s[j], e) && KeyCmp(o, s[j], e) == 0
    requires forall k :: i <= k < j ==> KeyCmp(o, s[k], e) == 0 && !Same(s[k], e)
    ensures ScanRun(o, s, e, i) == Ok(j)
    decreases j - i
  {
    if i < j {
      ScanRunFinds(o, s, e, i + 1, j);
    }
  }

  /** No two entries share a hash key (so no two are `==`). */
  predicate DistinctKeys(s: seq<Event>)
  {
    forall i, j :: 0 <= i < j < |s| ==> SetHashKey(s[i]) != SetHashKey(s[j])
  }

  ghost function KeysOf(s: seq<Event>): set<SetKey>
  {
    set e | e in s :: SetHashKey(e)
  }

  /** Inserting an event with a new key keeps the keys distinct and adds that key. */
  lemma InsertAtKeys(s: seq<Event>, k: nat, e: Event)
    requires DistinctKeys(s) && SetHashKey(e) !in KeysOf(s) && k <= |s|
    ensures DistinctKeys(s[..k] + [e] + s[k..])
    ensures KeysOf(s[..k] + [e] + s[k..]) == KeysOf(s) + {SetHashKey(e)}
  {
    var r := s[..k] + [e] + s[k..];
    assert forall i :: 0 <= i < |r| ==> r[i] == if i < k then s[i] else if i == k then e else s[i - 1];
    forall i | 0 <= i < |s| ensures SetHashKey(s[i]) != SetHashKey(e) {
      assert s[i] in s;
    }
    assert s == s[..k] + s[k..];
    forall x ensures x in r <==> x in s || x == e {
      assert x in r <==> x in s[..k] || x == e || x in s[k..];
    }
  }

  /** `add` of an event with a new key keeps the hash set and the list in step. */
  lemma AddKeepsKeys(o: KeyOrder, members: set<SetKey>, s: seq<Event>, e: Event)
    requires AllKeyable(o, s) && Keyable(o, e)
    requires DistinctKeys(s) && members == KeysOf(s) && |members| == |s| && SetHashKey(e) !in members
    ensures DistinctKeys(SortedAdd(o, s, e))
    ensures members + {SetHashKey(e)} == KeysOf(SortedAdd(o, s, e))
    ensures |members + {SetHashKey(e)}| == |SortedAdd(o, s, e)|
  {
    InsertAtKeys(s, AddIndex(o, s, e), e);
  }

  /** Removing one entry leaves the other entries' multiset. */
  lemma RemoveAtMultiset(s: seq<Event>, i: nat)
    requires i < |s|
    ensures multiset(s[..i] + s[i + 1..]) + multiset{s[i]} == multiset(s)
  {
    assert s == s[..i] + [s[i]] + s[i + 1..];
  }

  /** Removing one entry of a list with distinct keys removes exactly its key. */
  lemma RemoveAtKeys(s: seq<Event>, i: nat)
    requires i < |s| && DistinctKeys(s)
    ensures DistinctKeys(s[..i] + s[i + 1..])
    ensures KeysOf(s[..i] + s[i + 1..]) == KeysOf(s) - {SetHashKey(s[i])}
  {
    var r := s[..i] + s[i + 1..];
    assert forall j :: 0 <= j < |r| ==> r[j] == if j < i then s[j] else s[j + 1];
    forall x | x in r ensures x in s && SetHashKey(x) != SetHashKey(s[i]) {
      var j :| 0 <= j < |r| && r[j] == x;
      assert x == if j < i then s[j] else s[j + 1];
    }
    forall x | x in s && x != s[i] ensures x in r {
      var j :| 0 <= j < |s| && s[j] == x;
      if j < i {
        assert r[j] == x;
      } else {
        assert r[j - 1] == x;
      }
    }
  }

  /** For a list with distinct keys, an event whose key is absent is equal to no entry. */
  lemma AbsentKeyNotContained(s: seq<Event>, e: Event)
    requires SetHashKey(e) !in KeysOf(s)
    ensures !ListBackend.Contains(s, e)
  {
    forall i | 0 <= i < |s| ensures !Same(s[i], e) {
      assert s[i] in s;
      SetHashConsistent(s[i], e);
    }
  }

  /** Every entry of `r` is `e` or an entry of `s`, so `r`'s keys are `s`'s plus `e`'s. */
  lemma KeysOfGrown(s: seq<Event>, r: seq<Event>, e: Event)
    requires multiset(r) == multiset(s) + multiset{e}
    ensures KeysOf(r) == KeysOf(s) + {SetHashKey(e)}
  {
    forall x ensures x in r <==> x in s || x == e {
      assert x in r <==> x in multiset(r);
      assert x in s <==> x in multiset(s);
    }
  }

  /**
   * The list an `insert` leaves behind: unchanged for None and for an event
   * whose key is already present, else the event added by `SortedAdd`.
   */
  ghost function Added(o: KeyOrder, s: seq<Event>, e: Option<Event>): (r: seq<Event>)
    requires AllKeyable(o, s) && (e.Some? ==> Keyable(o, e.value))
    ensures AllKeyable(o, r)
    ensures e.None? || SetHashKey(e.value) in KeysOf(s) ==> r == s
    ensures e.Some? && SetHashKey(e.value) !in KeysOf(s) ==>
      multiset(r) == multiset(s) + multiset{e.value} && |r| == |s| + 1
    ensures e.Some? ==> KeysOf(r) == KeysOf(s) + {SetHashKey(e.value)}
    ensures e.Some? ==> multiset(r) <= multiset(s) + multiset{e.value}
    ensures multiset(s) <= multiset(r) && |s| <= |r| <= |s| + 1
    ensures DistinctKeys(s) ==> DistinctKeys(r)
  {
    if e.None? || SetHashKey(e.value) in KeysOf(s) then s
    else
      var r := SortedAdd(o, s, e.value);
      KeysOfGrown(s, r, e.value);
      assert DistinctKeys(s) ==> DistinctKeys(r) by {
        if DistinctKeys(s) {
          InsertAtKeys(s, AddIndex(o, s, e.value), e.value);
        }
      }
      r
  }

  /**
   * The list a `remove` of `e` leaves behind, or what it raises: `KeyError`
   * when no entry has `e`'s key, `ValueError` when the key list does not
   * find it; else the entry `Locate` finds, which is equal to `e`, is gone.
   */
  ghost function Removed(o: KeyOrder, s: seq<Event>, e: Event): (r: Result<seq<Event>>)
    requires AllKeyable(o, s) && Keyable(o, e)
    ensures SetHashKey(e) !in KeysOf(s) ==> r == Err(KeyError)
    ensures SetHashKey(e) in KeysOf(s) ==> (r.Err? <==> Locate(o, s, e).Err?)
    ensures r.Err? ==> r.raised == KeyError || r.raised == ValueError
    ensures r.Ok? ==>
      AllKeyable(o, r.value) && |r.value| + 1 == |s|
      && multiset(r.value) + multiset{s[Locate(o, s, e).value]} == multiset(s)
    ensures r.Ok? ==> multiset(r.value) <= multiset(s)
    ensures r.Ok? ==> r.value == s[..Locate(o, s, e).value] + s[Locate(o, s, e).value + 1..]
    ensures r.Ok? && DistinctKeys(s) ==>
      DistinctKeys(r.value) && KeysOf(r.value) == KeysOf(s) - {SetHashKey(e)}
  {
    if SetHashKey(e) !in KeysOf(s) then Err(KeyError)
    else
      match Locate(o, s, e)
      case Err(_) => Err(ValueError)
      case Ok(i) =>
        RemoveAtMultiset(s, i);
        SetHashConsistent(s[i], e);
        assert DistinctKeys(s) ==>
          DistinctKeys(s[..i] + s[i + 1..]) && KeysOf(s[..i] + s[i + 1..]) == KeysOf(s) - {SetHashKey(e)} by {
          if DistinctKeys(s) {
            RemoveAtKeys(s, i);
          }
        }
        Ok(s[..i] + s[i + 1..])
  }

  /**
   * What `get_neighbours(e)` returns on the list `s`: the entries on either
   * side of the one `index` finds, None past either end, or its `ValueError`.
   */
  function NeighboursOf(o: KeyOrder, s: seq<Event>, e: Event): (r: Result<ListBackend.Neighbours>)
    requires AllKeyable(o, s) && Keyable(o, e)
    ensures r.Err? <==> Locate(o, s, e).Err?
    ensures r.Err? ==> r.raised == ValueError
    ensures r.Ok? ==>
      var i := Locate(o, s, e).value;
      (r.value.prev.Some? <==> i > 0) && (i > 0 ==> r.value.prev.value == s[i - 1])
      && (r.value.next.Some? <==> i + 1 < |s|) && (i + 1 < |s| ==> r.value.next.value == s[i + 1])
    ensures r.Ok? ==> (r.value.prev.Some? ==> r.value.prev.value in s) && (r.value.next.Some? ==> r.value.next.value in s)
  {
    match Locate(o, s, e)
    case Err(_) => Err(ValueError)
    case Ok(i) => Ok(ListBackend.NeighboursAt(s, i))
  }

  /** The `SortedSet`-backed `State` (and `Sweep`, which adds nothing). */
  class State {
    const cmpFun: ListBackend.CmpFun
    /** The hash set: one key per member. */
    var members: set<SetKey>
    /** The key-ordered list. */
    var items: seq<Event>

    /** The hash set and the list hold the same members, once each. */
    ghost predicate Valid()
      reads this
    {
      DistinctKeys(items) && members == KeysOf(items) && |members| == |items|
    }

    constructor (cmpFun: ListBackend.CmpFun)
      ensures this.cmpFun == cmpFun && members == {} && items == []
      ensures Valid()
    {
      this.cmpFun := cmpFun;
      members := {};
      items := [];
    }

    /**
     * `insert`: nothing for None; nothing for an event already a member (the
     * explicit test for an Intersect, `SortedSet.add`'s own test otherwise);
     * else the key joins the hash set and `e` the list.
     */
    method Insert(e: Option<Event>, x: real)
      requires AllKeyable(KeyOrderAt(cmpFun, x), items)
      requires e.Some? ==> Keyable(KeyOrderAt(cmpFun, x), e.value)
      modifies this
      ensures e.None? || SetHashKey(e.value) in old(members) ==> members == old(members) && items == old(items)
      ensures e.Some? && SetHashKey(e.value) !in old(members) ==>
        members == old(members) + {SetHashKey(e.value)}
        && items == SortedAdd(KeyOrderAt(cmpFun, x), old(items), e.value)
      ensures old(Valid()) ==> Valid() && items == Added(KeyOrderAt(cmpFun, x), old(items), e)
    {
      if e.None? {
        return;
      }
      if e.value.Intersect? && SetHashKey(e.value) in members {
        return;
      }
      if SetHashKey(e.value) !in members {
        if Valid() {
          AddKeepsKeys(KeyOrderAt(cmpFun, x), members, items, e.value);
        }
        members := members + {SetHashKey(e.value)};
        items := SortedAdd(KeyOrderAt(cmpFun, x), items, e.value);
      }
    }

    /**
     * `remove`, that is `MutableSet.remove`: `KeyError` for a non-member;
     * else the key leaves the hash set, then the list loses the entry
     * `Locate` finds, or raises `ValueError` and keeps it.
     */
    method Remove(e: Option<Event>, x: real) returns (r: Result<()>)
      requires AllKeyable(KeyOrderAt(cmpFun, x), items)
      requires e.Some? ==> Keyable(KeyOrderAt(cmpFun, x), e.value)
      modifies this
      ensures e.None? ==> r == Ok(()) && members == old(members) && items == old(items)
      ensures e.Some? && SetHashKey(e.value) !in old(members) ==>
        r == Err(KeyError) && members == old(members) && items == old(items)
      ensures e.Some? && SetHashKey(e.value) in old(members) ==> members == old(members) - {SetHashKey(e.value)}
      ensures e.Some? && SetHashKey(e.value) in old(members) && Locate(KeyOrderAt(cmpFun, x), old(items), e.value).Err? ==>
        r == Err(ValueError) && items == old(items)
      ensures e.Some? && SetHashKey(e.value) in old(members) && Locate(KeyOrderAt(cmpFun, x), old(items), e.value).Ok? ==>
        var i := Locate(KeyOrderAt(cmpFun, x), old(items), e.value).value;
        r == Ok(()) && items == old(items)[..i] + old(items)[i + 1..]
        && multiset(items) + multiset{old(items)[i]} == multiset(old(items))
      ensures old(Valid()) && r.Ok? ==> Valid()
      ensures old(Valid()) && e.Some? ==>
        match Removed(KeyOrderAt(cmpFun, x), old(items), e.value)
        case Err(raised) => r == Err(raised)
        case Ok(t) => r == Ok(()) && items == t
    {
      if e.None? {
        return Ok(());
      }
      if SetHashKey(e.value) !in members {
        return Err(KeyError);
      }
      members := members - {SetHashKey(e.value)};
      var found := Locate(KeyOrderAt(cmpFun, x), items, e.value);
      if found.Err? {
        return Err(ValueError);
      }
      var i := found.value;
      RemoveAtMultiset(items, i);
      if DistinctKeys(items) {
        RemoveAtKeys(items, i);
      }
      SetHashConsistent(items[i], e.value);
      items := items[..i] + items[i + 1..];
      r := Ok(());
    }

    /**
     * `get_neighbours`: the entries on either side of the one `index`
     * finds, or None past either end; `ValueError` when it finds none.
     */
    method GetNeighbours(e: Option<Event>, x: real) returns (r: Result<ListBackend.Neighbours>)
      requires Valid() && AllKeyable(KeyOrderAt(cmpFun, x), items)
      requires e.Some? ==> Keyable(KeyOrderAt(cmpFun, x), e.value)
      ensures e.None? ==> r == Ok(ListBackend.Neighbours(None, None))
      ensures e.Some? ==> r == NeighboursOf(KeyOrderAt(cmpFun, x), items, e.value)
    {
      if e.None? {
        return Ok(ListBackend.Neighbours(None, None));
      }
      var found := Locate(KeyOrderAt(cmpFun, x), items, e.value);
      if found.Err? {
        return Err(ValueError);
      }
      var ix := found.value;
      var prev := if ix - 1 >= 0 then Some(items[ix - 1]) else None;
      var next := if ix + 1 < |members| then Some(items[ix + 1]) else None;
      r := Ok(ListBackend.Neighbours(prev, next));
    }
  }

  /** The event queue: a `SortedSet` ordered by `cmp_xs`, plus a forward cursor. */
  class EventsState {
    var members: set<SetKey>
    var items: seq<Event>
    var currentIx: nat

    ghost predicate Valid()
      reads this
    {
      DistinctKeys(items) && members == KeysOf(items) && |members| == |items|
    }

    constructor ()
      ensures members == {} && items == [] && currentIx == 0
      ensures Valid()
    {
      members := {};
      items := [];
      currentIx := 0;
    }

    /**
     * `insert` with `cmp_xs`: as `State.insert`. On a sorted queue the new
     * event lands where the list-backed queue's re-sort puts it.
     */
    method Insert(e: Option<Event>)
      modifies this
      ensures currentIx == old(currentIx)
      ensures e.None? || SetHashKey(e.value) in old(members) ==> members == old(members) && items == old(items)
      ensures e.Some? && SetHashKey(e.value) !in old(members) ==>
        members == old(members) + {SetHashKey(e.value)} && items == SortedAdd(XsKey, old(items), e.value)
      ensures e.Some? && SetHashKey(e.value) !in old(members) && Sorted(ByPosition, old(items)) ==>
        items == StableSort(ByPosition, old(items) + [e.value]) && Sorted(ByPosition, items)
      ensures old(Valid()) ==> Valid() && items == Added(XsKey, old(items), e)
    {
      if e.None? {
        return;
      }
      if e.value.Intersect? && SetHashKey(e.value) in members {
        return;
      }
      if SetHashKey(e.value) !in members {
        ghost var before := items;
        Add(e.value);
        if Sorted(ByPosition, before) {
          QueueInsertAgrees(before, e.value);
        }
      }
    }

    /** `SortedSet.add` of a non-member: its key joins the hash set, the event joins the list. */
    method Add(e: Event)
      requires SetHashKey(e) !in members
      modifies this
      ensures currentIx == old(currentIx)
      ensures members == old(members) + {SetHashKey(e)} && items == SortedAdd(XsKey, old(items), e)
      ensures old(Valid()) ==> Valid()
    {
      if Valid() {
        AddKeepsKeys(XsKey, members, items, e);
      }
      members := members + {SetHashKey(e)};
      items := SortedAdd(XsKey, items, e);
    }

    /**
     * `has_next`: the length is that of the hash set, which in a valid
     * queue is the length of the list.
     */
    predicate HasNext()
      reads this
      ensures Valid() ==> (HasNext() <==> currentIx < |items|)
    {
      |members| > currentIx
    }

    /** `next`: advances the cursor by one, then returns the entry it passed over. */
    method Next() returns (r: Result<Event>)
      modifies this
      ensures members == old(members) && items == old(items) && currentIx == old(currentIx) + 1
      ensures old(currentIx) < |items| ==> r == Ok(items[old(currentIx)])
      ensures old(currentIx) >= |items| ==> r == Err(IndexError)
    {
      currentIx := currentIx + 1;
      if currentIx - 1 < |items| {
        r := Ok(items[currentIx - 1]);
      } else {
        r := Err(IndexError);
      }
    }
  }
}
