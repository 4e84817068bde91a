/**
 * Timeline markers of the interactive-video editor: bookmarks and endscreens
 * placed on the video timeline, the insertion point an add uses, the splice
 * that puts a new marker there, and the tenth-of-a-second slots that two
 * markers may not share.
 */
module TimelineMarkers {

  datatype Option<T> = None | Some(value: T)

  /** One entry of `params.bookmarks` or `params.endscreens`: a raw time in seconds and its `label` (`label` is a Dafny keyword). */
  datatype Marker = Marker(time: real, text: string)

  /**
   * The tenth-of-a-second slot a time falls into, `Math.floor(time * 10)`.
   * The editor uses `Math.floor(time * 10) / 10` as the key; this model keys
   * by ten times that value, an integer, which names the same slot.
   */
  function Tenth(time: real): (k: int)
    ensures k as real <= time * 10.0 < k as real + 1.0
  {
    (time * 10.0).Floor
  }

  /** The markers are in non-decreasing order of time. */
  ghost predicate Sorted(s: seq<Marker>)
  {
    forall j, k :: 0 <= j < k < |s| ==> s[j].time <= s[k].time
  }

  /**
   * Where an add puts a marker at `time`: the first position whose time is
   * strictly greater than `time`, or the length of the list if there is none.
   */
  function InsertionIndex(s: seq<Marker>, time: real): (i: nat)
    ensures i <= |s|
    ensures forall j :: 0 <= j < i ==> s[j].time <= time
    ensures i < |s| ==> s[i].time > time
  {
    if s == [] || s[0].time > time then 0 else 1 + InsertionIndex(s[1..], time)
  }

  /**
   * The ascending scan of the add operations: it stops at the first entry
   * whose time is greater than `time` and leaves its index behind.
   */
  method FindInsertionIndex(s: seq<Marker>, time: real) returns (i: nat)
    ensures i == InsertionIndex(s, time)
  {
    i := 0;
    while i < |s|
      invariant i <= |s|
      invariant forall j :: 0 <= j < i ==> s[j].time <= time
    {
      if s[i].time > time {
        break;
      }
      i := i + 1;
    }
    InsertionIndexIsFirstGreater(s, time, i);
  }

  /** The converse of InsertionIndex's contract: those properties pin the index down. */
  lemma InsertionIndexIsFirstGreater(s: seq<Marker>, time: real, i: nat)
    requires i <= |s|
    requires forall j :: 0 <= j < i ==> s[j].time <= time
    requires i < |s| ==> s[i].time > time
    ensures i == InsertionIndex(s, time)
  {
  }

  /** A marker later than every existing one is appended. */
  lemma LatestIsAppended(s: seq<Marker>, time: real)
    requires forall j :: 0 <= j < |s| ==> s[j].time <= time
    ensures InsertionIndex(s, time) == |s|
  {
  }

  /** A marker earlier than the first entry goes to the front. */
  lemma EarliestGoesFirst(s: seq<Marker>, time: real)
    requires |s| > 0 ==> time < s[0].time
    ensures InsertionIndex(s, time) == 0
  {
  }

  /** In a sorted list every entry from the insertion index on is later than `time`. */
  lemma SortedTailIsLater(s: seq<Marker>, time: real)
    requires Sorted(s)
    ensures forall j :: InsertionIndex(s, time) <= j < |s| ==> s[j].time > time
  {
  }

  /** `s.splice(i, 0, m)`: `m` lands at `i`, the entries before stay, the rest move up by one. */
  function InsertAt(s: seq<Marker>, i: nat, m: Marker): (r: seq<Marker>)
    requires i <= |s|
    ensures |r| == |s| + 1
    ensures r[i] == m
    ensures forall j :: 0 <= j < i ==> r[j] == s[j]
    ensures forall j :: i <= j < |s| ==> r[j + 1] == s[j]
    ensures multiset(r) == multiset(s) + multiset{m}
  {
    assert s == s[..i] + s[i..];
    s[..i] + [m] + s[i..]
  }

  /** Inserting at the insertion index keeps a sorted list sorted. */
  lemma InsertKeepsSorted(s: seq<Marker>, m: Marker)
    requires Sorted(s)
    ensures Sorted(InsertAt(s, InsertionIndex(s, m.time), m))
  {
    var i := InsertionIndex(s, m.time);
    var r := InsertAt(s, i, m);
    SortedTailIsLater(s, m.time);
    forall j, k | 0 <= j < k < |r|
      ensures r[j].time <= r[k].time
    {
      if k < i {
        assert r[j] == s[j] && r[k] == s[k];
      } else if k == i {
        assert r[j] == s[j];
      } else if j < i {
        assert r[j] == s[j] && r[k] == s[k - 1];
      } else if j == i {
        assert r[k] == s[k - 1];
      } else {
        assert r[j] == s[j - 1] && r[k] == s[k - 1];
      }
    }
  }

  /** The slots the markers of a list occupy. */
  ghost function Slots(s: seq<Marker>): set<int>
  {
    set j | 0 <= j < |s| :: Tenth(s[j].time)
  }

  /** No two markers of the list share a slot. */
  ghost predicate DistinctSlots(s: seq<Marker>)
  {
    forall j, k :: 0 <= j < k < |s| ==> Tenth(s[j].time) != Tenth(s[k].time)
  }

  /**
   * The state the occupancy maps are meant to describe: each list has one map
   * whose keys are exactly its slots, no slot is taken twice within a list,
   * and no slot is shared between the two lists.
   */
  ghost predicate SlotsRegistered<E>(own: seq<Marker>, other: seq<Marker>, ownMap: map<int, E>, otherMap: map<int, E>)
  {
    && DistinctSlots(own) && DistinctSlots(other)
    && Slots(own) == ownMap.Keys && Slots(other) == otherMap.Keys
    && ownMap.Keys !! otherMap.Keys
  }

  /** A splice adds exactly the new marker's slot. */
  lemma SlotsOfInsertAt(s: seq<Marker>, i: nat, m: Marker)
    requires i <= |s|
    ensures Slots(InsertAt(s, i, m)) == Slots(s) + {Tenth(m.time)}
  {
  }

  /** Splicing in a marker whose slot is free keeps the slots of the list distinct. */
  lemma InsertFreeSlotKeepsDistinct(s: seq<Marker>, i: nat, m: Marker)
    requires i <= |s|
    requires DistinctSlots(s)
    requires Tenth(m.time) !in Slots(s)
    ensures DistinctSlots(InsertAt(s, i, m))
  {
  }

  /**
   * An add whose slot check passed, followed by the player registering the
   * new slot in the target list's map, keeps the maps and lists in step:
   * every marker has its own slot and every slot its marker.
   */
  lemma InsertKeepsSlotsRegistered<E>(own: seq<Marker>, other: seq<Marker>, ownMap: map<int, E>, otherMap: map<int, E>, m: Marker, element: E)
    requires Tenth(m.time) !in ownMap && Tenth(m.time) !in otherMap
    ensures SlotsRegistered(own, other, ownMap, otherMap) ==>
      SlotsRegistered(InsertAt(own, InsertionIndex(own, m.time), m), other, ownMap[Tenth(m.time) := element], otherMap)
  {
    if SlotsRegistered(own, other, ownMap, otherMap) {
      var i := InsertionIndex(own, m.time);
      SlotsOfInsertAt(own, i, m);
      InsertFreeSlotKeepsDistinct(own, i, m);
    }
  }
}
