/** Rules of the map editor that are independent of its Qt scenes: how many
    border blocks to draw, the zoom-level clamp, the collision readout, the
    sorted position of a new combo-box label, the event-selection toggle, and
    the per-group event capacity check. */
module EditorHelpers {
  import opened Wrappers

  // ----- Border draw distance -----

  /** `Editor::getBorderDrawDistance`: the border extent, in blocks, drawn
      along a dimension of the border pattern so that the player's view of
      `borderDistance` blocks is covered by whole copies of the pattern.
      `borderDistance` is non-negative, so C's truncating `/` and `%` agree
      with Dafny's here even for a negative `dimension`. */
  function BorderDrawDistance(dimension: int, borderDistance: nat): int
  {
    if dimension >= borderDistance then dimension
    else if dimension != 0 then
      dimension * (borderDistance / dimension + (if borderDistance % dimension != 0 then 1 else 0))
    else borderDistance
  }

  /** For a non-negative dimension the result covers the view: a dimension at
      least the view is kept, 0 gives the view itself, and a smaller one gives
      the least multiple of the dimension that reaches the view. */
  lemma BorderDrawDistanceCovers(dimension: int, borderDistance: nat)
    requires dimension >= 0
    ensures var r := BorderDrawDistance(dimension, borderDistance);
      && r >= borderDistance
      && (dimension >= borderDistance ==> r == dimension)
      && (dimension == 0 ==> r == borderDistance)
      && (0 < dimension < borderDistance ==>
            r % dimension == 0 && r - dimension < borderDistance)
  {
    var r := BorderDrawDistance(dimension, borderDistance);
    if 0 < dimension < borderDistance {
      var q, m := borderDistance / dimension, borderDistance % dimension;
      assert borderDistance == dimension * q + m;
      if m == 0 {
        assert r == dimension * q;
      } else {
        assert r == dimension * q + dimension;
        assert r == dimension * (q + 1);
      }
      MultipleMod(dimension, if m == 0 then q else q + 1);
    }
  }

  lemma MultipleMod(d: int, k: int)
    requires d > 0
    ensures (d * k) % d == 0
  {
    var x := d * k;
    var q, m := x / d, x % d;
    assert x == d * q + m && 0 <= m < d;
    assert d * (k - q) == m;
    if k - q >= 1 {
      AtLeastFactor(d, k - q);
    } else if k - q <= -1 {
      AtLeastFactor(d, q - k);
    }
  }

  lemma AtLeastFactor(d: int, a: int)
    requires d > 0 && a >= 1
    ensures d * a >= d
  {
    assert d * a - d == d * (a - 1);
  }

  // ----- Zoom -----

  /** The number of entries of `zoomLevels`. */
  const ZOOM_LEVEL_COUNT := 8

  /** The zoom index `scaleMapView` moves to from `scaleIndex + s`: clamped
      into the indices of `zoomLevels`. */
  function ClampScaleIndex(next: int): (r: int)
    ensures 0 <= r < ZOOM_LEVEL_COUNT
  {
    var low := if next < 0 then 0 else next;
    if low >= ZOOM_LEVEL_COUNT then ZOOM_LEVEL_COUNT - 1 else low
  }

  /** How far apart two zoom indices are. */
  function Distance(a: int, b: int): nat
  {
    if a < b then b - a else a - b
  }

  /** The clamp picks the valid zoom index nearest the requested one, which
      is the requested one itself whenever it is valid. */
  lemma ClampIsNearest(next: int)
    ensures 0 <= next < ZOOM_LEVEL_COUNT ==> ClampScaleIndex(next) == next
    ensures forall k :: 0 <= k < ZOOM_LEVEL_COUNT ==>
      Distance(ClampScaleIndex(next), next) <= Distance(k, next)
  {
  }

  // ----- Collision readout -----

  /** What `getMovementPermissionText` reports for a block. */
  datatype MovementPermission =
    | Impassable(collision: int, elevation: int)
    | Transition
    | Bridge
    | Surf
    | Passable(elevation: int)

  /** `Editor::getMovementPermissionText`, as the category its message names;
      the first matching check wins. */
  function MovementPermissionOf(collision: int, elevation: int): MovementPermission
  {
    if collision != 0 then Impassable(collision, elevation)
    else if elevation == 0 then Transition
    else if elevation == 15 then Bridge
    else if elevation == 1 then Surf
    else Passable(elevation)
  }

  /** Each category holds for exactly the blocks the readout gives it: any
      collision is impassable whatever the elevation, and a free block is a
      transition at elevation 0, a bridge at 15, water at 1 and passable at
      any other elevation. */
  lemma MovementPermissionCategories(collision: int, elevation: int)
    ensures var p := MovementPermissionOf(collision, elevation);
      && (p.Impassable? <==> collision != 0)
      && (p.Transition? <==> collision == 0 && elevation == 0)
      && (p.Bridge? <==> collision == 0 && elevation == 15)
      && (p.Surf? <==> collision == 0 && elevation == 1)
      && (p.Passable? <==> collision == 0 && elevation !in {0, 1, 15})
      && (p.Impassable? ==> p == Impassable(collision, elevation))
      && (p.Passable? ==> p == Passable(elevation))
  {
  }

  // ----- Sorted insertion -----

  /** `QString`'s `<`: lexicographic on characters, a proper prefix first. */
  predicate StrLess(a: string, b: string)
  {
    if |b| == 0 then false
    else if |a| == 0 then true
    else if a[0] != b[0] then a[0] < b[0]
    else StrLess(a[1..], b[1..])
  }

  lemma {:induction false} StrLessIrreflexive(a: string)
    ensures !StrLess(a, a)
  {
    if |a| > 0 {
      StrLessIrreflexive(a[1..]);
    }
  }

  lemma {:induction false} StrLessTransitive(a: string, b: string, c: string)
    requires StrLess(a, b) && StrLess(b, c)
    ensures StrLess(a, c)
  {
    if |a| > 0 && a[0] == b[0] && b[0] == c[0] {
      StrLessTransitive(a[1..], b[1..], c[1..]);
    }
  }

  /** Any two different strings are ordered one way. */
  lemma {:induction false} StrLessTotal(a: string, b: string)
    ensures a == b || StrLess(a, b) || StrLess(b, a)
  {
    if |a| > 0 && |b| > 0 && a[0] == b[0] {
      StrLessTotal(a[1..], b[1..]);
      if a[1..] == b[1..] {
        assert a == [a[0]] + a[1..] && b == [b[0]] + b[1..];
      }
    }
  }

  /** No string is below another and above it. */
  lemma StrLessAsymmetric(a: string, b: string)
    ensures !(StrLess(a, b) && StrLess(b, a))
  {
    if StrLess(a, b) && StrLess(b, a) {
      StrLessTransitive(a, b, a);
      StrLessIrreflexive(a);
    }
  }

  /** Ordered by `<`, equal neighbours allowed. */
  predicate Sorted(items: seq<string>)
  {
    forall i, j :: 0 <= i < j < |items| ==> !StrLess(items[j], items[i])
  }

  /** `Editor::getSortedItemIndex`: the first position whose text is above
      `item`, or the number of items when there is none. */
  method GetSortedItemIndex(items: seq<string>, item: string) returns (i: nat)
    ensures i <= |items|
    ensures forall k :: 0 <= k < i ==> !StrLess(item, items[k])
    ensures i < |items| ==> StrLess(item, items[i])
  {
    i := 0;
    while i < |items|
      invariant i <= |items|
      invariant forall k :: 0 <= k < i ==> !StrLess(item, items[k])
    {
      if StrLess(item, items[i]) {
        break;
      }
      i := i + 1;
    }
  }

  /** Inserting a new label where `GetSortedItemIndex` says, as the wild
      encounter dialog does, keeps a sorted combo box sorted. */
  lemma InsertKeepsSorted(items: seq<string>, item: string, i: nat)
    requires Sorted(items) && i <= |items|
    requires forall k :: 0 <= k < i ==> !StrLess(item, items[k])
    requires i < |items| ==> StrLess(item, items[i])
    ensures Sorted(items[..i] + [item] + items[i..])
  {
    var result := items[..i] + [item] + items[i..];
    forall a, b | 0 <= a < b < |result|
      ensures !StrLess(result[b], result[a])
    {
      if a < i && b == i {
      } else if a == i && b > i {
        var k := b - 1;
        if StrLess(items[k], item) {
          StrLessTransitive(items[k], item, items[i]);
          if k == i {
            StrLessIrreflexive(items[i]);
          }
        }
      } else if a < i && b > i {
        assert result[a] == items[a] && result[b] == items[b - 1];
      } else if a > i {
        assert result[a] == items[a - 1] && result[b] == items[b - 1];
      }
    }
  }

  // ----- Events -----

  /** An event, by identity, as the editor's `Event*` lists hold them. */
  type EventRef = nat

  predicate NoDuplicates(events: seq<EventRef>)
  {
    forall i, j :: 0 <= i < j < |events| ==> events[i] != events[j]
  }

  /** The position of the first occurrence of `e`. */
  function IndexOf(events: seq<EventRef>, e: EventRef): (k: nat)
    requires e in events
    ensures k < |events| && events[k] == e && e !in events[..k]
  {
    if events[0] == e then 0
    else
      assert events == [events[0]] + events[1..];
      1 + IndexOf(events[1..], e)
  }

  /** `QList::removeOne`: the list without the first occurrence of `e`. */
  function RemoveOne(events: seq<EventRef>, e: EventRef): (r: seq<EventRef>)
    ensures e in events ==> |r| == |events| - 1
    ensures e !in events ==> r == events
    ensures multiset(r) == multiset(events) - multiset{e}
  {
    if events == [] then []
    else
      assert events == [events[0]] + events[1..];
      if events[0] == e then events[1..]
      else [events[0]] + RemoveOne(events[1..], e)
  }

  /** Removing an event cuts out exactly its first occurrence: the events
      before and after it keep their order. */
  lemma RemoveOneKeepsOrder(events: seq<EventRef>, e: EventRef)
    requires e in events
    ensures RemoveOne(events, e) == events[..IndexOf(events, e)] + events[IndexOf(events, e) + 1..]
  {
    var k := IndexOf(events, e);
    var r := RemoveOne(events, e);
    RemoveOneShifts(events, e);
    assert |r| == |events[..k] + events[k + 1..]|;
    forall i | 0 <= i < |r|
      ensures r[i] == (events[..k] + events[k + 1..])[i]
    {
      if i >= k {
        assert (events[..k] + events[k + 1..])[i] == events[i + 1];
      }
    }
  }

  /** Position by position: events before the first occurrence of `e` stay
      put, and those after it move one place forward. */
  lemma {:induction false} RemoveOneShifts(events: seq<EventRef>, e: EventRef)
    requires e in events
    ensures var k, r := IndexOf(events, e), RemoveOne(events, e);
      && (forall i :: 0 <= i < k ==> r[i] == events[i])
      && (forall i :: k <= i < |r| ==> r[i] == events[i + 1])
  {
    if events[0] != e {
      var tail := events[1..];
      RemoveOneShifts(tail, e);
      assert RemoveOne(events, e) == [events[0]] + RemoveOne(tail, e);
    }
  }

  /** The selection after `selectMapEvent(event, toggle)`. */
  function SelectionAfter(selected: seq<EventRef>, event: Option<EventRef>, toggle: bool): seq<EventRef>
  {
    match event
    case None => selected
    case Some(e) =>
      if !toggle then [e]
      else if e !in selected then selected + [e]
      else if |selected| > 1 then RemoveOne(selected, e)
      else selected
  }

  /** A selection without repeats keeps none, and a non-empty selection
      never becomes empty. */
  lemma SelectionStaysValid(selected: seq<EventRef>, event: Option<EventRef>, toggle: bool)
    requires NoDuplicates(selected)
    ensures NoDuplicates(SelectionAfter(selected, event, toggle))
    ensures event.None? ==> SelectionAfter(selected, event, toggle) == selected
    ensures |selected| > 0 ==> |SelectionAfter(selected, event, toggle)| > 0
  {
    if event.Some? && toggle && event.value in selected && |selected| > 1 {
      RemoveOneNoDuplicates(selected, event.value);
    }
  }

  /** The selected event is in the new selection unless it was toggled out
      of a selection of several; every other event keeps its membership
      under a toggle and is dropped otherwise. */
  lemma SelectionMembership(selected: seq<EventRef>, e: EventRef, toggle: bool)
    requires NoDuplicates(selected)
    ensures var after := SelectionAfter(selected, Some(e), toggle);
      && (e in after <==> !(toggle && e in selected && |selected| > 1))
      && (forall x: EventRef :: x != e ==> (x in after <==> toggle && x in selected))
  {
    if toggle && e in selected && |selected| > 1 {
      var after := RemoveOne(selected, e);
      var remaining: multiset<EventRef> := multiset(after);
      MultiplicityOne(selected, e);
      assert remaining[e] == 0;
      forall x: EventRef | x != e
        ensures x in after <==> x in selected
      {
        assert remaining[x] == multiset(selected)[x];
      }
    }
  }

  lemma {:induction false} RemoveOneNoDuplicates(events: seq<EventRef>, e: EventRef)
    requires NoDuplicates(events)
    ensures NoDuplicates(RemoveOne(events, e))
  {
    if events != [] && events[0] != e {
      var tail := events[1..];
      RemoveOneNoDuplicates(tail, e);
      var rest := RemoveOne(tail, e);
      var r := [events[0]] + rest;
      forall i, j | 0 <= i < j < |r|
        ensures r[i] != r[j]
      {
        assert r[j] == rest[j - 1];
        if i > 0 {
          assert r[i] == rest[i - 1];
        } else {
          RemoveOneKeeps(tail, e, rest[j - 1]);
        }
      }
    }
  }

  lemma {:induction false} RemoveOneKeeps(events: seq<EventRef>, e: EventRef, x: EventRef)
    requires x in RemoveOne(events, e)
    ensures x in events
  {
    if events != [] && events[0] != e && x != events[0] {
      RemoveOneKeeps(events[1..], e, x);
    }
  }

  lemma {:induction false} MultiplicityOne(events: seq<EventRef>, e: EventRef)
    requires NoDuplicates(events) && e in events
    ensures multiset(events)[e] == 1
  {
    assert events == [events[0]] + events[1..];
    if events[0] == e {
      assert e !in events[1..];
    } else {
      MultiplicityOne(events[1..], e);
    }
  }

  /** How many of `groups` are `g`. */
  function CountOf<G(==)>(groups: seq<G>, g: G): nat
  {
    multiset(groups)[g]
  }

  /** Every group that gets a new event has room for all of its new events. */
  predicate WithinCapacity<G(==)>(newGroups: seq<G>, numEvents: G -> nat, maxEvents: G -> int)
  {
    forall g :: g in newGroups ==> numEvents(g) + CountOf(newGroups, g) <= maxEvents(g)
  }

  /** Dropping some of the new events never turns an addition that fits into
      one that does not. */
  lemma WithinCapacityOfPrefix<G>(newGroups: seq<G>, n: nat, numEvents: G -> nat, maxEvents: G -> int)
    requires n <= |newGroups| && WithinCapacity(newGroups, numEvents, maxEvents)
    ensures WithinCapacity(newGroups[..n], numEvents, maxEvents)
  {
    assert newGroups == newGroups[..n] + newGroups[n..];
    forall g | g in newGroups[..n]
      ensures numEvents(g) + CountOf(newGroups[..n], g) <= maxEvents(g)
    {
      assert g in newGroups;
    }
  }

  /** The editor's state that the modelled operations use. */
  class Editor {
    /** Index into `zoomLevels` of the map view's zoom. */
    var scaleIndex: int
    /** The selected events, in selection order. */
    var selectedEvents: seq<EventRef>
    /** Whether a project and a map are open. */
    var projectOpen: bool
    var mapOpen: bool

    ghost predicate Valid()
      reads this
    {
      0 <= scaleIndex < ZOOM_LEVEL_COUNT && NoDuplicates(selectedEvents)
    }

    constructor (projectOpen: bool, mapOpen: bool)
      ensures Valid()
      ensures scaleIndex == 2 && selectedEvents == []
      ensures this.projectOpen == projectOpen && this.mapOpen == mapOpen
    {
      scaleIndex := 2;
      selectedEvents := [];
      this.projectOpen := projectOpen;
      this.mapOpen := mapOpen;
    }

    /** `Editor::scaleMapView`, the index update only: moves `s` zoom levels,
      clamped to the valid levels. */
    method ScaleMapView(s: int)
      requires Valid()
      modifies this
      ensures Valid()
      ensures scaleIndex == ClampScaleIndex(old(scaleIndex) + s)
      ensures selectedEvents == old(selectedEvents)
      ensures projectOpen == old(projectOpen) && mapOpen == old(mapOpen)
    {
      var nextScaleIndex := scaleIndex + s;
      if nextScaleIndex < 0 {
        nextScaleIndex := 0;
      }
      if nextScaleIndex >= ZOOM_LEVEL_COUNT {
        nextScaleIndex := ZOOM_LEVEL_COUNT - 1;
      }
      if nextScaleIndex == scaleIndex {
        return;
      }
      scaleIndex := nextScaleIndex;
    }

    /** `Editor::selectMapEvent`: `None` is a null event. */
    method SelectMapEvent(event: Option<EventRef>, toggle: bool)
      requires Valid()
      modifies this
      ensures Valid()
      ensures selectedEvents == SelectionAfter(old(selectedEvents), event, toggle)
      ensures scaleIndex == old(scaleIndex)
      ensures projectOpen == old(projectOpen) && mapOpen == old(mapOpen)
    {
      SelectionStaysValid(selectedEvents, event, toggle);
      if event.None? {
        return;
      }
      var e := event.value;
      if !toggle {
        selectedEvents := [];
        selectedEvents := selectedEvents + [e];
      } else if e !in selectedEvents {
        selectedEvents := selectedEvents + [e];
      } else if |selectedEvents| > 1 {
        selectedEvents := RemoveOne(selectedEvents, e);
      } else {
        return;
      }
    }

    /** `Editor::canAddEvents`, for new events given by their groups: the
      map's event count and the project's limit per group are parameters. */
    method CanAddEvents<G(==)>(newGroups: seq<G>, numEvents: G -> nat, maxEvents: G -> int) returns (ok: bool)
      ensures ok <==> projectOpen && mapOpen && WithinCapacity(newGroups, numEvents, maxEvents)
    {
      if !projectOpen || !mapOpen {
        return false;
      }
      var newEventCounts: map<G, nat> := map[];
      var i := 0;
      while i < |newGroups|
        invariant i <= |newGroups|
        invariant forall g :: CountIn(newEventCounts, g) == CountOf(newGroups[..i], g)
        invariant WithinCapacity(newGroups[..i], numEvents, maxEvents)
      {
        var group := newGroups[i];
        var maxEventsOfGroup := maxEvents(group);
        var count := CountIn(newEventCounts, group);
        ghost var countsBefore := newEventCounts;
        newEventCounts := newEventCounts[group := count + 1];
        assert newGroups[..i + 1] == newGroups[..i] + [group];
        assert multiset(newGroups[..i + 1]) == multiset(newGroups[..i]) + multiset{group};
        if numEvents(group) + count >= maxEventsOfGroup {
          NotWithinCapacity(newGroups, i + 1, group, numEvents, maxEvents);
          return false;
        }
        forall g
          ensures CountIn(newEventCounts, g) == CountOf(newGroups[..i + 1], g)
        {
          assert CountIn(countsBefore, g) == CountOf(newGroups[..i], g);
        }
        forall g | g in newGroups[..i + 1]
          ensures numEvents(g) + CountOf(newGroups[..i + 1], g) <= maxEvents(g)
        {
          if g != group {
            assert g in newGroups[..i];
          }
        }
        i := i + 1;
      }
      assert newGroups[..i] == newGroups;
      return true;
    }
  }

  /** A counter map's count for `g`, 0 when it has no entry (`QMap::operator[]`). */
  function CountIn<G(==)>(counts: map<G, nat>, g: G): nat
  {
    if g in counts then counts[g] else 0
  }

  lemma NotWithinCapacity<G>(newGroups: seq<G>, n: nat, g: G, numEvents: G -> nat, maxEvents: G -> int)
    requires n <= |newGroups| && g in newGroups[..n]
    requires numEvents(g) + CountOf(newGroups[..n], g) > maxEvents(g)
    ensures !WithinCapacity(newGroups, numEvents, maxEvents)
  {
    assert newGroups == newGroups[..n] + newGroups[n..];
    assert CountOf(newGroups, g) >= CountOf(newGroups[..n], g);
  }
}
