/**
 * The list transforms the calendar applies to its event collection: `find`, `map` that
 * rewrites the events with one id, `filter` that drops them, and appending one event.
 */
module EventList {
  import opened Wrappers
  import opened EventTypes

  /** The ids of the events, in order. */
  function Ids(s: seq<CalendarEvent>): seq<EventId> {
    if s == [] then [] else [s[0].id] + Ids(s[1..])
  }

  /** No two events share an id. */
  predicate UniqueIds(s: seq<CalendarEvent>) {
    forall i, j :: 0 <= i < j < |s| ==> s[i].id != s[j].id
  }

  lemma {:induction false} IdsAt(s: seq<CalendarEvent>)
    ensures |Ids(s)| == |s|
    ensures forall i :: 0 <= i < |s| ==> Ids(s)[i] == s[i].id
  {
    if s != [] {
      IdsAt(s[1..]);
    }
  }

  /** An id is present exactly when some event carries it. */
  lemma IdsMember(s: seq<CalendarEvent>, id: EventId)
    ensures id in Ids(s) <==> exists i :: 0 <= i < |s| && s[i].id == id
  {
    IdsAt(s);
    if id in Ids(s) {
      var i :| 0 <= i < |Ids(s)| && Ids(s)[i] == id;
      assert s[i].id == id;
    }
  }

  lemma {:induction false} IdsAppend(s: seq<CalendarEvent>, e: CalendarEvent)
    ensures Ids(s + [e]) == Ids(s) + [e.id]
  {
    if s != [] {
      assert (s + [e])[1..] == s[1..] + [e];
      IdsAppend(s[1..], e);
    } else {
      assert s + [e] == [e];
    }
  }

  /** Appending an event whose id is not yet in use keeps the ids unique. */
  lemma AppendFreshKeepsUnique(s: seq<CalendarEvent>, e: CalendarEvent)
    requires UniqueIds(s) && e.id !in Ids(s)
    ensures UniqueIds(s + [e])
  {
    forall i | 0 <= i < |s|
      ensures (s + [e])[i].id != e.id
    {
      IdsMember(s, e.id);
    }
  }

  /** No event before position `k` carries `id`. */
  predicate FirstWith(s: seq<CalendarEvent>, id: EventId, k: int)
    requires 0 <= k <= |s|
  {
    forall j :: 0 <= j < k ==> s[j].id != id
  }

  /** `events.find(e => e.id === id)`: the first event carrying `id`, if any. */
  function Find(s: seq<CalendarEvent>, id: EventId): (r: Option<CalendarEvent>)
    ensures r.Some? <==> id in Ids(s)
    ensures r.Some? ==> r.value.id == id
    ensures r.Some? ==> exists k :: 0 <= k < |s| && s[k] == r.value && FirstWith(s, id, k)
  {
    if s == [] then None
    else if s[0].id == id then Some(s[0])
    else
      var r := Find(s[1..], id);
      assert r.Some? ==> exists k :: 0 <= k < |s| && s[k] == r.value && FirstWith(s, id, k) by {
        if r.Some? {
          var k :| 0 <= k < |s[1..]| && s[1..][k] == r.value && FirstWith(s[1..], id, k);
          assert s[k + 1] == r.value;
          forall j | 0 <= j < k + 1 ensures s[j].id != id {
            if j > 0 { assert s[j] == s[1..][j - 1]; }
          }
          assert FirstWith(s, id, k + 1);
        }
      }
      r
  }

  /** With unique ids, finding the id of the event at `k` yields that event. */
  lemma FindUnique(s: seq<CalendarEvent>, k: int)
    requires UniqueIds(s) && 0 <= k < |s|
    ensures Find(s, s[k].id) == Some(s[k])
  {
    IdsMember(s, s[k].id);
    var r := Find(s, s[k].id);
    var k' :| 0 <= k' < |s| && s[k'] == r.value && FirstWith(s, s[k].id, k');
    assert k' == k;
  }

  /**
   * `events.map(e => e.id === id ? f(e) : e)`: every event carrying `id` is rewritten by `f`,
   * every other event stays as it is, in place.
   */
  function MapById(s: seq<CalendarEvent>, id: EventId, f: CalendarEvent -> CalendarEvent)
    : (r: seq<CalendarEvent>)
    ensures |r| == |s|
    ensures forall i :: 0 <= i < |s| ==> r[i] == if s[i].id == id then f(s[i]) else s[i]
  {
    if s == [] then []
    else [if s[0].id == id then f(s[0]) else s[0]] + MapById(s[1..], id, f)
  }

  /** A rewrite that keeps ids leaves the ids of the collection, and their uniqueness, as they were. */
  lemma {:induction false} MapByIdKeepsIds(s: seq<CalendarEvent>, id: EventId, f: CalendarEvent -> CalendarEvent)
    requires forall e :: f(e).id == e.id
    ensures Ids(MapById(s, id, f)) == Ids(s)
    ensures UniqueIds(s) ==> UniqueIds(MapById(s, id, f))
  {
    if s != [] {
      MapByIdKeepsIds(s[1..], id, f);
      assert MapById(s, id, f)[1..] == MapById(s[1..], id, f);
    }
  }

  /** Rewriting an id nobody carries changes nothing. */
  lemma MapByIdAbsent(s: seq<CalendarEvent>, id: EventId, f: CalendarEvent -> CalendarEvent)
    requires id !in Ids(s)
    ensures MapById(s, id, f) == s
  {
    IdsMember(s, id);
  }

  /** `events.filter(e => e.id !== id)`: the events not carrying `id`, in their order. */
  function RemoveById(s: seq<CalendarEvent>, id: EventId): (r: seq<CalendarEvent>)
    ensures |r| <= |s|
  {
    if s == [] then []
    else if s[0].id == id then RemoveById(s[1..], id)
    else [s[0]] + RemoveById(s[1..], id)
  }

  /** The survivors are exactly the events that do not carry `id`. */
  lemma {:induction false} RemoveByIdMembers(s: seq<CalendarEvent>, id: EventId)
    ensures forall e :: e in RemoveById(s, id) <==> e in s && e.id != id
  {
    if s != [] {
      RemoveByIdMembers(s[1..], id);
      assert forall e :: e in s <==> e == s[0] || e in s[1..];
    }
  }

  /** After the removal no event carries `id`. */
  lemma RemoveByIdGone(s: seq<CalendarEvent>, id: EventId)
    ensures id !in Ids(RemoveById(s, id))
  {
    RemoveByIdMembers(s, id);
    IdsMember(RemoveById(s, id), id);
  }

  /** Filtering distributes over concatenation: the relative order of survivors is kept. */
  lemma {:induction false} RemoveByIdConcat(a: seq<CalendarEvent>, b: seq<CalendarEvent>, id: EventId)
    ensures RemoveById(a + b, id) == RemoveById(a, id) + RemoveById(b, id)
  {
    if a == [] {
      assert a + b == b;
    } else {
      assert (a + b)[0] == a[0];
      assert (a + b)[1..] == a[1..] + b;
      RemoveByIdConcat(a[1..], b, id);
    }
  }

  /** Removing an id nobody carries changes nothing. */
  lemma {:induction false} RemoveByIdAbsent(s: seq<CalendarEvent>, id: EventId)
    requires id !in Ids(s)
    ensures RemoveById(s, id) == s
  {
    if s != [] {
      assert Ids(s) == [s[0].id] + Ids(s[1..]);
      RemoveByIdAbsent(s[1..], id);
      assert s == [s[0]] + s[1..];
    }
  }

  /** With unique ids, the id at `k` is carried by no event before or after it. */
  lemma UniqueIdsSplit(s: seq<CalendarEvent>, k: int)
    requires UniqueIds(s) && 0 <= k < |s|
    ensures s[k].id !in Ids(s[..k]) && s[k].id !in Ids(s[k + 1..])
  {
    IdsMember(s[..k], s[k].id);
    IdsMember(s[k + 1..], s[k].id);
  }

  /** Unfolding the filter at a head that survives it. */
  lemma RemoveByIdKeepsHead(s: seq<CalendarEvent>, id: EventId)
    requires s != [] && s[0].id != id
    ensures RemoveById(s, id) == [s[0]] + RemoveById(s[1..], id)
  {
  }

  /** With unique ids, removing the id at `k` removes exactly position `k`. */
  lemma {:induction false} RemoveByIdAt(s: seq<CalendarEvent>, k: int)
    requires UniqueIds(s) && 0 <= k < |s|
    ensures RemoveById(s, s[k].id) == s[..k] + s[k + 1..]
    decreases k
  {
    var id := s[k].id;
    if k == 0 {
      UniqueIdsSplit(s, 0);
      RemoveByIdAbsent(s[1..], id);
    } else {
      var rest := s[1..];
      assert rest[k - 1] == s[k];
      RemoveByIdAt(rest, k - 1);
      RemoveByIdKeepsHead(s, id);
      calc {
        RemoveById(s, id);
        [s[0]] + RemoveById(rest, id);
        [s[0]] + (rest[..k - 1] + rest[k..]);
        { assert [s[0]] + rest[..k - 1] == s[..k]; assert rest[k..] == s[k + 1..]; }
        s[..k] + s[k + 1..];
      }
    }
  }

  /** Removal keeps ids unique. */
  lemma {:induction false} RemoveByIdKeepsUnique(s: seq<CalendarEvent>, id: EventId)
    requires UniqueIds(s)
    ensures UniqueIds(RemoveById(s, id))
  {
    if s != [] {
      RemoveByIdKeepsUnique(s[1..], id);
      RemoveByIdMembers(s[1..], id);
      if s[0].id != id {
        var rest := RemoveById(s[1..], id);
        forall j | 0 <= j < |rest| ensures rest[j].id != s[0].id {
          assert rest[j] in rest;
          var i :| 0 <= i < |s[1..]| && s[1..][i] == rest[j];
          assert s[i + 1] == rest[j];
        }
      }
    }
  }
}
