/**
 * Group auto-sync (autosync_group_event in lib/functions.php): a group's event
 * is added to the public calendar of every member who has not opted out.
 */
module Autosync {

  /** What a guid resolves to in the entity store. */
  datatype Kind = EventEntity | GroupEntity | UserEntity | OtherEntity

  /** A relationship edge `subject --relationship--> object`. */
  datatype Edge = Edge(subject: int, relationship: string, object: int)

  /** The relationship by which a member opts out of a group's events. */
  const NoSync: string := "calendar_nosync"

  /** Event guids on a user's public calendar; a user without one has none. */
  function CalendarOf(cals: map<int, set<int>>, u: int): set<int>
  {
    if u in cals then cals[u] else {}
  }

  predicate OptedOut(edges: set<Edge>, u: int, group: int)
  {
    Edge(u, NoSync, group) in edges
  }

  /** Both guids resolve to the right kind of entity. */
  predicate Resolves(entities: map<int, Kind>, eventGuid: int, groupGuid: int)
  {
    && eventGuid in entities && entities[eventGuid] == EventEntity
    && groupGuid in entities && entities[groupGuid] == GroupEntity
  }

  /** The public calendars after visiting `members` in order. */
  function Synced(cals: map<int, set<int>>, members: seq<int>, edges: set<Edge>, group: int, event: int)
    : map<int, set<int>>
    decreases |members|
  {
    if members == [] then cals
    else
      var before := Synced(cals, members[..|members| - 1], edges, group, event);
      var u := members[|members| - 1];
      if OptedOut(edges, u, group) then before
      else before[u := CalendarOf(before, u) + {event}]
  }

  /** The users' public calendars, created on first use. */
  class CalendarDirectory {
    var calendars: map<int, set<int>>

    constructor ()
      ensures calendars == map[]
    {
      calendars := map[];
    }

    /** Calendar::getPublicCalendar($u)->addEvent($event): a set never holds an event twice. */
    method AddEvent(u: int, event: int)
      modifies this
      ensures calendars == old(calendars)[u := CalendarOf(old(calendars), u) + {event}]
    {
      calendars := calendars[u := CalendarOf(calendars, u) + {event}];
    }
  }

  /**
   * autosync_group_event: false, with no calendar touched, when either guid
   * does not resolve; otherwise every member without the opt-out edge gets the
   * event on their public calendar.
   */
  method AutosyncGroupEvent(dir: CalendarDirectory, entities: map<int, Kind>, eventGuid: int, groupGuid: int,
                            members: seq<int>, edges: set<Edge>)
    returns (ok: bool)
    modifies dir
    ensures ok == Resolves(entities, eventGuid, groupGuid)
    ensures !ok ==> dir.calendars == old(dir.calendars)
    ensures ok ==> dir.calendars == Synced(old(dir.calendars), members, edges, groupGuid, eventGuid)
  {
    if !Resolves(entities, eventGuid, groupGuid) {
      return false;
    }
    ok := true;
    for i := 0 to |members|
      invariant dir.calendars == Synced(old(dir.calendars), members[..i], edges, groupGuid, eventGuid)
    {
      var u := members[i];
      assert members[..i + 1][..i] == members[..i];
      if !OptedOut(edges, u, groupGuid) {
        dir.AddEvent(u, eventGuid);
      }
    }
    assert members[..|members|] == members;
  }

  /**
   * After a sync, a member who has not opted out has the event on their
   * calendar besides what was there; every other calendar, and the absence
   * of one, is exactly as before.
   */
  lemma {:induction false} SyncedCalendars(cals: map<int, set<int>>, members: seq<int>, edges: set<Edge>,
                                            group: int, event: int, u: int)
    ensures var r := Synced(cals, members, edges, group, event);
            if u in members && !OptedOut(edges, u, group)
            then u in r && r[u] == CalendarOf(cals, u) + {event}
            else (u in r <==> u in cals) && (u in cals ==> r[u] == cals[u])
    decreases |members|
  {
    if members != [] {
      var prefix := members[..|members| - 1];
      SyncedCalendars(cals, prefix, edges, group, event, u);
      assert members == prefix + [members[|members| - 1]];
    }
  }

  /** Running the same sync twice adds nothing more: adding an event already present is a no-op. */
  lemma SyncIdempotent(cals: map<int, set<int>>, members: seq<int>, edges: set<Edge>, group: int, event: int)
    ensures var once := Synced(cals, members, edges, group, event);
            Synced(once, members, edges, group, event) == once
  {
    var once := Synced(cals, members, edges, group, event);
    var twice := Synced(once, members, edges, group, event);
    forall u | true
      ensures (u in twice <==> u in once) && (u in once ==> twice[u] == once[u])
    {
      SyncedCalendars(cals, members, edges, group, event, u);
      SyncedCalendars(once, members, edges, group, event, u);
    }
    assert twice.Keys == once.Keys;
  }
}
