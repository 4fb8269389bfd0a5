/**
 * Notification fan-out for one event (event_update_notify and
 * send_event_reminder in lib/functions.php).
 *
 * Both walk the calendars, contained by users, that reference the event, keep
 * a list of user guids already handled, and send each remaining eligible user
 * one notification. The entity store, the access check, the transport and the
 * message templates are inputs: the traversal returns the dispatches it would
 * hand to notify_user, in order.
 */
module Fanout {
  import opened Wrappers
  import NotificationPrefs

  /** A calendar that references the event, with the guid of the user containing it. */
  datatype Calendar = Calendar(guid: int, owner: int)

  /** Subject and message after templates and plugin-hook overrides. */
  datatype Content = Content(subject: string, message: string)

  /** One notify_user call. `attachEvent` is the `entity` parameter being passed. */
  datatype Dispatch = Dispatch(recipient: int, from: int, content: Content,
                               attachEvent: bool, methods: seq<string>)

  /** What the surrounding system tells a pass about users and the event. */
  datatype Env = Env(
    loggedIn: int,                       // guid of the logged-in user, 0 when none
    hasAccess: int -> bool,              // has_access_to_entity(event, user), without ignored access
    notifySelf: int -> bool,             // notify_self_should_notify, constantly false without that plugin
    userAttrs: int -> map<string, bool>, // each user's notification attributes
    handlers: seq<string>,               // the registered notification methods
    eventContainer: int)                 // the event's container (a user or a group)

  /** One pass: its notification type, its message builder and its `entity` parameter. */
  datatype Pass = Pass(env: Env, kind: string, compose: Calendar -> Content, attachEvent: int -> bool)

  /** The methods user `u` has on for this pass's notification type. */
  function Methods(p: Pass, u: int): seq<string>
  {
    NotificationPrefs.EnabledMethods(NotificationPrefs.User(u, p.env.userAttrs(u)), p.env.handlers, p.kind)
  }

  /**
   * A user is notified when they can see the event, are not the logged-in
   * user (unless notify-self is on for them) and have at least one method on.
   */
  predicate Eligible(p: Pass, u: int)
  {
    && p.env.hasAccess(u)
    && !(p.env.loggedIn == u && !p.env.notifySelf(u))
    && Methods(p, u) != []
  }

  /** The notification a user gets through calendar `c`. */
  function Notify(p: Pass, c: Calendar): Dispatch
  {
    Dispatch(c.owner, p.env.eventContainer, p.compose(c), p.attachEvent(c.owner), Methods(p, c.owner))
  }

  /** The owners of the calendars, in traversal order. */
  function Owners(cals: seq<Calendar>): seq<int>
    decreases |cals|
  {
    if cals == [] then [] else Owners(cals[..|cals| - 1]) + [cals[|cals| - 1].owner]
  }

  /** Each element of `s` once, where it first appears. */
  function FirstSeen(s: seq<int>): seq<int>
    decreases |s|
  {
    if s == [] then []
    else
      var prefix := s[..|s| - 1];
      FirstSeen(prefix) + (if s[|s| - 1] in prefix then [] else [s[|s| - 1]])
  }

  /** The dispatches of a pass over `cals`: one for a calendar whose owner is new and eligible. */
  function Dispatches(p: Pass, cals: seq<Calendar>): seq<Dispatch>
    decreases |cals|
  {
    if cals == [] then []
    else
      var prefix := cals[..|cals| - 1];
      var c := cals[|cals| - 1];
      Dispatches(p, prefix) + (if c.owner !in Owners(prefix) && Eligible(p, c.owner) then [Notify(p, c)] else [])
  }

  /** The users a list of dispatches goes to, in order. */
  function Recipients(ds: seq<Dispatch>): seq<int>
    decreases |ds|
  {
    if ds == [] then [] else Recipients(ds[..|ds| - 1]) + [ds[|ds| - 1].recipient]
  }

  lemma {:induction false} OwnersAt(cals: seq<Calendar>)
    ensures |Owners(cals)| == |cals|
    ensures forall k :: 0 <= k < |cals| ==> Owners(cals)[k] == cals[k].owner
    decreases |cals|
  {
    if cals != [] {
      OwnersAt(cals[..|cals| - 1]);
    }
  }

  lemma {:induction false} FirstSeenMembership(s: seq<int>)
    ensures forall x :: x in FirstSeen(s) <==> x in s
    decreases |s|
  {
    if s != [] {
      FirstSeenMembership(s[..|s| - 1]);
      assert s == s[..|s| - 1] + [s[|s| - 1]];
    }
  }

  /**
   * The shared traversal. `notified` ends up holding every calendar owner once,
   * including the users who were skipped.
   */
  method Traverse(p: Pass, calendars: seq<Calendar>) returns (sent: seq<Dispatch>, notified: seq<int>)
    ensures sent == Dispatches(p, calendars)
    ensures notified == FirstSeen(Owners(calendars))
  {
    sent, notified := [], [];
    for i := 0 to |calendars|
      invariant sent == Dispatches(p, calendars[..i])
      invariant notified == FirstSeen(Owners(calendars[..i]))
    {
      var c := calendars[i];
      var user := c.owner;
      assert calendars[..i + 1][..i] == calendars[..i];
      FirstSeenMembership(Owners(calendars[..i]));
      if user in notified {
        continue;
      }
      if !p.env.hasAccess(user) {
        // the user cannot see the event
        notified := notified + [user];
        continue;
      }
      if p.env.loggedIn == user && !p.env.notifySelf(user) {
        notified := notified + [user];
        continue;
      }
      var methods := NotificationPrefs.GetCalendarNotificationMethods(
        NotificationPrefs.User(user, p.env.userAttrs(user)), p.env.handlers, p.kind);
      if methods == [] {
        notified := notified + [user];
        continue;
      }
      sent := sent + [Dispatch(user, p.env.eventContainer, p.compose(c), p.attachEvent(user), methods)];
      notified := notified + [user];
    }
    assert calendars[..|calendars|] == calendars;
  }

  /** The pass event_update_notify runs: `entity` is passed when the user may comment. */
  function UpdatePass(env: Env, compose: Calendar -> Content, canComment: int -> bool): Pass
  {
    Pass(env, "eventupdate", compose, canComment)
  }

  /**
   * event_update_notify: nothing is sent when the guid does not resolve to an
   * event; otherwise the update pass runs over the calendars.
   */
  method EventUpdateNotify(isEvent: bool, env: Env, calendars: seq<Calendar>,
                           compose: Calendar -> Content, canComment: int -> bool)
    returns (found: bool, sent: seq<Dispatch>)
    ensures found == isEvent
    ensures !found ==> sent == []
    ensures found ==> sent == Dispatches(UpdatePass(env, compose, canComment), calendars)
  {
    if !isEvent {
      return false, [];
    }
    found := true;
    var notified;
    sent, notified := Traverse(UpdatePass(env, compose, canComment), calendars);
  }

  /** How far in the past, in seconds, a cron reminder's occurrence may start. */
  const ReminderGrace: int := 10 * 60

  /** The cron gate: an unforced reminder whose occurrence started too long ago is dropped. */
  predicate Lapsed(reminderTime: Option<int>, start: int, now: int)
  {
    reminderTime.None? && start < now - ReminderGrace
  }

  /** The pass send_event_reminder runs for the occurrence [start, end]: no `entity` is passed. */
  function ReminderPass(env: Env, compose: (Calendar, int, int) -> Content, start: int, end: int): Pass
  {
    Pass(env, "eventreminder", c => compose(c, start, end), _ => false)
  }

  /**
   * send_event_reminder. Without an explicit reminder time the current time is
   * used and the send is a routine (cron) one, which is abandoned before any
   * dispatch when the next occurrence starts more than ten minutes ago.
   * `nextOccurrence` and `endDelta` stand for the event's own schedule.
   */
  method SendEventReminder(env: Env, calendars: seq<Calendar>, reminderTime: Option<int>, now: int,
                           nextOccurrence: int -> int, endDelta: int,
                           compose: (Calendar, int, int) -> Content)
    returns (lapsed: bool, sent: seq<Dispatch>)
    ensures var start := nextOccurrence(reminderTime.GetOr(now));
            && (lapsed <==> Lapsed(reminderTime, start, now))
            && (lapsed ==> sent == [])
            && (!lapsed ==> sent == Dispatches(ReminderPass(env, compose, start, start + endDelta), calendars))
    ensures reminderTime.Some? ==> !lapsed
  {
    var forceSend := true;
    var at := 0;
    if reminderTime.None? {
      at := now;
      forceSend := false;
    } else {
      at := reminderTime.value;
    }
    var start := nextOccurrence(at);
    var end := start + endDelta;
    if !forceSend && start < now - ReminderGrace {
      return true, [];
    }
    lapsed := false;
    var notified;
    sent, notified := Traverse(ReminderPass(env, compose, start, end), calendars);
  }

  /** Every dispatch goes to the owner of some calendar of the pass. */
  lemma {:induction false} RecipientsAreOwners(p: Pass, cals: seq<Calendar>)
    ensures forall u :: u in Recipients(Dispatches(p, cals)) ==> u in Owners(cals)
    decreases |cals|
  {
    if cals != [] {
      var prefix := cals[..|cals| - 1];
      RecipientsAreOwners(p, prefix);
      RecipientsAppend(Dispatches(p, prefix),
        if cals[|cals| - 1].owner !in Owners(prefix) && Eligible(p, cals[|cals| - 1].owner)
        then [Notify(p, cals[|cals| - 1])] else []);
    }
  }

  lemma {:induction false} RecipientsAppend(a: seq<Dispatch>, b: seq<Dispatch>)
    ensures Recipients(a + b) == Recipients(a) + Recipients(b)
    decreases |b|
  {
    if b == [] {
      assert a + b == a;
    } else {
      var bp := b[..|b| - 1];
      RecipientsAppend(a, bp);
      assert (a + b)[..|a + b| - 1] == a + bp;
    }
  }

  lemma {:induction false} RecipientsAt(ds: seq<Dispatch>)
    ensures |Recipients(ds)| == |ds|
    ensures forall k :: 0 <= k < |ds| ==> Recipients(ds)[k] == ds[k].recipient
    decreases |ds|
  {
    if ds != [] {
      RecipientsAt(ds[..|ds| - 1]);
    }
  }

  /** No two dispatches go to the same user. */
  predicate DistinctRecipients(ds: seq<Dispatch>)
  {
    forall i, j :: 0 <= i < j < |ds| ==> ds[i].recipient != ds[j].recipient
  }

  /**
   * At most one notification per user and pass, however many of the user's
   * calendars reference the event.
   */
  lemma {:induction false} AtMostOncePerUser(p: Pass, cals: seq<Calendar>)
    ensures DistinctRecipients(Dispatches(p, cals))
    decreases |cals|
  {
    if cals != [] {
      var prefix := cals[..|cals| - 1];
      var c := cals[|cals| - 1];
      AtMostOncePerUser(p, prefix);
      RecipientsAreOwners(p, prefix);
      var before := Dispatches(p, prefix);
      RecipientsAt(before);
      if c.owner !in Owners(prefix) && Eligible(p, c.owner) {
        forall i | 0 <= i < |before|
          ensures before[i].recipient != c.owner
        {
          assert Recipients(before)[i] == before[i].recipient;
        }
        var ds := Dispatches(p, cals);
        assert ds == before + [Notify(p, c)];
        forall i, j | 0 <= i < j < |ds|
          ensures ds[i].recipient != ds[j].recipient
        {
          assert ds[i] == before[i];
          if j < |before| {
            assert ds[j] == before[j];
          } else {
            assert ds[j] == Notify(p, c);
          }
        }
      } else {
        assert Dispatches(p, cals) == before;
      }
    }
  }

  /**
   * A user receives a notification exactly when they own one of the
   * calendars and are eligible: users without access, the logged-in user
   * without notify-self, and users with no method on receive nothing.
   */
  lemma {:induction false} NotifiedIffEligibleOwner(p: Pass, cals: seq<Calendar>, u: int)
    ensures u in Recipients(Dispatches(p, cals)) <==> u in Owners(cals) && Eligible(p, u)
    decreases |cals|
  {
    if cals != [] {
      var prefix := cals[..|cals| - 1];
      var c := cals[|cals| - 1];
      NotifiedIffEligibleOwner(p, prefix, u);
      var tail := if c.owner !in Owners(prefix) && Eligible(p, c.owner) then [Notify(p, c)] else [];
      RecipientsAppend(Dispatches(p, prefix), tail);
      assert Recipients(tail) == if tail == [] then [] else [c.owner] by {
        if tail != [] {
          assert tail[..0] == [];
        }
      }
    }
  }

  /**
   * The notification a user gets is built from the first of their calendars
   * in traversal order and carries the methods they have on.
   */
  lemma {:induction false} DispatchFromFirstCalendar(p: Pass, cals: seq<Calendar>, k: int)
    requires 0 <= k < |Dispatches(p, cals)|
    ensures var d := Dispatches(p, cals)[k];
            && d.methods == Methods(p, d.recipient) && d.methods != []
            && exists j :: 0 <= j < |cals| && d == Notify(p, cals[j])
                           && cals[j].owner !in Owners(cals[..j])
    decreases |cals|
  {
    var prefix := cals[..|cals| - 1];
    var c := cals[|cals| - 1];
    var before := Dispatches(p, prefix);
    if k < |before| {
      DispatchFromFirstCalendar(p, prefix, k);
      var j :| 0 <= j < |prefix| && before[k] == Notify(p, prefix[j]) && prefix[j].owner !in Owners(prefix[..j]);
      assert prefix[..j] == cals[..j];
    } else {
      assert Dispatches(p, cals)[k] == Notify(p, c);
      assert cals[..|cals| - 1] == prefix;
    }
  }

  /** The list of handled users holds every calendar owner exactly once. */
  lemma {:induction false} NotifiedCoversOwners(cals: seq<Calendar>)
    ensures var n := FirstSeen(Owners(cals));
            && (forall u :: u in n <==> u in Owners(cals))
            && (forall i, j :: 0 <= i < j < |n| ==> n[i] != n[j])
  {
    FirstSeenMembership(Owners(cals));
    FirstSeenDistinct(Owners(cals));
  }

  lemma {:induction false} FirstSeenDistinct(s: seq<int>)
    ensures forall i, j :: 0 <= i < j < |FirstSeen(s)| ==> FirstSeen(s)[i] != FirstSeen(s)[j]
    decreases |s|
  {
    if s != [] {
      var prefix := s[..|s| - 1];
      FirstSeenDistinct(prefix);
      FirstSeenMembership(prefix);
    }
  }
}
