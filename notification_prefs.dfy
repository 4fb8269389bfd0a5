/**
 * Per-user delivery preferences for calendar notifications
 * (get_calendar_notification_methods and get_calendar_notifications in
 * lib/functions.php).
 */
module NotificationPrefs {

  /**
   * The entity whose preferences are asked for. A user carries its metadata
   * attributes: a key is absent when the attribute is unset (PHP `isset` is
   * false) and maps to the attribute's PHP truthiness otherwise.
   */
  datatype Entity = User(guid: int, attrs: map<string, bool>) | NonUser

  /** The attribute a user sets to switch `channel` off for notification `name`. */
  function AttrName(channel: string, name: string): string
  {
    "__notify_" + channel + "_" + name
  }

  /** A method is on unless its attribute is set to a falsy value. */
  predicate MethodEnabled(attrs: map<string, bool>, channel: string, name: string)
  {
    var key := AttrName(channel, name);
    key !in attrs || attrs[key]
  }

  /** The registered delivery methods left on for `name`, in registration order. */
  function EnabledMethods(user: Entity, handlers: seq<string>, name: string): seq<string>
    decreases |handlers|
  {
    if handlers == [] || user.NonUser? then []
    else
      var last := handlers[|handlers| - 1];
      EnabledMethods(user, handlers[..|handlers| - 1], name)
        + (if MethodEnabled(user.attrs, last, name) then [last] else [])
  }

  /** get_calendar_notification_methods: walks the registered handlers once. */
  method GetCalendarNotificationMethods(user: Entity, handlers: seq<string>, name: string)
    returns (methods: seq<string>)
    ensures methods == EnabledMethods(user, handlers, name)
  {
    if !user.User? {
      return [];
    }
    methods := [];
    for i := 0 to |handlers|
      invariant methods == EnabledMethods(user, handlers[..i], name)
    {
      var channel := handlers[i];
      assert handlers[..i + 1][..i] == handlers[..i];
      if MethodEnabled(user.attrs, channel, name) {
        methods := methods + [channel];
      }
    }
    assert handlers[..|handlers|] == handlers;
  }

  /**
   * A user receives through exactly the registered methods that are not
   * switched off for `name`; a non-user receives through none.
   */
  lemma {:induction false} EnabledMethodsMembership(user: Entity, handlers: seq<string>, name: string, m: string)
    ensures m in EnabledMethods(user, handlers, name)
        <==> user.User? && m in handlers && MethodEnabled(user.attrs, m, name)
    decreases |handlers|
  {
    if handlers != [] && user.User? {
      var prefix := handlers[..|handlers| - 1];
      EnabledMethodsMembership(user, prefix, name, m);
      assert handlers == prefix + [handlers[|handlers| - 1]];
    }
  }

  /**
   * Filtering keeps registration order: the methods of two runs of handlers
   * are the methods of the first run followed by those of the second.
   */
  lemma {:induction false} EnabledMethodsAppend(user: Entity, h1: seq<string>, h2: seq<string>, name: string)
    ensures EnabledMethods(user, h1 + h2, name)
         == EnabledMethods(user, h1, name) + EnabledMethods(user, h2, name)
    decreases |h2|
  {
    if h2 == [] {
      assert h1 + h2 == h1;
    } else if user.User? {
      var h2p := h2[..|h2| - 1];
      EnabledMethodsAppend(user, h1, h2p, name);
      assert (h1 + h2)[..|h1 + h2| - 1] == h1 + h2p;
      assert (h1 + h2)[|h1 + h2| - 1] == h2[|h2| - 1];
    }
  }

  /** get_calendar_notifications: the notification types a user can configure. */
  function CalendarNotifications(): (r: seq<string>)
    ensures |r| == 3
    ensures "addtocal" in r && "eventupdate" in r && "eventreminder" in r
  {
    ["addtocal", "eventupdate", "eventreminder"]
  }
}
