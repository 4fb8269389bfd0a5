# Events UI: deferred calls, notification fan-out, group auto-sync and the calendar feed

This project models, in Dafny, the core logic of the Events UI plugin for the
Elgg social platform:

- the deferred-function registry (`register_vroom_function`): a list of
  `(function name, arguments)` calls kept in the site configuration, with an
  optional run-once check;
- the per-user choice of notification methods (`get_calendar_notification_methods`)
  and the list of calendar notification types (`get_calendar_notifications`);
- the notification fan-out shared by `event_update_notify` and
  `send_event_reminder`: walk the users' calendars that reference an event, skip
  users already handled, users who cannot see the event, the logged-in user
  (unless notify-self is on) and users with no method on, and send every other
  user exactly one notification; the reminder path also has the cron staleness
  gate;
- group auto-sync (`autosync_group_event`): add a group's event to the public
  calendar of each member who has not opted out;
- the calendar feed view: the month window clipped to "now", the merge of
  every calendar's instances, removal of repeated occurrences, the sort by start
  time and the limit.

The entity store, access checks, the transport, templates and hooks are inputs.
Calendars passed to the fan-out are `(calendar guid, owner guid)` pairs. Users
are their guids, plus a function that gives each user's notification
attributes. A dispatch records what `notify_user` would receive. The
auto-sync's public calendars are a map from user guid to a set of event guids,
held by a class whose method adds one event. The registry is a class whose
field holds the stored configuration value.

Files: `wrappers.dfy` (Option), `vroom.dfy`, `notification_prefs.dfy`,
`fanout.dfy`, `autosync.dfy`, `feed.dfy`.

Two behaviours of the view shape the model:

- The view prints the same `events:widgets:noresults` text for a month that is
  over and for an empty result, so `Feed.Output` has one `NoResults` value for
  both.
- Which copy of a repeated occurrence survives depends on calendar order,
  because the copies can differ, for example in their URLs. So the model proves
  that the first copy in calendar order survives and does not claim that the
  result is independent of calendar order.

## Model

| member | source | states |
|---|---|---|
| `Vroom.FindRegistered` | lib/functions.php:94-101 | the run-once scan reports true exactly when an entry with the same function name and identical arguments exists |
| `Vroom.RegisterPresentKeepsList` | lib/functions.php:94-101 | with run-once set, registering a call already present leaves the list unchanged |
| `Vroom.RegisterAppendsOne` | lib/functions.php:104-106 | without run-once, or without an identical entry, exactly one entry `{function => args}` is appended at the end and earlier entries keep their place |
| `Vroom.RegisterTwice` | lib/functions.php:87-107 | registering the same call twice yields one copy with run-once (none added if it was there) and two more copies without |
| `Vroom.VroomConfig.Register` | lib/functions.php:87-107 | arguments default to none and run-once to on; a stored value that is not an array is read as an empty list; returns true and stores nothing when run-once finds a duplicate, else stores the list with the entry appended |
| `NotificationPrefs.GetCalendarNotificationMethods` | lib/functions.php:116-134 | the loop returns exactly the registered methods left on, in registration order; nothing for a non-user |
| `NotificationPrefs.EnabledMethodsMembership` | lib/functions.php:118-131 | a method is returned iff the entity is a user, the method is registered, and its `__notify_<method>_<name>` attribute is unset or truthy |
| `NotificationPrefs.EnabledMethodsAppend` | lib/functions.php:122-133 | filtering keeps registration order: the methods of concatenated handler lists are the concatenation of their methods |
| `NotificationPrefs.CalendarNotifications` | lib/functions.php:140-148 | the notification types are three: addtocal, eventupdate and eventreminder |
| `Fanout.Traverse` | lib/functions.php:203-281 | the calendar loop issues exactly the dispatches of the fan-out specification, and its handled-users list ends with every calendar owner once, in first-seen order |
| `Fanout.EventUpdateNotify` | lib/functions.php:157-284 | a guid that is not an event sends nothing; otherwise the eventupdate pass runs, with the event attached when the user may comment |
| `Fanout.SendEventReminder` | lib/functions.php:293-322 | without a reminder time (cron), the pass is abandoned with no dispatch when the next occurrence starts more than 600 s before now; with an explicit time it never is |
| `Fanout.AtMostOncePerUser` | lib/functions.php:203-209 | no two dispatches of a pass go to the same user, even when the user owns several calendars referencing the event |
| `Fanout.NotifiedIffEligibleOwner` | lib/functions.php:211-235 | a user is notified iff they own a referencing calendar, have access, are not the logged-in user without notify-self, and have a method on |
| `Fanout.DispatchFromFirstCalendar` | lib/functions.php:231-278 | each dispatch carries the user's non-empty enabled methods and is built from the first of that user's calendars in traversal order |
| `Fanout.NotifiedCoversOwners` | lib/functions.php:212-235 | users who are skipped are still added to the handled list: it holds every calendar owner, each once |
| `Autosync.AutosyncGroupEvent` | lib/functions.php:46-77 | returns false with no calendar touched when either guid is not an event or a group; otherwise the calendars become those of the member loop |
| `Autosync.CalendarDirectory.AddEvent` | lib/functions.php:71-72 | adding an event to a user's public calendar creates the calendar if needed and changes no other calendar |
| `Autosync.SyncedCalendars` | lib/functions.php:67-74 | after a sync every member without the `calendar_nosync` edge has the event added; opted-out members and non-members keep their calendars exactly |
| `Autosync.SyncIdempotent` | lib/functions.php:67-74 | running the same sync twice gives the same calendars as running it once |
| `Feed.ClipWindow` | views/default/components/calendar/feed.php:14-24 | with upcoming on, a started month starts at now and a month that is over yields no window; the window never starts before the month or, when upcoming, before now; with upcoming off or a month not yet begun, the window is the month unchanged |
| `Feed.Merge` | views/default/components/calendar/feed.php:30-34 | the merged list is the calendars' instances concatenated in calendar order |
| `Feed.GatheredAppend` | views/default/components/calendar/feed.php:30-34 | merging two runs of calendars gives the first run's instances followed by the second's |
| `Feed.RemoveDuplicates` | views/default/components/calendar/feed.php:39-49 | the dedup loop, with its list of seen keys, keeps exactly the instances whose (guid, start) key has not been seen before |
| `Feed.DedupKeepsKeys` | views/default/components/calendar/feed.php:39-49 | every key of the merged input is still present after deduplication, and no other |
| `Feed.DedupNoDuplicateKeys` | views/default/components/calendar/feed.php:39-49 | after deduplication no two instances share (guid, start_timestamp) |
| `Feed.DedupKeepsFirst` | views/default/components/calendar/feed.php:39-49 | each survivor is the first instance in concatenation order with its key |
| `Feed.DedupSubMultiset` | views/default/components/calendar/feed.php:43-45 | deduplication only removes instances |
| `Feed.SortByStart` | views/default/components/calendar/feed.php:52 | the in-place sort leaves the instances non-decreasing by start time and is a permutation |
| `Feed.Limit` | views/default/components/calendar/feed.php:55-58 | a non-zero limit smaller than the count keeps exactly the first `limit` instances; otherwise the list is unchanged; the result is always a prefix |
| `Feed.SortAndLimit` | views/default/components/calendar/feed.php:52-58 | the shown list is the events sorted by start and cut to the limit, and is empty exactly when the events are |
| `Feed.Aggregate` | views/default/components/calendar/feed.php:30-58 | merge, dedup, sort and limit together give a limited sorted view of the deduplicated merge |
| `Feed.CalendarFeed` | views/default/components/calendar/feed.php:5-67 | no calendars renders nothing; a past month with upcoming on, or an empty result, renders "no results"; otherwise the feed is the limited sorted view of the deduplicated instances of the (local) window |
| `Feed.FeedShowsOccurrences` | views/default/components/calendar/feed.php:39-58 | what the feed shows is sorted, has no repeated occurrence, has at most `limit` entries when the limit is non-zero, and comes from the merged input |
| `Feed.FeedShowsEveryKey` | views/default/components/calendar/feed.php:39-58 | when the limit cuts nothing off, every occurrence of the merged input is shown |

## Left out

- Draining the deferred-call list at shutdown: that code is not in `lib/functions.php` or the feed view, so it is not part of this model.
- `register_event_title_menu`: a thin pass of a plugin hook's result to menu registration, with no logic of its own.
- `views/default/widgets/events/header.php`: markup and inline script whose only decision sits on unseen month arithmetic.
- The occurrence engine and the time helpers (`getNextOccurrence`, `getAllEventInstances`, `getMonthStart`, `getMonthEnd`, `getOffset`, `getClientTimezone`): their source is not part of this model, so they are parameters. Timezone offsets and daylight saving are not modelled.
- `Fanout.SendEventReminder`: `getNextOccurrence` is taken to always return a timestamp. A "no further occurrence" return and PHP's loose comparison of it in the staleness gate are not modelled, because the method's source is not part of this model.
- Date formatting (`DateTime`, `strtotime`), `elgg_echo`, `elgg_view`, HTML links and the `subject:*`/`message:*` hook overrides: these are folded into one supplied message builder per pass (`compose`). In `event_update_notify`, `getNextOccurrence` is called but its result is unused, so it is left out.
- `notify_user`, `get_entity`, `has_access_to_entity`, `check_entity_relationship` and `ElggBatch` paging: a dispatch is recorded instead of sent, and entities, access and edges are inputs. Members and calendars are given as sequences in batch order.
- The ignore-access save/restore around each access check, and its leak on early returns: ambient framework state, not part of the decision logic.
- The `error_log` line in `send_event_reminder`: logging only.
- `Vroom.VroomConfig.Register`: an entry is always a single `function => args` pair. Stored entries with several pairs, and PHP's conversion of numeric-string array keys, are not modelled.
- `Feed.SortByStart`: the order among instances with equal start times is not stated. The Elgg helper uses `array_multisort`, which breaks ties by comparing whole rows. That tie order is not modelled.
- `Feed.CalendarFeed`: the limit is a natural number. A negative limit, for which `array_slice` would count from the end, and non-integer values are not modelled. The `(int)` casts are treated as identities.
