/**
 * The calendar feed (views/default/components/calendar/feed.php): the month
 * window, clipped to now for "upcoming" feeds; every calendar's instances
 * for that window, concatenated; duplicates of one event occurrence removed;
 * the rest sorted by start time and cut to the limit.
 *
 * The month arithmetic, the timezone offset and the instance expansion of each
 * calendar are inputs (functions the caller supplies).
 */
module Feed {
  import opened Wrappers

  /** One occurrence of an event as a calendar lists it. `url` may name the calendar it came from. */
  datatype Instance = Instance(guid: int, start: int, end: int, url: string)

  /** Two instances are the same occurrence when event guid and start time agree. */
  datatype Key = Key(guid: int, start: int)

  function KeyOf(x: Instance): Key
  {
    Key(x.guid, x.start)
  }

  /** The window the instances are asked for. */
  datatype Window = Window(start: int, end: int)

  /** What the view renders: nothing at all, the "no results" text, or the feed. */
  datatype Output = Nothing | NoResults | Events(events: seq<Instance>)

  // ---------------------------------------------------------------- window

  /**
   * The window for the month [start, end]. With `upcoming`, a month that has
   * begun starts at `now` instead, and a month that is over has no window.
   */
  function ClipWindow(start: int, end: int, now: int, upcoming: bool): (w: Option<Window>)
    ensures w.None? <==> upcoming && start < now && end < now
    ensures w.Some? ==> w.value.end == end && start <= w.value.start
    ensures w.Some? ==> w.value.start == start || w.value.start == now
    ensures w.Some? && upcoming ==> now <= w.value.start
    ensures !(start < now && upcoming) ==> w == Some(Window(start, end))
  {
    if start < now && upcoming then
      if end >= now then Some(Window(now, end)) else None
    else Some(Window(start, end))
  }

  // ----------------------------------------------------------------- merge

  /** The instances of `calendars` for [lo, hi], calendar after calendar. */
  function Gathered(calendars: seq<int>, instancesOf: (int, int, int) -> seq<Instance>, lo: int, hi: int)
    : seq<Instance>
    decreases |calendars|
  {
    if calendars == [] then []
    else Gathered(calendars[..|calendars| - 1], instancesOf, lo, hi)
         + instancesOf(calendars[|calendars| - 1], lo, hi)
  }

  /** The merge loop: array_merge of each calendar's instances onto what came before. */
  method Merge(calendars: seq<int>, instancesOf: (int, int, int) -> seq<Instance>, lo: int, hi: int)
    returns (events: seq<Instance>)
    ensures events == Gathered(calendars, instancesOf, lo, hi)
  {
    events := [];
    for i := 0 to |calendars|
      invariant events == Gathered(calendars[..i], instancesOf, lo, hi)
    {
      assert calendars[..i + 1][..i] == calendars[..i];
      var cevents := instancesOf(calendars[i], lo, hi);
      events := events + cevents;
    }
    assert calendars[..|calendars|] == calendars;
  }

  /** The merged list is the concatenation, in calendar order, of each calendar's instances. */
  lemma {:induction false} GatheredAppend(c1: seq<int>, c2: seq<int>, instancesOf: (int, int, int) -> seq<Instance>,
                                          lo: int, hi: int)
    ensures Gathered(c1 + c2, instancesOf, lo, hi)
         == Gathered(c1, instancesOf, lo, hi) + Gathered(c2, instancesOf, lo, hi)
    decreases |c2|
  {
    if c2 == [] {
      assert c1 + c2 == c1;
    } else {
      var c2p := c2[..|c2| - 1];
      GatheredAppend(c1, c2p, instancesOf, lo, hi);
      assert (c1 + c2)[..|c1 + c2| - 1] == c1 + c2p;
    }
  }

  // ----------------------------------------------------------------- dedup

  /** The keys of a list, in order. */
  function KeysOf(s: seq<Instance>): seq<Key>
    decreases |s|
  {
    if s == [] then [] else KeysOf(s[..|s| - 1]) + [KeyOf(s[|s| - 1])]
  }

  /** Keep each instance whose key has not been seen earlier in the list. */
  function Dedup(s: seq<Instance>): seq<Instance>
    decreases |s|
  {
    if s == [] then []
    else
      var prefix := s[..|s| - 1];
      Dedup(prefix) + (if KeyOf(s[|s| - 1]) in KeysOf(prefix) then [] else [s[|s| - 1]])
  }

  predicate NoDuplicateKeys(s: seq<Instance>)
  {
    forall i, j :: 0 <= i < j < |s| ==> KeyOf(s[i]) != KeyOf(s[j])
  }

  lemma {:induction false} KeysOfAt(s: seq<Instance>)
    ensures |KeysOf(s)| == |s|
    ensures forall k :: 0 <= k < |s| ==> KeysOf(s)[k] == KeyOf(s[k])
    decreases |s|
  {
    if s != [] {
      KeysOfAt(s[..|s| - 1]);
    }
  }

  /** Deduplication keeps every key of its input, and no other. */
  lemma {:induction false} DedupKeepsKeys(s: seq<Instance>)
    ensures forall k :: k in KeysOf(Dedup(s)) <==> k in KeysOf(s)
    decreases |s|
  {
    if s != [] {
      var prefix := s[..|s| - 1];
      var x := s[|s| - 1];
      DedupKeepsKeys(prefix);
      var tail := if KeyOf(x) in KeysOf(prefix) then [] else [x];
      KeysAppend(Dedup(prefix), tail);
      assert KeysOf(tail) == if tail == [] then [] else [KeyOf(x)] by {
        if tail != [] {
          assert tail[..0] == [];
        }
      }
    }
  }

  lemma {:induction false} KeysAppend(a: seq<Instance>, b: seq<Instance>)
    ensures KeysOf(a + b) == KeysOf(a) + KeysOf(b)
    decreases |b|
  {
    if b == [] {
      assert a + b == a;
    } else {
      var bp := b[..|b| - 1];
      KeysAppend(a, bp);
      assert (a + b)[..|a + b| - 1] == a + bp;
    }
  }

  /** After deduplication no two instances share a key. */
  lemma {:induction false} DedupNoDuplicateKeys(s: seq<Instance>)
    ensures NoDuplicateKeys(Dedup(s))
    decreases |s|
  {
    if s != [] {
      var prefix := s[..|s| - 1];
      var x := s[|s| - 1];
      var before := Dedup(prefix);
      DedupNoDuplicateKeys(prefix);
      if KeyOf(x) !in KeysOf(prefix) {
        DedupKeepsKeys(prefix);
        KeysOfAt(before);
        var d := Dedup(s);
        assert d == before + [x];
        forall i, j | 0 <= i < j < |d|
          ensures KeyOf(d[i]) != KeyOf(d[j])
        {
          assert d[i] == before[i];
          if j < |before| {
            assert d[j] == before[j];
          } else {
            assert KeysOf(before)[i] == KeyOf(before[i]);
          }
        }
      } else {
        assert Dedup(s) == before;
      }
    }
  }

  /**
   * The survivor for each key is the first instance with that key: every kept
   * instance sits at a position of the input where its key has not occurred before.
   */
  lemma {:induction false} DedupKeepsFirst(s: seq<Instance>, k: int)
    requires 0 <= k < |Dedup(s)|
    ensures exists j :: 0 <= j < |s| && Dedup(s)[k] == s[j] && KeyOf(s[j]) !in KeysOf(s[..j])
    decreases |s|
  {
    var prefix := s[..|s| - 1];
    var before := Dedup(prefix);
    if k < |before| {
      DedupKeepsFirst(prefix, k);
      var j :| 0 <= j < |prefix| && before[k] == prefix[j] && KeyOf(prefix[j]) !in KeysOf(prefix[..j]);
      assert prefix[..j] == s[..j];
      assert Dedup(s)[k] == s[j];
    } else {
      assert Dedup(s)[k] == s[|s| - 1];
      assert s[..|s| - 1] == prefix;
    }
  }

  /** Deduplication only drops instances. */
  lemma {:induction false} DedupSubMultiset(s: seq<Instance>)
    ensures multiset(Dedup(s)) <= multiset(s)
    decreases |s|
  {
    if s != [] {
      var prefix := s[..|s| - 1];
      DedupSubMultiset(prefix);
      assert s == prefix + [s[|s| - 1]];
    }
  }

  /** The dedup loop: `dupes` holds the keys kept so far; a repeated key is unset. */
  method RemoveDuplicates(events: seq<Instance>) returns (kept: seq<Instance>)
    ensures kept == Dedup(events)
  {
    kept := [];
    var dupes: seq<Key> := [];
    for i := 0 to |events|
      invariant kept == Dedup(events[..i])
      invariant dupes == KeysOf(kept)
    {
      var instance := events[i];
      var test := KeyOf(instance);
      assert events[..i + 1][..i] == events[..i];
      DedupKeepsKeys(events[..i]);
      if test in dupes {
        continue;
      }
      KeysAppend(kept, [instance]);
      kept := kept + [instance];
      dupes := dupes + [test];
    }
    assert events[..|events|] == events;
  }

  // ------------------------------------------------------------------ sort

  predicate SortedByStart(s: seq<Instance>)
  {
    forall i, j :: 0 <= i < j < |s| ==> s[i].start <= s[j].start
  }

  /** Sorting in place, ascending by start time; the order of equal start times is not promised. */
  method SortByStart(a: array<Instance>)
    modifies a
    ensures SortedByStart(a[..])
    ensures multiset(a[..]) == multiset(old(a[..]))
  {
    var i := 0;
    while i < a.Length
      invariant 0 <= i <= a.Length
      invariant SortedByStart(a[..i])
      invariant multiset(a[..]) == multiset(old(a[..]))
    {
      InsertLeft(a, i);
      i := i + 1;
    }
    assert a[..a.Length] == a[..];
  }

  /** One insertion step: moves a[i] left past every larger start time. */
  method InsertLeft(a: array<Instance>, i: int)
    requires 0 <= i < a.Length
    requires SortedByStart(a[..i])
    modifies a
    ensures SortedByStart(a[..i + 1])
    ensures multiset(a[..]) == multiset(old(a[..]))
  {
    var j := i;
    InsertionStart(a[..], i);
    while j > 0 && a[j - 1].start > a[j].start
      invariant 0 <= j <= i
      invariant multiset(a[..]) == multiset(old(a[..]))
      invariant SortedAroundHole(a[..], i, j)
    {
      ghost var before := a[..];
      a[j - 1], a[j] := a[j], a[j - 1];
      assert a[..] == before[j - 1 := before[j]][j := before[j - 1]];
      InsertionSwap(before, i, j);
      SwapPermutes(before, j);
      j := j - 1;
    }
    InsertionDone(a[..], i, j);
  }

  /**
   * The inner loop's invariant: within s[..i + 1] every pair is in order except
   * those ending at the hole j, and s[j] is no later than anything after it.
   */
  predicate SortedAroundHole(s: seq<Instance>, i: int, j: int)
    requires 0 <= j <= i < |s|
  {
    && (forall p, q :: 0 <= p < q <= i && q != j ==> s[p].start <= s[q].start)
    && (forall q :: j < q <= i ==> s[j].start <= s[q].start)
  }

  lemma InsertionStart(s: seq<Instance>, i: int)
    requires 0 <= i < |s| && SortedByStart(s[..i])
    ensures SortedAroundHole(s, i, i)
  {
    forall p, q | 0 <= p < q <= i && q != i
      ensures s[p].start <= s[q].start
    {
      assert s[..i][p] == s[p] && s[..i][q] == s[q];
    }
  }

  lemma InsertionSwap(s: seq<Instance>, i: int, j: int)
    requires 0 < j <= i < |s| && SortedAroundHole(s, i, j) && s[j - 1].start > s[j].start
    ensures SortedAroundHole(s[j - 1 := s[j]][j := s[j - 1]], i, j - 1)
  {
    var t := s[j - 1 := s[j]][j := s[j - 1]];
    forall p, q | 0 <= p < q <= i && q != j - 1
      ensures t[p].start <= t[q].start
    {
      if p == j - 1 {
        assert t[p] == s[j];
      } else if p == j {
        assert t[p] == s[j - 1] && t[q] == s[q];
      } else if q == j {
        assert t[p] == s[p] && t[q] == s[j - 1];
      } else {
        assert t[p] == s[p] && t[q] == s[q];
      }
    }
  }

  lemma SwapPermutes(s: seq<Instance>, j: int)
    requires 0 < j < |s|
    ensures multiset(s[j - 1 := s[j]][j := s[j - 1]]) == multiset(s)
  {
  }

  lemma InsertionDone(s: seq<Instance>, i: int, j: int)
    requires 0 <= j <= i < |s| && SortedAroundHole(s, i, j)
    requires j == 0 || s[j - 1].start <= s[j].start
    ensures SortedByStart(s[..i + 1])
  {
    var t := s[..i + 1];
    forall p, q | 0 <= p < q < |t|
      ensures t[p].start <= t[q].start
    {
      if q == j && 0 < j && p < j - 1 {
        assert s[p].start <= s[j - 1].start;
      }
    }
  }

  // ----------------------------------------------------------------- limit

  /** A non-zero limit keeps that many instances from the front; zero means no limit. */
  function Limit(s: seq<Instance>, limit: nat): (r: seq<Instance>)
    ensures r <= s
    ensures limit != 0 ==> |r| <= limit
    ensures limit == 0 || |s| <= limit ==> r == s
    ensures limit != 0 && |s| > limit ==> |r| == limit
  {
    if limit != 0 && |s| > limit then s[..limit] else s
  }

  // ------------------------------------------------------------- the view

  /** `s` is `t` sorted by start time. */
  predicate SortedPermutationOf(s: seq<Instance>, t: seq<Instance>)
  {
    SortedByStart(s) && multiset(s) == multiset(t)
  }

  /** The window moved into the client's timezone; `offset` is the zone's offset from UTC at an instant. */
  function ToLocal(w: Window, offset: int -> int): Window
  {
    Window(w.start - offset(w.start), w.end - offset(w.end))
  }

  /** The instances left once the local window is known: merged and deduplicated. */
  function Deduplicated(calendars: seq<int>, instancesOf: (int, int, int) -> seq<Instance>, local: Window)
    : seq<Instance>
  {
    Dedup(Gathered(calendars, instancesOf, local.start, local.end))
  }

  /** The window the view asks for, from the requested time and the month helpers. */
  function RequestedWindow(startTime: Option<int>, upcoming: Option<bool>, now: int,
                           monthStart: int -> int, monthEnd: int -> int): Option<Window>
  {
    var start := monthStart(startTime.GetOr(now));
    ClipWindow(start, monthEnd(start), now, upcoming.GetOr(true))
  }

  /**
   * `shown` is `ev` sorted by start time and cut to `limit`; it is empty
   * exactly when `ev` is.
   */
  ghost predicate LimitedView(shown: seq<Instance>, ev: seq<Instance>, limit: nat)
  {
    && (shown == [] <==> ev == [])
    && exists s :: SortedPermutationOf(s, ev) && shown == Limit(s, limit)
  }

  /**
   * Lines 30-58 of the view: merge the calendars' instances for the local window,
   * drop repeated occurrences, sort by start time and apply the limit.
   */
  method Aggregate(calendars: seq<int>, instancesOf: (int, int, int) -> seq<Instance>, local: Window,
                   limit: nat)
    returns (shown: seq<Instance>)
    ensures LimitedView(shown, Deduplicated(calendars, instancesOf, local), limit)
  {
    var events := Merge(calendars, instancesOf, local.start, local.end);
    var kept := RemoveDuplicates(events);
    shown := SortAndLimit(kept, limit);
  }

  /** Lines 51-58 of the view: sort the events in place, then keep the first `limit`. */
  method SortAndLimit(events: seq<Instance>, limit: nat) returns (shown: seq<Instance>)
    ensures LimitedView(shown, events, limit)
  {
    var a := new Instance[|events|](k requires 0 <= k < |events| => events[k]);
    assert a[..] == events;
    SortByStart(a);
    var sorted := a[..];

    shown := sorted;
    if limit != 0 && |shown| > limit {
      shown := shown[..limit];
    }
    LimitOfSorted(sorted, events, limit);
  }

  lemma LimitOfSorted(sorted: seq<Instance>, events: seq<Instance>, limit: nat)
    requires SortedPermutationOf(sorted, events)
    ensures LimitedView(Limit(sorted, limit), events, limit)
  {
    assert |sorted| == |events| by {
      assert |multiset(sorted)| == |multiset(events)|;
    }
  }

  /**
   * The whole view. `monthStart`, `monthEnd` and `offset` stand for the month
   * and timezone helpers, `instancesOf(c, lo, hi)` for calendar c's instances
   * in [lo, hi]; absent options take the view's defaults (now, upcoming on,
   * the site's default limit).
   */
  method CalendarFeed(calendars: seq<int>, instancesOf: (int, int, int) -> seq<Instance>,
                      monthStart: int -> int, monthEnd: int -> int, offset: int -> int,
                      startTime: Option<int>, upcoming: Option<bool>, limit: Option<nat>,
                      defaultLimit: nat, now: int)
    returns (out: Output)
    ensures calendars == [] <==> out == Nothing
    ensures var w := RequestedWindow(startTime, upcoming, now, monthStart, monthEnd);
            calendars != [] && w.None? ==> out == NoResults
    ensures var w := RequestedWindow(startTime, upcoming, now, monthStart, monthEnd);
            calendars != [] && w.Some? ==>
              var ev := Deduplicated(calendars, instancesOf, ToLocal(w.value, offset));
              && (out == NoResults <==> ev == [])
              && (out.Events? ==> LimitedView(out.events, ev, limit.GetOr(defaultLimit)))
  {
    if calendars == [] {
      return Nothing;
    }
    var start := monthStart(startTime.GetOr(now));
    var end := monthEnd(start);
    var window := ClipWindow(start, end, now, upcoming.GetOr(true));
    if window.None? {
      // the month is over and only upcoming instances are wanted
      return NoResults;
    }
    assert RequestedWindow(startTime, upcoming, now, monthStart, monthEnd) == window;
    var local := ToLocal(window.value, offset);
    var shown := Aggregate(calendars, instancesOf, local, limit.GetOr(defaultLimit));
    if shown == [] {
      return NoResults;
    }
    out := Events(shown);
  }

  // ---------------------------------------------------- about the output

  lemma {:induction false} NoDuplicateKeysCount(s: seq<Instance>, x: Instance)
    requires NoDuplicateKeys(s)
    ensures multiset(s)[x] <= 1
    decreases |s|
  {
    if s != [] {
      var prefix := s[..|s| - 1];
      assert NoDuplicateKeys(prefix) by {
        forall i, j | 0 <= i < j < |prefix|
          ensures KeyOf(prefix[i]) != KeyOf(prefix[j])
        {
          assert prefix[i] == s[i] && prefix[j] == s[j];
        }
      }
      NoDuplicateKeysCount(prefix, x);
      assert s == prefix + [s[|s| - 1]];
    }
  }

  lemma RepeatedCount(s: seq<Instance>, i: int, j: int)
    requires 0 <= i < j < |s| && s[i] == s[j]
    ensures multiset(s)[s[i]] >= 2
  {
    assert s == s[..j] + s[j..];
    assert s[i] in s[..j];
    assert s[j] in s[j..];
  }

  /** Reordering a list keeps its keys distinct. */
  lemma PermutationNoDuplicateKeys(s: seq<Instance>, t: seq<Instance>)
    requires NoDuplicateKeys(t) && multiset(s) == multiset(t)
    ensures NoDuplicateKeys(s)
  {
    forall i, j | 0 <= i < j < |s|
      ensures KeyOf(s[i]) != KeyOf(s[j])
    {
      if s[i] == s[j] {
        RepeatedCount(s, i, j);
        NoDuplicateKeysCount(t, s[i]);
      } else {
        assert s[i] in multiset(t) && s[j] in multiset(t);
        var p :| 0 <= p < |t| && t[p] == s[i];
        var q :| 0 <= q < |t| && t[q] == s[j];
        if p < q {
          assert KeyOf(t[p]) != KeyOf(t[q]);
        } else {
          assert KeyOf(t[q]) != KeyOf(t[p]);
        }
      }
    }
  }

  /**
   * What the feed shows: sorted by start time, one instance per occurrence,
   * at most `limit` of them when the limit is non-zero, each one taken from
   * the merged input.
   */
  lemma FeedShowsOccurrences(merged: seq<Instance>, s: seq<Instance>, limit: nat)
    requires SortedPermutationOf(s, Dedup(merged))
    ensures var shown := Limit(s, limit);
            && SortedByStart(shown)
            && NoDuplicateKeys(shown)
            && (limit != 0 ==> |shown| <= limit)
            && multiset(shown) <= multiset(merged)
  {
    assert NoDuplicateKeys(s) by {
      DedupNoDuplicateKeys(merged);
      PermutationNoDuplicateKeys(s, Dedup(merged));
    }
    assert multiset(s) <= multiset(merged) by {
      DedupSubMultiset(merged);
    }
    PrefixKeepsOrder(s, |Limit(s, limit)|);
  }

  /** A prefix of a sorted list without repeated keys is one too, and holds nothing new. */
  lemma PrefixKeepsOrder(s: seq<Instance>, n: int)
    requires SortedByStart(s) && NoDuplicateKeys(s) && 0 <= n <= |s|
    ensures SortedByStart(s[..n]) && NoDuplicateKeys(s[..n])
    ensures multiset(s[..n]) <= multiset(s)
  {
    assert s == s[..n] + s[n..];
    assert multiset(s) == multiset(s[..n]) + multiset(s[n..]);
  }

  /** When nothing is cut off, every occurrence of the merged input is shown. */
  lemma FeedShowsEveryKey(merged: seq<Instance>, s: seq<Instance>, limit: nat)
    requires SortedPermutationOf(s, Dedup(merged))
    requires limit == 0 || |Dedup(merged)| <= limit
    ensures forall k :: k in KeysOf(merged) ==> k in KeysOf(Limit(s, limit))
  {
    var ev := Dedup(merged);
    assert |s| == |ev| by {
      assert |multiset(s)| == |multiset(ev)|;
    }
    assert Limit(s, limit) == s;
    DedupKeepsKeys(merged);
    KeysOfAt(ev);
    KeysOfAt(s);
    forall k | k in KeysOf(merged)
      ensures k in KeysOf(s)
    {
      var i :| 0 <= i < |KeysOf(ev)| && KeysOf(ev)[i] == k;
      assert ev[i] in multiset(s);
      var p :| 0 <= p < |s| && s[p] == ev[i];
      assert KeysOf(s)[p] == k;
    }
  }
}
