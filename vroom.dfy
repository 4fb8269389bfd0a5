/**
 * The deferred-function registry of lib/functions.php (register_vroom_function).
 *
 * The site configuration holds, under 'event_vroom_functions', a list of calls to
 * run after the request has been answered. Each entry is the PHP array
 * `array($function => $args)`: one function name with its argument list.
 */
module Vroom {

  /** An argument handed to a deferred function: a guid, a name or a flag. */
  datatype Arg = IntArg(i: int) | StrArg(s: string) | BoolArg(b: bool)

  /** One registered call. Two entries are identical (PHP `===`) when both parts are equal. */
  datatype Entry = Entry(name: string, args: seq<Arg>)

  /** What the configuration holds: a list of entries, or anything that is not an array. */
  datatype Stored = NotAList | List(entries: seq<Entry>)

  /** The list the registry works on: a stored value that is not an array reads as empty. */
  function AsList(s: Stored): seq<Entry>
  {
    match s
    case List(entries) => entries
    case NotAList => []
  }

  /** The list after registering `name` with `args`. */
  function AfterRegister(entries: seq<Entry>, name: string, args: seq<Arg>, runonce: bool): seq<Entry>
  {
    if runonce && Entry(name, args) in entries then entries
    else entries + [Entry(name, args)]
  }

  /** The run-once scan: does an identical entry already exist? */
  method FindRegistered(entries: seq<Entry>, name: string, args: seq<Arg>) returns (found: bool)
    ensures found <==> exists k :: 0 <= k < |entries| && entries[k] == Entry(name, args)
  {
    found := false;
    var i := 0;
    while i < |entries|
      invariant 0 <= i <= |entries|
      invariant !exists k :: 0 <= k < i && entries[k] == Entry(name, args)
    {
      var e := entries[i];
      if e.name == name && e.args == args {
        found := true;
        return;
      }
      i := i + 1;
    }
  }

  /** With run-once set, registering a call that is already there changes nothing. */
  lemma RegisterPresentKeepsList(entries: seq<Entry>, name: string, args: seq<Arg>)
    requires Entry(name, args) in entries
    ensures AfterRegister(entries, name, args, true) == entries
  {
  }

  /**
   * Without run-once, or when no identical entry exists, exactly one entry is
   * appended and every earlier entry stays where it was.
   */
  lemma RegisterAppendsOne(entries: seq<Entry>, name: string, args: seq<Arg>, runonce: bool)
    requires !runonce || Entry(name, args) !in entries
    ensures |AfterRegister(entries, name, args, runonce)| == |entries| + 1
    ensures AfterRegister(entries, name, args, runonce)[..|entries|] == entries
    ensures AfterRegister(entries, name, args, runonce)[|entries|] == Entry(name, args)
  {
  }

  /**
   * Registering the same call twice leaves one more copy of it with run-once set
   * (none when it was already there) and two more copies without.
   */
  lemma RegisterTwice(entries: seq<Entry>, name: string, args: seq<Arg>, runonce: bool)
    ensures var e := Entry(name, args);
            var twice := AfterRegister(AfterRegister(entries, name, args, runonce), name, args, runonce);
            multiset(twice)[e] == if runonce then (if e in entries then multiset(entries)[e] else 1)
                                  else multiset(entries)[e] + 2
  {
    var e := Entry(name, args);
    if !runonce || e !in entries {
      assert AfterRegister(entries, name, args, runonce) == entries + [e];
      assert multiset(entries + [e]) == multiset(entries) + multiset{e};
      if runonce {
        assert multiset(entries)[e] == 0;
      } else {
        assert multiset(entries + [e] + [e]) == multiset(entries) + multiset{e} + multiset{e};
      }
    }
  }

  /** The configuration store that holds the registry between calls. */
  class VroomConfig {
    var stored: Stored

    constructor (initial: Stored)
      ensures stored == initial
    {
      stored := initial;
    }

    /**
     * register_vroom_function: returns true when run-once found an identical
     * entry (and then stores nothing); otherwise stores the list with the
     * entry appended. As in the source, the arguments default to none and
     * run-once defaults to on.
     */
    method Register(name: string, args: seq<Arg> := [], runonce: bool := true) returns (alreadyRegistered: bool)
      modifies this
      ensures alreadyRegistered <==> runonce && Entry(name, args) in AsList(old(stored))
      ensures alreadyRegistered ==> stored == old(stored)
      ensures stored.List? && stored.entries == AfterRegister(AsList(old(stored)), name, args, runonce)
    {
      var entries := AsList(stored);
      alreadyRegistered := false;
      if runonce {
        alreadyRegistered := FindRegistered(entries, name, args);
        if alreadyRegistered {
          return;
        }
      }
      entries := entries + [Entry(name, args)];
      stored := List(entries);
    }
  }
}
