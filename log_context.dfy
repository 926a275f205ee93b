/** The session activity log of src/contexts/LogContext.tsx: a provider holding the
    newest-first list of log entries, to which every page adds one entry per change. */
module LogContext {
  import opened Wrappers
  import opened Records

  /** The log keeps at most this many entries. */
  const MaxLogEntries: nat := 50

  /** The user recorded when the caller names none. */
  const DefaultUser: string := "Admin"

  /** The error `useLog` throws outside a provider. */
  const MissingProviderError: string := "useLog must be used within a LogProvider"

  /** What a caller passes to `addLogEntry`. */
  datatype LogEntryData = LogEntryData(action: string, details: string, user: Option<string>)

  /** An entry as stored: the caller's data plus an id, a timestamp and a definite user. */
  datatype LogEntry = LogEntry(id: string, timestamp: Date, user: string, action: string, details: string)

  function Min(a: nat, b: nat): nat { if a < b then a else b }

  /** The entry `addLogEntry` builds from `data`, a fresh `id` and the current time `now`.
      A missing or empty user (both falsy) becomes the default user. */
  function NewEntry(data: LogEntryData, id: string, now: Date): (e: LogEntry)
    ensures e.id == id && e.timestamp == now
    ensures e.action == data.action && e.details == data.details
    ensures e.user != ""
    ensures data.user.Some? && data.user.value != "" ==> e.user == data.user.value
    ensures data.user.None? || data.user.value == "" ==> e.user == DefaultUser
  {
    LogEntry(id, now, if data.user.Some? && data.user.value != "" then data.user.value else DefaultUser,
             data.action, data.details)
  }

  /** The new list after one `addLogEntry`: `[e, ...entries].slice(0, 50)`.
      The new entry comes first, the old entries follow in their order, and only the
      oldest entry is dropped, and only when the list was already full. */
  function PrependCapped(entries: seq<LogEntry>, e: LogEntry): (r: seq<LogEntry>)
    ensures |r| == Min(|entries| + 1, MaxLogEntries)
    ensures r[0] == e
    ensures forall i :: 1 <= i < |r| ==> r[i] == entries[i - 1]
  {
    ([e] + entries)[..Min(|entries| + 1, MaxLogEntries)]
  }

  /** The log never grows beyond its capacity, and below capacity nothing is dropped. */
  lemma PrependCappedBounds(entries: seq<LogEntry>, e: LogEntry)
    ensures |PrependCapped(entries, e)| <= MaxLogEntries
    ensures |entries| < MaxLogEntries ==> PrependCapped(entries, e) == [e] + entries
    ensures |entries| >= MaxLogEntries ==> PrependCapped(entries, e) == [e] + entries[..MaxLogEntries - 1]
  {
  }

  /** Existing entries are never modified: every entry after the first was already in the log. */
  lemma PrependCappedKeepsEntries(entries: seq<LogEntry>, e: LogEntry)
    ensures forall i :: 1 <= i < |PrependCapped(entries, e)| ==> PrependCapped(entries, e)[i] in entries
  {
  }

  /** The entries of `es` newest first. */
  function NewestFirst(es: seq<LogEntry>): (r: seq<LogEntry>)
    ensures |r| == |es|
  {
    if es == [] then [] else NewestFirst(es[1..]) + [es[0]]
  }

  /** The log after adding the entries of `es` one by one, oldest first. */
  function AddAll(entries: seq<LogEntry>, es: seq<LogEntry>): seq<LogEntry>
  {
    if es == [] then entries else PrependCapped(AddAll(entries, es[..|es| - 1]), es[|es| - 1])
  }

  /** Adding entries one at a time leaves the newest 50 of all entries, newest first: the
      added ones in reverse order of addition, then the old log. */
  lemma {:induction false} AddAllKeepsNewest(entries: seq<LogEntry>, es: seq<LogEntry>)
    requires |entries| <= MaxLogEntries
    ensures AddAll(entries, es) == (NewestFirst(es) + entries)[..Min(|es| + |entries|, MaxLogEntries)]
  {
    if es != [] {
      var init, last := es[..|es| - 1], es[|es| - 1];
      AddAllKeepsNewest(entries, init);
      NewestFirstSnoc(init, last);
      assert es == init + [last];
      var all := NewestFirst(init) + entries;
      var m := Min(|init| + |entries|, MaxLogEntries);
      var m' := Min(|es| + |entries|, MaxLogEntries);
      assert NewestFirst(es) + entries == [last] + all;
      var r := PrependCapped(all[..m], last);
      assert |r| == m';
      forall i | 0 <= i < m' ensures r[i] == ([last] + all)[i] {
        if i > 0 {
          assert r[i] == all[..m][i - 1];
        }
      }
    }
  }

  /** Helper: reversing `init + [last]` puts `last` first. */
  lemma {:induction false} NewestFirstSnoc(init: seq<LogEntry>, last: LogEntry)
    ensures NewestFirst(init + [last]) == [last] + NewestFirst(init)
  {
    if init != [] {
      assert (init + [last])[1..] == init[1..] + [last];
      NewestFirstSnoc(init[1..], last);
    } else {
      assert [last][1..] == [];
    }
  }

  /** The `LogProvider` component: the session's log, newest first. */
  class LogProvider {
    var logEntries: seq<LogEntry>

    /** The capacity bound holds at all times. */
    ghost predicate Valid()
      reads this
    {
      |logEntries| <= MaxLogEntries
    }

    /** A provider starts with an empty log. */
    constructor ()
      ensures logEntries == [] && Valid()
    {
      logEntries := [];
    }

    /** `addLogEntry`: build the entry and prepend it, keeping the newest 50. */
    method AddLogEntry(data: LogEntryData, id: string, now: Date)
      modifies this
      ensures Valid()
      ensures logEntries == PrependCapped(old(logEntries), NewEntry(data, id, now))
    {
      var entry := NewEntry(data, id, now);
      logEntries := ([entry] + logEntries)[..Min(|logEntries| + 1, MaxLogEntries)];
    }
  }

  /** `useLog`: the enclosing provider, or the error thrown when there is none. */
  function UseLog(context: Option<LogProvider>): (r: Result<LogProvider, string>)
    ensures context.None? <==> r.Failure?
    ensures context.None? ==> r.error == MissingProviderError
    ensures context.Some? ==> r.value == context.value
  {
    match context
    case None => Failure(MissingProviderError)
    case Some(provider) => Success(provider)
  }
}
