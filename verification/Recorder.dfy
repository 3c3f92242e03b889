/**
  Record mode: the log of entries, the dirty flag, saving, and the flush on drop.
*/
module Recorder {
  import opened Wrappers
  import opened CassetteEntry

  const CASSETTE_VERSION: nat := 4

  /** The file: a format version and the entries in capture order. */
  datatype Cassette = Cassette(version: nat, entries: seq<Entry>)

  /**
    How write_cassette ended: installed; failed with the old file still in place; or failed
    after the rename (the directory fsync), with the new file already in place.
  */
  datatype WriteEnd = Written | Untouched | Swapped

  /** One recorder and the file it writes, as seen by a run of its operations. */
  datatype Log = Log(recorded: seq<Entry>, dirty: bool, file: Option<Cassette>, saves: nat)

  /** One operation: a recorded call (or one that leaves no entry), or a save. */
  datatype Event = Call(entry: Option<Entry>) | Save(end: WriteEnd)

  function Snapshot(recorded: seq<Entry>): Cassette {
    Cassette(CASSETTE_VERSION, recorded)
  }

  function AfterCall(s: Log, entry: Option<Entry>): Log {
    match entry
    case Some(e) => s.(recorded := s.recorded + [e], dirty := true)
    case None => s
  }

  function AfterSave(s: Log, end: WriteEnd): Log {
    match end
    case Written => s.(dirty := false, file := Some(Snapshot(s.recorded)), saves := s.saves + 1)
    case Swapped => s.(file := Some(Snapshot(s.recorded)))
    case Untouched => s
  }

  function After(s: Log, e: Event): Log {
    match e
    case Call(entry) => AfterCall(s, entry)
    case Save(end) => AfterSave(s, end)
  }

  function AfterAll(s: Log, events: seq<Event>): Log
    decreases |events|
  {
    if events == [] then s else AfterAll(After(s, events[0]), events[1..])
  }

  /** The entries a run of events records, in order. */
  function Entries(events: seq<Event>): seq<Entry>
    decreases |events|
  {
    if events == [] then []
    else (if events[0].Call? && events[0].entry.Some? then [events[0].entry.value] else []) + Entries(events[1..])
  }

  /** Clean means saved: nothing was recorded since the last successful save. */
  predicate FlushSafe(s: Log, start: Option<Cassette>) {
    && (!s.dirty ==> if s.saves == 0 then s.recorded == [] && (s.file == start || s.file == Some(Snapshot([])))
                     else s.file == Some(Snapshot(s.recorded)))
    && (s.file == start || exists n :: 0 <= n <= |s.recorded| && s.file == Some(Snapshot(s.recorded[..n])))
  }

  lemma StepKeepsFlushSafe(s: Log, e: Event, start: Option<Cassette>)
    requires FlushSafe(s, start)
    ensures FlushSafe(After(s, e), start)
  {
    var s' := After(s, e);
    if e.Save? && !e.end.Untouched? {
      assert s'.recorded[..|s'.recorded|] == s'.recorded;
    } else if s.file != start {
      var n :| 0 <= n <= |s.recorded| && s.file == Some(Snapshot(s.recorded[..n]));
      assert s'.recorded[..n] == s.recorded[..n];
    }
  }

  lemma {:induction false} RunKeepsFlushSafe(s: Log, events: seq<Event>, start: Option<Cassette>)
    requires FlushSafe(s, start)
    ensures FlushSafe(AfterAll(s, events), start)
    ensures AfterAll(s, events).recorded == s.recorded + Entries(events)
    decreases |events|
  {
    RunRecords(s, events);
    if events != [] {
      StepKeepsFlushSafe(s, events[0], start);
      RunKeepsFlushSafe(After(s, events[0]), events[1..], start);
    }
  }

  lemma {:induction false} RunRecords(s: Log, events: seq<Event>)
    ensures AfterAll(s, events).recorded == s.recorded + Entries(events)
    decreases |events|
  {
    if events != [] {
      var next := After(s, events[0]);
      RunRecords(next, events[1..]);
      assert next.recorded + Entries(events[1..]) == s.recorded + Entries(events);
    }
  }

  /**
    Over any interleaving of recorded calls and saves: a clean recorder has its whole log in the
    file (or never recorded anything), and the file always holds the cassette found at the start
    or a prefix of what was recorded, never anything else.
  */
  lemma FlushSafety(start: Option<Cassette>, events: seq<Event>)
    ensures var end := AfterAll(Log([], false, start, 0), events);
            && end.recorded == Entries(events)
            && (!end.dirty && end.recorded != [] ==> end.file == Some(Snapshot(Entries(events))))
            && (end.file == start || exists n :: 0 <= n <= |Entries(events)| && end.file == Some(Snapshot(Entries(events)[..n])))
  {
    RunKeepsFlushSafe(Log([], false, start, 0), events, start);
  }

  /** A dirty recorder stays dirty until a save succeeds, whatever is called and however saves fail. */
  lemma {:induction false} DirtyUntilSaved(s: Log, events: seq<Event>)
    requires s.dirty && forall i :: 0 <= i < |events| ==> events[i] != Save(Written)
    ensures AfterAll(s, events).dirty
    decreases |events|
  {
    if events != [] {
      assert events[0] != Save(Written);
      DirtyUntilSaved(After(s, events[0]), events[1..]);
    }
  }

  function AfterDrop(s: Log, panicking: bool, end: WriteEnd): Log {
    if s.dirty && !panicking then AfterSave(s, end) else s
  }

  /** After any run, a drop leaves every entry of the run in the file, unless its flush fails or it unwinds. */
  lemma DropAfterRun(start: Option<Cassette>, events: seq<Event>, end: WriteEnd)
    requires Entries(events) != []
    ensures var last := AfterAll(Log([], false, start, 0), events);
            && (!last.dirty || end.Written? ==> AfterDrop(last, false, end).file == Some(Snapshot(Entries(events))))
            && (last.dirty && !end.Written? ==> AfterDrop(last, false, end).dirty)
            && AfterDrop(last, true, end) == last
  {
    assert [] + Entries(events) == Entries(events);
    RunKeepsFlushSafe(Log([], false, start, 0), events, start);
  }

  // ---------------------------------------------------------------------------------------
  // The recorder itself

  class RecordRunner {
    const cfg: Config
    var recorded: seq<Entry>
    var dirty: bool
    var file: Option<Cassette>
    ghost var saves: nat

    constructor (cfg: Config, file: Option<Cassette>)
      ensures this.cfg == cfg && State() == Log([], false, file, 0)
    {
      this.cfg := cfg;
      recorded, dirty, this.file := [], false, file;
      saves := 0;
    }

    ghost function State(): Log
      reads this
    {
      Log(recorded, dirty, file, saves)
    }

    /** output_string in record mode: store the entry, hand the real answer through. */
    method OutputString(c: Command, inner: Answer) returns (answer: Answer)
      modifies this
      ensures answer == if OneShotStdin(c) then Err(OneShotError(cfg)) else inner
      ensures c.stdin == Some(OneShot) ==>
                answer == Err(Unsupported(cfg.oneShotText)) && recorded == old(recorded) && dirty == old(dirty)
      ensures c.stdin != Some(OneShot) && inner.Err? && inner.error.Cancelled? ==>
                answer == inner && recorded == old(recorded) && dirty == old(dirty)
      ensures c.stdin != Some(OneShot) && (inner.Err? ==> !inner.error.Cancelled?) ==>
                && answer == inner && dirty && |recorded| == |old(recorded)| + 1 && old(recorded) <= recorded
                && KeyOfEntry(recorded[|old(recorded)|]) == KeyOf(cfg, c)
                && (recorded[|old(recorded)|].error.Some? <==> inner.Err?)
      ensures State() == AfterCall(old(State()), Stored(cfg, c, inner))
    {
      if OneShotStdin(c) {
        return Err(OneShotError(cfg));
      }
      match inner {
        case Ok(result) =>
          recorded := recorded + [FromParts(cfg, c, result)];
          dirty := true;
        case Err(reason) =>
          var stored := StoreError(reason);
          ErrorRoundTrip(reason, "");
          if stored.Some? {
            recorded := recorded + [FromError(cfg, c, stored.value)];
            dirty := true;
          }
      }
      answer := inner;
    }

    /** save: write everything; clean only once the write has succeeded. */
    method Save(end: WriteEnd) returns (ok: bool)
      modifies this
      ensures ok <==> end.Written?
      ensures !end.Untouched? ==> file == Some(Cassette(4, recorded))
      ensures recorded == old(recorded) && (end.Untouched? ==> file == old(file))
      ensures State() == AfterSave(old(State()), end)
    {
      var cassette := Cassette(CASSETTE_VERSION, recorded);
      if !end.Untouched? {
        file := Some(cassette);
      }
      ok := end.Written?;
      if ok {
        dirty := false;
        saves := saves + 1;
      }
    }

    /** Drop: flush what is unwritten, unless unwinding. */
    method Drop(panicking: bool, end: WriteEnd)
      modifies this
      ensures State() == AfterDrop(old(State()), panicking, end)
    {
      if dirty && !panicking {
        var _ := Save(end);
      }
    }
  }

  predicate OneShotStdin(c: Command) {
    c.stdin.Some? && c.stdin.value.OneShot?
  }

  /** reject_unrecordable_stdin's error, in both modes. */
  function OneShotError(cfg: Config): Reason {
    Unsupported(cfg.oneShotText)
  }

  /** The entry record mode stores for a call: none when it is rejected up front. */
  function Stored(cfg: Config, c: Command, inner: Answer): Option<Entry> {
    if OneShotStdin(c) then None else Recorded(cfg, c, inner)
  }
}
