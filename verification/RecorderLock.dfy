/**
  The recorder step by step: calls and saves of any number of threads, interleaved at every
  point where one of them does not hold the entries lock.  The lock is what makes each call and
  each save one event of `Recorder`.
*/
module RecorderLock {
  import opened Wrappers
  import opened CassetteEntry
  import opened Recorder

  type ThreadId = nat

  /** Where a thread's call or save stands; the middle ones hold the lock. */
  datatype Pc =
    | WantsPush(entry: Entry)
    | Pushing(entry: Entry)
    | Pushed(entry: Entry)
    | Marked(entry: Entry)
    | WantsSave
    | Saving
    | Copied(entries: seq<Entry>)
    | Wrote(end: WriteEnd)
    | Cleared
    | Returned(event: Event)
  {
    predicate Holds() {
      !WantsPush? && !WantsSave? && !Returned?
    }
  }

  /** The recorder's fields, the threads, and the history of the events they completed. */
  datatype State = State(
    recorded: seq<Entry>,
    dirty: bool,
    file: Option<Cassette>,
    lock: Option<ThreadId>,
    threads: map<ThreadId, Pc>,
    events: seq<Event>)

  datatype Step =
    | Call(t: ThreadId, entry: Entry)
    | Save(t: ThreadId)
    | Lock(t: ThreadId)
    | Push(t: ThreadId)
    | Mark(t: ThreadId)
    | Copy(t: ThreadId)
    | Write(t: ThreadId, end: WriteEnd)
    | Clear(t: ThreadId)
    | Unlock(t: ThreadId)

  predicate Enabled(s: State, e: Step) {
    match e
    case Call(t, _) => t !in s.threads
    case Save(t) => t !in s.threads
    case Lock(t) => t in s.threads && s.lock.None? && (s.threads[t].WantsPush? || s.threads[t].WantsSave?)
    case Push(t) => t in s.threads && s.threads[t].Pushing?
    case Mark(t) => t in s.threads && s.threads[t].Pushed?
    case Copy(t) => t in s.threads && s.threads[t].Saving?
    case Write(t, _) => t in s.threads && s.threads[t].Copied?
    case Clear(t) => t in s.threads && s.threads[t] == Wrote(Written)
    case Unlock(t) => t in s.threads && Completed(s.threads[t]).Some?
  }

  /** The event a thread has completed once it may drop the guard: a failed write skips the clearing. */
  function Completed(pc: Pc): Option<Event> {
    match pc
    case Marked(entry) => Some(Event.Call(Some(entry)))
    case Cleared => Some(Event.Save(Written))
    case Wrote(end) => if end.Written? then None else Some(Event.Save(end))
    case _ => None
  }

  function Goto(s: State, t: ThreadId, pc: Pc): State {
    s.(threads := s.threads[t := pc])
  }

  function Apply(s: State, e: Step): State
    requires Enabled(s, e)
  {
    match e
    case Call(t, entry) => Goto(s, t, WantsPush(entry))
    case Save(t) => Goto(s, t, WantsSave)
    case Lock(t) =>
      var pc := s.threads[t];
      Goto(s, t, if pc.WantsPush? then Pushing(pc.entry) else Saving).(lock := Some(t))
    case Push(t) => Goto(s, t, Pushed(s.threads[t].entry)).(recorded := s.recorded + [s.threads[t].entry])
    case Mark(t) => Goto(s, t, Marked(s.threads[t].entry)).(dirty := true)
    case Copy(t) => Goto(s, t, Copied(s.recorded))
    case Write(t, end) =>
      var cassette := Cassette(CASSETTE_VERSION, s.threads[t].entries);
      Goto(s, t, Wrote(end)).(file := if end.Untouched? then s.file else Some(cassette))
    case Clear(t) => Goto(s, t, Cleared).(dirty := false)
    case Unlock(t) =>
      var event := Completed(s.threads[t]).value;
      Goto(s, t, Returned(event)).(lock := None, events := s.events + [event])
  }

  predicate Runs(s: State, steps: seq<Step>)
    decreases |steps|
  {
    steps == [] || (Enabled(s, steps[0]) && Runs(Apply(s, steps[0]), steps[1..]))
  }

  function Final(s: State, steps: seq<Step>): State
    requires Runs(s, steps)
    decreases |steps|
  {
    if steps == [] then s else Final(Apply(s, steps[0]), steps[1..])
  }

  function Init(start: Option<Cassette>): State {
    State([], false, start, None, map[], [])
  }

  // ---------------------------------------------------------------------------------------
  // Each call and each save is one event

  /** What the completed events alone amount to. */
  function Settled(start: Option<Cassette>, events: seq<Event>): Log {
    AfterAll(Log([], false, start, 0), events)
  }

  predicate Shows(s: State, log: Log) {
    s.recorded == log.recorded && s.dirty == log.dirty && s.file == log.file
  }

  /** The fields are those of the completed events, plus what the lock holder has done so far. */
  predicate Tracks(s: State, log: Log, pc: Pc) {
    match pc
    case Pushing(_) => Shows(s, log)
    case Pushed(entry) => Shows(s, log.(recorded := log.recorded + [entry]))
    case Marked(entry) => Shows(s, AfterCall(log, Some(entry)))
    case Saving => Shows(s, log)
    case Copied(entries) => Shows(s, log) && entries == log.recorded
    case Wrote(end) => Shows(s, AfterSave(log, end).(dirty := log.dirty))
    case Cleared => Shows(s, AfterSave(log, Written))
    case _ => false
  }

  predicate Inv(s: State, start: Option<Cassette>) {
    && (forall t :: t in s.threads ==> (s.threads[t].Holds() <==> s.lock == Some(t)))
    && (s.lock.Some? ==> s.lock.value in s.threads)
    && (forall t :: t in s.threads && s.threads[t].Returned? ==> s.threads[t].event in s.events)
    && (if s.lock.None? then Shows(s, Settled(start, s.events))
        else Tracks(s, Settled(start, s.events), s.threads[s.lock.value]))
  }

  lemma {:induction false} AfterAllPush(s: Log, events: seq<Event>, e: Event)
    ensures AfterAll(s, events + [e]) == After(AfterAll(s, events), e)
    decreases |events|
  {
    if events == [] {
      assert [e][1..] == [] && AfterAll(After(s, e), []) == After(s, e);
      assert events + [e] == [e];
    } else {
      assert (events + [e])[1..] == events[1..] + [e];
      AfterAllPush(After(s, events[0]), events[1..], e);
    }
  }

  lemma UnlockKeepsInv(s: State, t: ThreadId, start: Option<Cassette>)
    requires Inv(s, start) && Enabled(s, Unlock(t))
    ensures Inv(Apply(s, Unlock(t)), start)
  {
    AfterAllPush(Log([], false, start, 0), s.events, Completed(s.threads[t]).value);
  }

  lemma StepKeepsInv(s: State, e: Step, start: Option<Cassette>)
    requires Inv(s, start) && Enabled(s, e)
    ensures Inv(Apply(s, e), start)
  {
    if e.Unlock? {
      UnlockKeepsInv(s, e.t, start);
    }
  }

  lemma RunKeepsInv(s: State, steps: seq<Step>, start: Option<Cassette>)
    requires Inv(s, start) && Runs(s, steps)
    ensures Inv(Final(s, steps), start)
    decreases |steps|
  {
    if steps != [] {
      StepKeepsInv(s, steps[0], start);
      RunKeepsInv(Apply(s, steps[0]), steps[1..], start);
    }
  }

  /**
    Over every interleaving of calls and saves of any number of threads: with the lock free the
    recorder is what its completed events make it, one after the other, every returned operation
    is one of them, and a clean recorder that recorded anything has its whole log in the file.
    Even inside a critical section the file is the one found at the start or holds a prefix of
    the log.
  */
  lemma LockedFlushSafety(start: Option<Cassette>, steps: seq<Step>)
    requires Runs(Init(start), steps)
    ensures var end := Final(Init(start), steps);
            && (end.lock.None? ==>
                  && Shows(end, Settled(start, end.events)) && end.recorded == Entries(end.events)
                  && (!end.dirty && end.recorded != [] ==> end.file == Some(Snapshot(end.recorded))))
            && (forall t :: t in end.threads && end.threads[t].Returned? ==> end.threads[t].event in end.events)
            && (end.file == start
                || exists n :: 0 <= n <= |end.recorded| && end.file == Some(Snapshot(end.recorded[..n])))
  {
    var end := Final(Init(start), steps);
    RunKeepsInv(Init(start), steps, start);
    FlushSafety(start, end.events);
    FileIsPrefix(end, start);
  }

  lemma FileIsPrefix(s: State, start: Option<Cassette>)
    requires Inv(s, start)
    ensures s.file == start || exists n :: 0 <= n <= |s.recorded| && s.file == Some(Snapshot(s.recorded[..n]))
  {
    FlushSafety(start, s.events);
    var log := Settled(start, s.events);
    assert log.recorded <= s.recorded;
    if s.file == log.file && s.file != start {
      var n :| 0 <= n <= |log.recorded| && s.file == Some(Snapshot(log.recorded[..n]));
      assert s.recorded[..n] == log.recorded[..n];
    } else if s.file != start {
      assert s.recorded[..|s.recorded|] == s.recorded;
    }
  }

  /**
    What the lock's extent is for: while a save is under way no entry can slip in between its
    copy and its clearing of the flag, so the flag it clears never covers an unwritten entry.
  */
  lemma NothingSlipsIn(s: State, e: Step, t: ThreadId, start: Option<Cassette>)
    requires Inv(s, start) && Enabled(s, e) && t in s.threads && e.t != t
    requires s.threads[t].Copied? || s.threads[t].Wrote?
    ensures Apply(s, e).recorded == s.recorded && Apply(s, e).dirty == s.dirty && Apply(s, e).file == s.file
    ensures Apply(s, e).threads[t] == s.threads[t] && Apply(s, e).lock == Some(t)
  {
  }

  // ---------------------------------------------------------------------------------------
  // With the lock free, a call or a save can run to its end

  /** `steps` lead from `s` to `end`. */
  predicate Leads(s: State, steps: seq<Step>, end: State) {
    Runs(s, steps) && Final(s, steps) == end
  }

  lemma LeadsOne(s: State, e: Step)
    requires Enabled(s, e)
    ensures Leads(s, [e], Apply(s, e))
  {
    assert [e][1..] == [];
    assert Runs(Apply(s, e), []) && Final(Apply(s, e), []) == Apply(s, e);
  }

  lemma {:induction false} LeadsOn(s: State, steps: seq<Step>, mid: State, e: Step)
    requires Leads(s, steps, mid) && Enabled(mid, e)
    ensures Leads(s, steps + [e], Apply(mid, e))
    decreases |steps|
  {
    if steps == [] {
      LeadsOne(s, e);
      assert steps + [e] == [e];
    } else {
      assert (steps + [e])[1..] == steps[1..] + [e];
      LeadsOn(Apply(s, steps[0]), steps[1..], mid, e);
    }
  }

  lemma CallCompletes(s: State, t: ThreadId, entry: Entry) returns (steps: seq<Step>, end: State)
    requires s.lock.None? && t !in s.threads
    ensures Leads(s, steps, end)
    ensures end.recorded == s.recorded + [entry] && end.dirty && end.file == s.file && end.lock.None?
    ensures t in end.threads && end.threads[t] == Returned(Event.Call(Some(entry)))
    ensures end.events == s.events + [Event.Call(Some(entry))]
  {
    var a := Apply(s, Step.Call(t, entry));
    var b := Apply(a, Lock(t));
    var c := Apply(b, Push(t));
    var d := Apply(c, Mark(t));
    end := Apply(d, Unlock(t));
    LeadsOne(s, Step.Call(t, entry));
    steps := [Step.Call(t, entry)];
    LeadsOn(s, steps, a, Lock(t));
    steps := steps + [Lock(t)];
    LeadsOn(s, steps, b, Push(t));
    steps := steps + [Push(t)];
    LeadsOn(s, steps, c, Mark(t));
    steps := steps + [Mark(t)];
    LeadsOn(s, steps, d, Unlock(t));
    steps := steps + [Unlock(t)];
  }

  /** As far as the write. */
  lemma SaveWrites(s: State, t: ThreadId, how: WriteEnd) returns (steps: seq<Step>, end: State)
    requires s.lock.None? && t !in s.threads
    ensures Leads(s, steps, end)
    ensures end.lock == Some(t) && t in end.threads && end.threads[t] == Wrote(how)
    ensures end.recorded == s.recorded && end.dirty == s.dirty && end.events == s.events
    ensures end.file == if how.Untouched? then s.file else Some(Snapshot(s.recorded))
  {
    var a := Apply(s, Step.Save(t));
    var b := Apply(a, Lock(t));
    var c := Apply(b, Copy(t));
    end := Apply(c, Write(t, how));
    LeadsOne(s, Step.Save(t));
    steps := [Step.Save(t)];
    LeadsOn(s, steps, a, Lock(t));
    steps := steps + [Lock(t)];
    LeadsOn(s, steps, b, Copy(t));
    steps := steps + [Copy(t)];
    LeadsOn(s, steps, c, Write(t, how));
    steps := steps + [Write(t, how)];
  }

  lemma SaveCompletes(s: State, t: ThreadId, how: WriteEnd) returns (steps: seq<Step>, end: State)
    requires s.lock.None? && t !in s.threads
    ensures Leads(s, steps, end)
    ensures end.recorded == s.recorded && end.lock.None?
    ensures end.file == if how.Untouched? then s.file else Some(Snapshot(s.recorded))
    ensures end.dirty == (s.dirty && !how.Written?)
    ensures t in end.threads && end.threads[t] == Returned(Event.Save(how))
    ensures end.events == s.events + [Event.Save(how)]
  {
    var mid;
    steps, mid := SaveWrites(s, t, how);
    if how.Written? {
      LeadsOn(s, steps, mid, Clear(t));
      steps, mid := steps + [Clear(t)], Apply(mid, Clear(t));
    }
    LeadsOn(s, steps, mid, Unlock(t));
    steps, end := steps + [Unlock(t)], Apply(mid, Unlock(t));
  }
}
