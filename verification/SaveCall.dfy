/**
  write_cassette as the sequential code it is, run on a machine shared with other savers.

  Every operating-system call the code makes is one step of SaveProtocol; between any two of
  them the machine lets other savers (and the write-back daemon) take any steps they like.
  The method's contract says that the whole call is one saver of the protocol, so everything
  proved there about savers holds of this code.
*/
module SaveCall {
  import opened Wrappers
  import opened SaveProtocol

  /** How the system treats one call: does it succeed, which name, inode and byte count, who runs next. */
  datatype Turn = Turn(ok: bool, name: nat, inode: InodeId, count: nat, others: seq<Step>)

  /** The next answer of the system; when the script is used up, plain success. */
  function Upcoming(script: seq<Turn>): Turn {
    if script == [] then Turn(true, 0, 0, 1, []) else script[0]
  }

  function Drop(script: seq<Turn>, n: nat): seq<Turn> {
    if n <= |script| then script[n..] else []
  }

  /** The answer after `n` others. */
  function At(script: seq<Turn>, n: nat): Turn {
    Upcoming(Drop(script, n))
  }

  lemma DropNone(script: seq<Turn>)
    ensures Drop(script, 0) == script
  {
  }

  lemma DropDrop(script: seq<Turn>, m: nat, n: nat)
    ensures Drop(Drop(script, m), n) == Drop(script, m + n)
  {
  }

  /** Every call the system answers succeeds, and every write takes something. */
  predicate Willing(script: seq<Turn>) {
    forall k :: 0 <= k < |script| ==> script[k].ok && script[k].count > 0
  }

  /** The outcome that step `e` records is the one the system answered. */
  predicate Answered(st: State, e: Step, t: Turn) {
    match e
    case TryLock(_, ok) => ok == t.ok
    case Create(_, _, i, ok) => i == t.inode && ok == (t.ok && i !in st.inodes)
    case Write(_, count, ok) => count <= t.count && ok == (t.ok && count > 0)
    case Fsync(_, ok) => ok == t.ok
    case Rename(_, ok) => ok == t.ok
    case SyncDir(_, ok) => ok == t.ok
    case Remove(_, ok) => ok == t.ok
    case _ => true
  }

  /** The system fails the call of step `e`; finding a name or the lock taken is no failure of the system. */
  predicate Fails(st: State, e: Step) {
    match e
    case TryLock(_, ok) => !ok
    case Create(_, n, _, ok) => !ok && Temp(n) !in st.dir
    case Write(_, _, ok) => !ok
    case Fsync(_, ok) => !ok
    case Rename(_, ok) => !ok
    case SyncDir(_, ok) => !ok
    case Remove(_, ok) => !ok
    case _ => false
  }

  /** Steps that neither are `s`'s nor end `s`. */
  predicate Elsewhere(s: SaverId, steps: seq<Step>) {
    forall k :: 0 <= k < |steps| ==> !steps[k].PowerLoss? && (steps[k].BySaver() || steps[k].Kill? ==> steps[k].s != s)
  }

  predicate SameSaver(a: State, b: State, s: SaverId) {
    (s in a.savers <==> s in b.savers) && (s in a.savers ==> b.savers[s] == a.savers[s])
  }

  predicate SameText(a: State, b: State, s: SaverId) {
    forall i :: i in a.inodes && a.inodes[i].author == By(s) ==>
      i in b.inodes && b.inodes[i].author == By(s) && b.inodes[i].cache == a.inodes[i].cache
  }

  /** While `s` holds the lock, nobody else makes, moves or removes a name or a file. */
  predicate SameNames(a: State, b: State, s: SaverId) {
    a.lock == Some(s) ==> b.lock == Some(s) && b.dir == a.dir && b.inodes.Keys == a.inodes.Keys
  }

  /** What saver `s` still finds as it left it after others have run. */
  predicate Undisturbed(a: State, b: State, s: SaverId) {
    SameSaver(a, b, s) && SameText(a, b, s) && SameNames(a, b, s)
  }

  lemma OtherStepSameNames(st: State, e: Step, s: SaverId)
    requires Exclusive(st) && Enabled(st, e) && Elsewhere(s, [e])
    ensures SameNames(st, Apply(st, e), s)
  {
    assert [e][0] == e;
  }

  lemma OtherStepSameSaver(st: State, e: Step, s: SaverId)
    requires Enabled(st, e) && Elsewhere(s, [e])
    ensures SameSaver(st, Apply(st, e), s)
  {
    assert [e][0] == e;
  }

  /** Another saver writes to files of its own only. */
  lemma OtherWriteSameText(st: State, e: Step, s: SaverId)
    requires Inv(st) && Enabled(st, e) && (e.Write? || e.Fsync?) && e.s != s
    ensures SameText(st, Apply(st, e), s)
  {
    assert Progress(st, e.s);
  }

  lemma OtherStepSameText(st: State, e: Step, s: SaverId)
    requires Enabled(st, e) && !e.Write? && !e.Fsync? && !e.PowerLoss?
    ensures SameText(st, Apply(st, e), s)
  {
  }

  lemma OtherStepUndisturbed(st: State, e: Step, s: SaverId)
    requires Inv(st) && Enabled(st, e) && Elsewhere(s, [e])
    ensures Undisturbed(st, Apply(st, e), s)
  {
    assert [e][0] == e;
    OtherStepSameSaver(st, e, s);
    OtherStepSameNames(st, e, s);
    if e.Write? || e.Fsync? {
      OtherWriteSameText(st, e, s);
    } else {
      OtherStepSameText(st, e, s);
    }
  }

  lemma OthersUndisturbed(st: State, steps: seq<Step>, s: SaverId)
    requires Inv(st) && Runs(st, steps) && Elsewhere(s, steps)
    ensures Undisturbed(st, Final(st, steps), s)
    decreases |steps|
  {
    if steps != [] {
      assert [steps[0]][0] == steps[0];
      OtherStepUndisturbed(st, steps[0], s);
      StepKeepsInv(st, steps[0]);
      OthersUndisturbed(Apply(st, steps[0]), steps[1..], s);
    }
  }

  /** `steps` lead from `st` to `end`, where the invariant holds. */
  predicate Led(st: State, steps: seq<Step>, end: State)
    decreases |steps|
  {
    if steps == [] then st == end && Inv(end)
    else Enabled(st, steps[0]) && Led(Apply(st, steps[0]), steps[1..], end)
  }

  lemma {:induction false} LedMeans(st: State, steps: seq<Step>, end: State)
    ensures Led(st, steps, end) <==> Runs(st, steps) && Final(st, steps) == end && Inv(end)
    decreases |steps|
  {
    if steps != [] && Enabled(st, steps[0]) {
      LedMeans(Apply(st, steps[0]), steps[1..], end);
    }
  }

  lemma LedOn(st: State, steps: seq<Step>, mid: State, more: seq<Step>)
    requires Led(st, steps, mid) && Runs(mid, more)
    ensures Led(st, steps + more, Final(mid, more))
  {
    LedMeans(st, steps, mid);
    RunsAppend(st, steps, more);
    RunKeepsInv(mid, more);
    LedMeans(st, steps + more, Final(mid, more));
  }

  lemma RunsOne(st: State, e: Step)
    requires Enabled(st, e)
    ensures Runs(st, [e]) && Final(st, [e]) == Apply(st, e)
  {
    assert [e][1..] == [];
    assert Runs(Apply(st, e), []) && Final(Apply(st, e), []) == Apply(st, e);
  }

  class Machine {
    var st: State
    var script: seq<Turn>
    // History: where the run began, every step since, and of the call's own steps the last one,
    // the state it left behind (before others ran), how many created a temp or tried to, and how
    // many the system failed.
    ghost const origin: State
    ghost var trace: seq<Step>
    ghost var last: Option<Step>
    ghost var after: State
    ghost var creates: nat
    ghost var failures: nat

    ghost predicate Valid()
      reads this
    {
      Led(origin, trace, st)
    }

    constructor (st: State, script: seq<Turn>)
      requires Inv(st)
      ensures Valid() && this.st == st && this.script == script && trace == [] && creates == 0 && failures == 0
    {
      this.st, this.script := st, script;
      origin, trace, last, after, creates, failures := st, [], None, st, 0, 0;
    }

    method Ask() returns (t: Turn)
      requires Valid()
      modifies this`script
      ensures Valid() && t == Upcoming(old(script)) && script == Drop(old(script), 1)
      ensures old(script) != [] ==> t == old(script)[0] && script == old(script)[1..]
      ensures Willing(old(script)) ==> Willing(script) && t.ok && t.count > 0
    {
      t := Upcoming(script);
      if script != [] {
        script := script[1..];
      }
    }

    /** Saver `e.s` makes the call that is step `e`, is answered `t`, and then the others run. */
    method Take(e: Step, t: Turn)
      requires Valid() && Enabled(st, e) && e.BySaver() && Answered(st, e, t)
      modifies this`st, this`trace, this`last, this`after, this`creates, this`failures
      ensures Valid() && old(trace) + [e] <= trace
      ensures last == Some(e) && after == Apply(old(st), e)
      ensures creates == old(creates) + if e.Create? then 1 else 0
      ensures failures == old(failures) + if Fails(old(st), e) then 1 else 0
      ensures Undisturbed(after, st, e.s) && (t.others == [] ==> st == after)
      ensures Runs(after, t.others) && Elsewhere(e.s, t.others) ==> st == Final(after, t.others)
    {
      Note(e);
      Move(e);
      Remember();
      Interleave(e.s, t.others);
    }

    method Move(e: Step)
      requires Valid() && Enabled(st, e)
      modifies this`st, this`trace
      ensures Valid() && st == Apply(old(st), e) && trace == old(trace) + [e]
    {
      RunsOne(st, e);
      LedOn(origin, trace, st, [e]);
      st := Apply(st, e);
      trace := trace + [e];
    }

    /** Only history. */
    ghost method Note(e: Step)
      modifies this`last, this`creates, this`failures
      ensures last == Some(e)
      ensures creates == old(creates) + if e.Create? then 1 else 0
      ensures failures == old(failures) + if Fails(st, e) then 1 else 0
    {
      last, creates := Some(e), creates + if e.Create? then 1 else 0;
      failures := failures + if Fails(st, e) then 1 else 0;
    }

    ghost method Remember()
      modifies this`after
      ensures after == st
    {
      after := st;
    }

    /** Others take `steps` if they can. */
    method Interleave(s: SaverId, steps: seq<Step>)
      requires Valid()
      modifies this`st, this`trace
      ensures Valid() && old(trace) <= trace && Undisturbed(old(st), st, s)
      ensures steps == [] ==> st == old(st)
      ensures Runs(old(st), steps) && Elsewhere(s, steps) ==> st == Final(old(st), steps)
    {
      if Runs(st, steps) && Elsewhere(s, steps) {
        LedMeans(origin, trace, st);
        LedOn(origin, trace, st, steps);
        OthersUndisturbed(st, steps, s);
        st := Final(st, steps);
        trace := trace + steps;
      }
    }
  }

  /** Whether saver `s` of this call has got as far as `pc`. */
  ghost predicate Reached(m: Machine, s: SaverId, json: string, pc: Pc)
    reads m
  {
    m.Valid() && s in m.st.savers && m.st.savers[s] == Saver(json, pc)
  }

  /** What the invariant says of saver `s`. */
  lemma OwnPart(m: Machine, s: SaverId)
    requires m.Valid() && s in m.st.savers
    ensures Progress(m.st, s)
    ensures m.st.savers[s].pc.Critical() <==> m.st.lock == Some(s)
  {
    LedMeans(m.origin, m.trace, m.st);
  }

  /** acquire_save_lock: non-blocking; refused exactly when the lock is held. */
  method AcquireSaveLock(m: Machine, s: SaverId, ghost json: string) returns (r: Result<(), SaveError>)
    requires Reached(m, s, json, Starting)
    modifies m
    ensures old(m.trace) <= m.trace && m.creates == old(m.creates)
    ensures r == if !Upcoming(old(m.script)).ok then Err(OtherIo)
                 else if old(m.st).lock.Some? then Err(WouldBlock)
                 else Ok(())
    ensures SameFiles(old(m.st), m.after) && (r.Err? ==> m.after.lock == old(m.st).lock)
    ensures m.script == Drop(old(m.script), 1)
    ensures m.failures == old(m.failures) + if r == Err(OtherIo) then 1 else 0
    ensures r.Ok? ==> m.st.dir == old(m.st).dir && m.st.inodes.Keys == old(m.st).inodes.Keys
    ensures Reached(m, s, json, if r.Ok? then Locked(0) else Returned(Failed(r.error)))
  {
    var t := m.Ask();
    r := if !t.ok then Err(OtherIo) else if m.st.lock.Some? then Err(WouldBlock) else Ok(());
    m.Take(TryLock(s, t.ok), t);
  }

  /** Where a failed attempt at a temp leaves the call. */
  ghost function Retry(e: SaveError, attempts: nat): Pc {
    if e == AlreadyExists && attempts < MAX_ATTEMPTS then Locked(attempts + 1) else Unlocking(Failed(e))
  }

  lemma CreateStep(st: State, s: SaverId, tmp: nat, inode: InodeId, ok: bool, json: string, attempts: nat)
    requires s in st.savers && st.savers[s] == Saver(json, Locked(attempts)) && (ok ==> inode !in st.inodes)
    ensures Enabled(st, Create(s, tmp, inode, ok))
    ensures var st' := Apply(st, Create(s, tmp, inode, ok));
      && s in st'.savers && st'.lock == st.lock
      && if Temp(tmp) in st.dir then SameFiles(st, st') && st'.savers[s] == Saver(json, Retry(AlreadyExists, attempts))
         else if !ok then SameFiles(st, st') && st'.savers[s] == Saver(json, Unlocking(Failed(OtherIo)))
         else st'.savers[s] == Saver(json, Writing(tmp, inode)) && inode in st'.inodes
              && st'.inodes[inode] == Inode(By(s), "", "", true)
  {
  }

  /** Opening a brand-new file: `O_EXCL` refuses a name that exists, and nothing is touched then. */
  method CreateNew(m: Machine, s: SaverId, tmp: nat, ghost json: string, ghost attempts: nat)
    returns (r: Result<(), SaveError>, ghost inode: InodeId)
    requires Reached(m, s, json, Locked(attempts))
    modifies m
    ensures old(m.trace) <= m.trace && m.creates == old(m.creates) + 1
    ensures r == Err(AlreadyExists) <==> Temp(tmp) in old(m.st).dir
    ensures r.Ok? <==> Temp(tmp) !in old(m.st).dir && Upcoming(old(m.script)).ok
                       && Upcoming(old(m.script)).inode !in old(m.st).inodes
    ensures r.Err? ==> SameFiles(old(m.st), m.after) && (r.error == AlreadyExists || r.error == OtherIo)
    ensures r.Err? ==> m.st.dir == old(m.st).dir
    ensures m.script == Drop(old(m.script), 1)
    ensures m.failures == old(m.failures) + if r == Err(OtherIo) then 1 else 0
    ensures Reached(m, s, json, if r.Ok? then Writing(tmp, inode) else Retry(r.error, attempts))
    ensures r.Ok? ==> inode in m.st.inodes && m.st.inodes[inode].cache == ""
  {
    var t := m.Ask();
    inode := t.inode;
    var ok := t.ok && t.inode !in m.st.inodes;
    r := if Temp(tmp) in m.st.dir then Err(AlreadyExists) else if !ok then Err(OtherIo) else Ok(());
    OwnPart(m, s);
    CreateStep(m.st, s, tmp, inode, ok, json, attempts);
    m.Take(Create(s, tmp, t.inode, ok), t);
  }

  lemma WriteStep(st: State, s: SaverId, tmp: nat, inode: InodeId, count: nat, ok: bool, json: string, done: nat)
    requires s in st.savers && st.savers[s] == Saver(json, Writing(tmp, inode))
    requires inode in st.inodes && st.inodes[inode].author == By(s)
    requires done + count <= |json| && st.inodes[inode].cache == json[..done]
    ensures Enabled(st, Write(s, count, ok))
    ensures var st' := Apply(st, Write(s, count, ok));
      && s in st'.savers && st'.savers[s] == Saver(json, if ok then Writing(tmp, inode) else Unlocking(Failed(OtherIo)))
      && (ok ==> inode in st'.inodes && st'.inodes[inode].author == By(s) && st'.inodes[inode].cache == json[..done + count])
  {
  }

  /** One write call, of up to `count` more bytes. */
  method WriteSome(m: Machine, s: SaverId, ghost tmp: nat, ghost inode: InodeId, json: string, count: nat, t: Turn,
                   ghost done: nat)
    returns (ok: bool)
    requires Reached(m, s, json, Writing(tmp, inode)) && done + count <= |json| && count <= t.count
    requires inode in m.st.inodes && m.st.inodes[inode].cache == json[..done]
    modifies m
    ensures old(m.trace) <= m.trace && m.creates == old(m.creates)
    ensures Reached(m, s, json, if ok then Writing(tmp, inode) else Unlocking(Failed(OtherIo)))
    ensures ok <==> t.ok && count > 0
    ensures m.script == old(m.script) && m.failures == old(m.failures) + if ok then 0 else 1
    ensures ok ==> inode in m.st.inodes && m.st.inodes[inode].cache == json[..done + count]
  {
    OwnPart(m, s);
    ok := t.ok && count > 0;
    WriteStep(m.st, s, tmp, inode, count, ok, json, done);
    m.Take(Write(s, count, ok), t);
  }

  /** The first `done` characters of the text are in the temp. */
  ghost predicate Filled(m: Machine, s: SaverId, tmp: nat, inode: InodeId, json: string, done: nat)
    reads m
  {
    && Reached(m, s, json, Writing(tmp, inode)) && done <= |json|
    && inode in m.st.inodes && m.st.inodes[inode].cache == json[..done]
  }

  /** The next write: as many of the bytes left as the system takes. */
  method WriteNext(m: Machine, s: SaverId, ghost tmp: nat, ghost inode: InodeId, json: string, done: nat)
    returns (ok: bool, count: nat)
    requires Filled(m, s, tmp, inode, json, done) && done < |json|
    modifies m
    ensures old(m.trace) <= m.trace && m.creates == old(m.creates)
    ensures done + count <= |json|
    ensures if ok then Filled(m, s, tmp, inode, json, done + count) else Reached(m, s, json, Unlocking(Failed(OtherIo)))
    ensures ok <==> Upcoming(old(m.script)).ok && count > 0
    ensures count == Min(Upcoming(old(m.script)).count, |json| - done)
    ensures m.script == Drop(old(m.script), 1) && m.failures == old(m.failures) + if ok then 0 else 1
    ensures Willing(old(m.script)) ==> Willing(m.script) && ok
  {
    var t := m.Ask();
    count := Min(t.count, |json| - done);
    ok := WriteSome(m, s, tmp, inode, json, count, t, done);
  }

  /** write_all: a write may be short, and one of no bytes is an error. */
  method WriteAll(m: Machine, s: SaverId, ghost tmp: nat, ghost inode: InodeId, json: string) returns (ok: bool)
    requires Reached(m, s, json, Writing(tmp, inode))
    requires inode in m.st.inodes && m.st.inodes[inode].cache == ""
    modifies m
    ensures old(m.trace) <= m.trace && m.creates == old(m.creates)
    ensures Reached(m, s, json, if ok then Writing(tmp, inode) else Unlocking(Failed(OtherIo)))
    ensures m.failures == old(m.failures) + if ok then 0 else 1
    ensures Willing(old(m.script)) ==> Willing(m.script) && ok
    ensures ok ==> inode in m.st.inodes && m.st.inodes[inode].cache == json
  {
    var done := 0;
    while done < |json|
      invariant old(m.trace) <= m.trace && m.creates == old(m.creates) && m.failures == old(m.failures)
      invariant Willing(old(m.script)) ==> Willing(m.script)
      invariant Filled(m, s, tmp, inode, json, done)
    {
      var count;
      ok, count := WriteNext(m, s, tmp, inode, json, done);
      if !ok {
        return;
      }
      done := done + count;
    }
    assert json[..|json|] == json;
    return true;
  }

  method SyncAll(m: Machine, s: SaverId, ghost tmp: nat, ghost inode: InodeId, ghost json: string) returns (ok: bool)
    requires Reached(m, s, json, Writing(tmp, inode))
    requires inode in m.st.inodes && m.st.inodes[inode].cache == json
    modifies m
    ensures old(m.trace) <= m.trace && m.creates == old(m.creates)
    ensures m.failures == old(m.failures) + if ok then 0 else 1
    ensures Willing(old(m.script)) ==> Willing(m.script) && ok
    ensures ok == Upcoming(old(m.script)).ok
    ensures Reached(m, s, json, if ok then Synced(tmp, inode) else Unlocking(Failed(OtherIo)))
  {
    var t := m.Ask();
    ok := t.ok;
    m.Take(Fsync(s, ok), t);
  }

  method FillAndSync(m: Machine, s: SaverId, ghost tmp: nat, ghost inode: InodeId, json: string) returns (ok: bool)
    requires Reached(m, s, json, Writing(tmp, inode))
    requires inode in m.st.inodes && m.st.inodes[inode].cache == ""
    modifies m
    ensures old(m.trace) <= m.trace && m.creates == old(m.creates)
    ensures m.failures == old(m.failures) + if ok then 0 else 1
    ensures Willing(old(m.script)) ==> Willing(m.script) && ok
    ensures Reached(m, s, json, if ok then Synced(tmp, inode) else Unlocking(Failed(OtherIo)))
  {
    ok := WriteAll(m, s, tmp, inode, json);
    if ok {
      ok := SyncAll(m, s, tmp, inode, json);
    }
  }

  /**
    What an attempt at one name comes to: the name is taken exactly if it exists, which leaves
    names and all later answers as they were; and with a free name, a new inode and no failing
    call the file is made.
  */
  predicate Made(r: Result<(), SaveError>, tmp: nat, st: State, script: seq<Turn>,
                 dir: map<Path, InodeId>, rest: seq<Turn>) {
    && (r == Err(AlreadyExists) <==> Temp(tmp) in st.dir)
    && (r == Err(AlreadyExists) ==> rest == Drop(script, 1) && dir == st.dir)
    && (r.Err? ==> r.error == AlreadyExists || r.error == OtherIo)
    && (Willing(script) ==> Willing(rest))
    && (Willing(script) && Temp(tmp) !in st.dir && Upcoming(script).inode !in st.inodes ==> r.Ok?)
  }

  /** write_new_file: create with O_EXCL, write everything, fsync. An existing file is left as it is. */
  method WriteNewFile(m: Machine, s: SaverId, tmp: nat, json: string, ghost attempts: nat)
    returns (r: Result<(), SaveError>, ghost inode: InodeId)
    requires Reached(m, s, json, Locked(attempts))
    modifies m
    ensures old(m.trace) <= m.trace && m.creates == old(m.creates) + 1
    ensures r == Err(AlreadyExists) ==> SameFiles(old(m.st), m.after)
    ensures m.failures == old(m.failures) + if r == Err(OtherIo) then 1 else 0
    ensures Made(r, tmp, old(m.st), old(m.script), m.st.dir, m.script)
    ensures Reached(m, s, json, if r.Ok? then Synced(tmp, inode) else Retry(r.error, attempts))
  {
    r, inode := CreateNew(m, s, tmp, json, attempts);
    if r.Ok? {
      var ok := FillAndSync(m, s, tmp, inode, json);
      r := if ok then Ok(()) else Err(OtherIo);
    }
  }

  method RenameOver(m: Machine, s: SaverId, ghost tmp: nat, ghost inode: InodeId, ghost json: string)
    returns (ok: bool)
    requires Reached(m, s, json, Synced(tmp, inode))
    modifies m
    ensures old(m.trace) <= m.trace && m.creates == old(m.creates)
    ensures m.failures == old(m.failures) + if ok then 0 else 1
    ensures Willing(old(m.script)) ==> Willing(m.script) && ok
    ensures ok == Upcoming(old(m.script)).ok
    ensures Reached(m, s, json, if ok then Renamed(tmp, inode) else Cleaning(tmp, OtherIo))
  {
    OwnPart(m, s);
    var t := m.Ask();
    ok := t.ok;
    m.Take(Rename(s, ok), t);
  }

  method SyncParentDir(m: Machine, s: SaverId, ghost tmp: nat, ghost inode: InodeId, ghost json: string)
    returns (ok: bool)
    requires Reached(m, s, json, Renamed(tmp, inode))
    modifies m
    ensures old(m.trace) <= m.trace && m.creates == old(m.creates)
    ensures m.failures == old(m.failures) + if ok then 0 else 1
    ensures Willing(old(m.script)) ==> Willing(m.script) && ok
    ensures ok == Upcoming(old(m.script)).ok
    ensures m.last == Some(SyncDir(s, ok))
    ensures Reached(m, s, json, if ok then Unlocking(Saved(inode)) else Cleaning(tmp, OtherIo))
  {
    var t := m.Ask();
    ok := t.ok;
    m.Take(SyncDir(s, ok), t);
  }

  method RemoveFile(m: Machine, s: SaverId, ghost tmp: nat, ghost json: string)
    requires Reached(m, s, json, Cleaning(tmp, OtherIo))
    modifies m
    ensures old(m.trace) <= m.trace && m.creates == old(m.creates)
    ensures Cleaned(m, s, tmp)
    ensures m.failures >= old(m.failures)
    ensures Reached(m, s, json, Unlocking(Failed(OtherIo)))
  {
    var t := m.Ask();
    m.Take(Remove(s, t.ok), t);
  }

  /** The call's last step was to remove its temp, and if that worked the name is gone. */
  ghost predicate Cleaned(m: Machine, s: SaverId, tmp: nat)
    reads m
  {
    m.last.Some? && m.last.value.Remove? && m.last.value.s == s && (m.last.value.ok ==> Temp(tmp) !in m.after.dir)
  }

  /** rename, and then fsync of the parent directory. */
  method RenameAndSync(m: Machine, s: SaverId, ghost tmp: nat, ghost inode: InodeId, ghost json: string)
    returns (ok: bool)
    requires Reached(m, s, json, Synced(tmp, inode))
    modifies m
    ensures old(m.trace) <= m.trace && m.creates == old(m.creates)
    ensures m.failures == old(m.failures) + if ok then 0 else 1
    ensures Willing(old(m.script)) ==> Willing(m.script) && ok
    ensures ok ==> m.last == Some(SyncDir(s, true))
    ensures Reached(m, s, json, if ok then Unlocking(Saved(inode)) else Cleaning(tmp, OtherIo))
  {
    ok := RenameOver(m, s, tmp, inode, json);
    if ok {
      ok := SyncParentDir(m, s, tmp, inode, json);
    }
  }

  /** On failure the temp is removed, best effort. */
  method Install(m: Machine, s: SaverId, ghost tmp: nat, ghost inode: InodeId, ghost json: string)
    returns (r: Result<(), SaveError>)
    requires Reached(m, s, json, Synced(tmp, inode))
    modifies m
    ensures old(m.trace) <= m.trace && m.creates == old(m.creates)
    ensures if r.Ok? then m.last == Some(SyncDir(s, true)) else r.error == OtherIo && Cleaned(m, s, tmp)
    ensures if r.Ok? then m.failures == old(m.failures) else m.failures > old(m.failures)
    ensures Willing(old(m.script)) ==> r.Ok?
    ensures Reached(m, s, json, Unlocking(if r.Ok? then Saved(inode) else Failed(r.error)))
  {
    var ok := RenameAndSync(m, s, tmp, inode, json);
    if !ok {
      RemoveFile(m, s, tmp, json);
    }
    r := if ok then Ok(()) else Err(OtherIo);
  }

  /** The symlink check that opens the call. */
  method RefuseSymlink(m: Machine, s: SaverId, json: string) returns (r: Result<(), SaveError>)
    requires m.Valid() && s !in m.st.savers
    modifies m
    ensures old(m.trace) + [Begin(s, json)] <= m.trace && m.creates == old(m.creates)
    ensures r == if old(m.st).linked then Err(Symlink) else Ok(())
    ensures m.script == Drop(old(m.script), 1) && m.failures == old(m.failures)
    ensures SameFiles(old(m.st), m.after) && m.after.lock == old(m.st).lock
    ensures Upcoming(old(m.script)).others == [] ==> m.st == m.after
    ensures Reached(m, s, json, if r.Ok? then Starting else Returned(Failed(r.error)))
  {
    var t := m.Ask();
    r := if m.st.linked then Err(Symlink) else Ok(());
    m.Take(Begin(s, json), t);
  }

  /** Nothing is in the way: the next name is free, the next inode is new, and no call will fail. */
  predicate Ready(script: seq<Turn>, st: State) {
    Willing(script) && Temp(At(script, 0).name) !in st.dir && At(script, 1).inode !in st.inodes
  }

  /** The first `n` names drawn are all taken. */
  predicate AllTaken(script: seq<Turn>, dir: map<Path, InodeId>, n: nat) {
    forall k :: 0 <= k < n ==> Taken(script, dir, k)
  }

  predicate Taken(script: seq<Turn>, dir: map<Path, InodeId>, k: nat) {
    Temp(At(script, 2 * k).name) in dir
  }

  /** The first `n` attempts: names are drawn until one is free or an attempt fails otherwise. */
  predicate Tried(r: Result<(), SaveError>, st: State, script: seq<Turn>, dir: map<Path, InodeId>, rest: seq<Turn>, n: nat) {
    && (r == Err(AlreadyExists) <==> AllTaken(script, st.dir, n))
    && (r == Err(AlreadyExists) ==> rest == Drop(script, 2 * n) && dir == st.dir)
    && (r.Err? ==> r.error == AlreadyExists || r.error == OtherIo)
    && (Willing(script) ==> Willing(rest))
    && (Ready(script, st) ==> r.Ok?)
  }

  lemma MadeIsTried(r: Result<(), SaveError>, st: State, script: seq<Turn>, dir: map<Path, InodeId>, rest: seq<Turn>)
    requires Made(r, At(script, 0).name, st, Drop(script, 1), dir, rest)
    ensures Tried(r, st, script, dir, rest, 1)
  {
    DropDrop(script, 1, 1);
    assert AllTaken(script, st.dir, 1) <==> Taken(script, st.dir, 0);
  }

  lemma TriedAgain(st: State, script: seq<Turn>, n: nat, r: Result<(), SaveError>, mid: State, rest: seq<Turn>,
                   dir: map<Path, InodeId>, last: seq<Turn>)
    requires Tried(Err(AlreadyExists), st, script, mid.dir, rest, n) && n > 0
    requires Tried(r, mid, rest, dir, last, 1)
    ensures Tried(r, st, script, dir, last, n + 1)
  {
    DropDrop(script, 2 * n, 2);
    DropDrop(script, 2 * n, 0);
    assert AllTaken(rest, mid.dir, 1) <==> Taken(rest, mid.dir, 0);
    assert At(rest, 0) == At(script, 2 * n);
    assert AllTaken(script, st.dir, n + 1) <==> AllTaken(script, st.dir, n) && Taken(script, st.dir, n);
    assert Taken(script, st.dir, 0);
  }

  /** One fresh name and one attempt at it. */
  method TryTemp(m: Machine, s: SaverId, json: string, ghost attempts: nat)
    returns (r: Result<(), SaveError>, tmp: nat, ghost inode: InodeId)
    requires Reached(m, s, json, Locked(attempts))
    modifies m
    ensures old(m.trace) <= m.trace && m.creates == old(m.creates) + 1
    ensures m.failures == old(m.failures) + if r == Err(OtherIo) then 1 else 0
    ensures Tried(r, old(m.st), old(m.script), m.st.dir, m.script, 1)
    ensures Reached(m, s, json, if r.Ok? then Synced(tmp, inode) else Retry(r.error, attempts))
  {
    DropNone(m.script);
    ghost var st, script := m.st, m.script;
    var t := m.Ask();
    tmp := t.name;
    r, inode := WriteNewFile(m, s, tmp, json, attempts);
    MadeIsTried(r, st, script, m.st.dir, m.script);
  }

  /**
    Fresh names until one is free: at most sixteen retries, taken only when a name exists, so
    that error comes out only after all of them, and then every name drawn was taken.
  */
  method WriteTemp(m: Machine, s: SaverId, json: string)
    returns (r: Result<(), SaveError>, tmp: nat, ghost inode: InodeId)
    requires Reached(m, s, json, Locked(0))
    modifies m
    ensures old(m.trace) <= m.trace
    ensures old(m.creates) < m.creates <= old(m.creates) + 1 + MAX_ATTEMPTS
    ensures r == Err(AlreadyExists) ==> m.creates == old(m.creates) + 1 + MAX_ATTEMPTS
    ensures m.failures == old(m.failures) + if r == Err(OtherIo) then 1 else 0
    ensures exists n :: 0 < n <= 1 + MAX_ATTEMPTS && m.creates == old(m.creates) + n
                        && Tried(r, old(m.st), old(m.script), m.st.dir, m.script, n)
    ensures Reached(m, s, json, if r.Ok? then Synced(tmp, inode) else Unlocking(Failed(r.error)))
  {
    ghost var st, script := m.st, m.script;
    var attempts := 0;
    r, tmp, inode := TryTemp(m, s, json, attempts);
    while r == Err(AlreadyExists) && attempts < MAX_ATTEMPTS
      invariant attempts <= MAX_ATTEMPTS && m.creates == old(m.creates) + 1 + attempts
      invariant old(m.trace) <= m.trace
      invariant m.failures == old(m.failures) + if r == Err(OtherIo) then 1 else 0
      invariant Tried(r, st, script, m.st.dir, m.script, attempts + 1)
      invariant Reached(m, s, json, if r.Ok? then Synced(tmp, inode) else Retry(r.error, attempts))
      decreases MAX_ATTEMPTS - attempts
    {
      ghost var mid, rest := m.st, m.script;
      attempts := attempts + 1;
      r, tmp, inode := TryTemp(m, s, json, attempts);
      TriedAgain(st, script, attempts, r, mid, rest, m.st.dir, m.script);
    }
  }

  /** What is at the cassette path, for programs now running and after a power loss. */
  predicate Installed(st: State, json: string) {
    VolatileTarget(st) == DurableTarget(st) == Some(json)
  }

  lemma UnlockShowsSaved(st: State, s: SaverId, json: string, inode: InodeId)
    requires Inv(st) && s in st.savers && st.savers[s] == Saver(json, Unlocking(Saved(inode)))
    ensures Installed(Apply(st, Unlock(s)), json)
  {
    assert Progress(st, s);
    assert Complete(st, st.log[|st.log| - 1]);
    assert st.log[..|st.log|] == st.log;
  }

  /** Dropping the guard releases the lock; until then nobody has replaced what was saved. */
  method ReleaseSaveLock(m: Machine, s: SaverId, ghost json: string, ghost verdict: Verdict)
    requires Reached(m, s, json, Unlocking(verdict))
    modifies m
    ensures old(m.trace) <= m.trace && m.creates == old(m.creates) && m.failures == old(m.failures)
    ensures verdict.Saved? ==> Installed(m.after, json)
    ensures m.last == Some(Unlock(s)) && m.after.lock.None?
    ensures Reached(m, s, json, Returned(verdict))
  {
    LedMeans(m.origin, m.trace, m.st);
    if verdict.Saved? {
      UnlockShowsSaved(m.st, s, json, verdict.inode);
    }
    var t := m.Ask();
    m.Take(Unlock(s), t);
  }

  /**
    Why the critical section ends as it does: it fails only if the system failed a call of it or
    all seventeen names drawn were taken, and it succeeds if nothing is in the way.
  */
  predicate Ended(r: Result<(), SaveError>, st: State, script: seq<Turn>, creates: int, failures: int) {
    && (r.Ok? ==> failures == 0)
    && (r.Err? ==> r.error == AlreadyExists || r.error == OtherIo)
    && (r == Err(AlreadyExists) ==>
          failures == 0 && creates == 1 + MAX_ATTEMPTS && AllTaken(script, st.dir, 1 + MAX_ATTEMPTS))
    && (r == Err(OtherIo) ==> failures > 0)
    && (Ready(script, st) ==> r.Ok?)
  }

  /** The critical section: temp, rename, directory fsync, release. */
  method WriteLocked(m: Machine, s: SaverId, json: string) returns (r: Result<(), SaveError>, ghost inode: InodeId)
    requires Reached(m, s, json, Locked(0))
    modifies m
    ensures old(m.trace) <= m.trace && m.creates <= old(m.creates) + 1 + MAX_ATTEMPTS
    ensures m.last == Some(Unlock(s)) && m.after.lock.None?
    ensures r.Ok? ==> Installed(m.after, json)
    ensures Ended(r, old(m.st), old(m.script), m.creates - old(m.creates), m.failures - old(m.failures))
    ensures Reached(m, s, json, Returned(Outcome(r, inode)))
  {
    var tmp;
    r, tmp, inode := WriteTemp(m, s, json);
    if r.Ok? {
      r := Install(m, s, tmp, inode, json);
    }
    ReleaseSaveLock(m, s, json, Outcome(r, inode));
  }

  ghost function Outcome(r: Result<(), SaveError>, inode: InodeId): Verdict {
    if r.Ok? then Saved(inode) else Failed(r.error)
  }

  /**
    Why a call ends as it does: it fails only if a symlink is there, the lock is held, the system
    fails one of its calls, or all seventeen names are taken. If nobody runs before it asks for
    the lock, it is refused exactly if the lock is held, and succeeds if nothing is in the way.
  */
  predicate Explained(r: Result<(), SaveError>, st: State, script: seq<Turn>, creates: int, failures: int) {
    && (r == Err(Symlink) <==> st.linked)
    && (r.Ok? || r == Err(WouldBlock) ==> failures == 0)
    && (r == Err(AlreadyExists) ==> failures == 0 && creates == 17)
    && (r == Err(OtherIo) ==> failures > 0)
    && (At(script, 0).others == [] && !st.linked && At(script, 1).ok ==>
          && (r == Err(WouldBlock) <==> st.lock.Some?)
          && (st.lock.None? && Ready(Drop(script, 2), st) ==> r.Ok?))
  }

  /**
    The whole call is exactly one saver of the protocol, from `Begin` to `Returned`, and its
    result is the verdict recorded there. On success the text is at the cassette path, on both
    sides of a crash, when the lock is released.
  */
  method WriteCassette(m: Machine, s: SaverId, json: string) returns (r: Result<(), SaveError>, ghost inode: InodeId)
    requires m.Valid() && s !in m.st.savers
    modifies m
    ensures old(m.trace) + [Begin(s, json)] <= m.trace && m.creates <= old(m.creates) + 1 + MAX_ATTEMPTS
    ensures r.Ok? ==> Installed(m.after, json)
    ensures Explained(r, old(m.st), old(m.script), m.creates - old(m.creates), m.failures - old(m.failures))
    ensures Reached(m, s, json, Returned(Outcome(r, inode)))
  {
    inode := 0;
    DropNone(m.script);
    DropDrop(m.script, 1, 0);
    DropDrop(m.script, 1, 1);
    r := RefuseSymlink(m, s, json);
    if r.Ok? {
      r := AcquireSaveLock(m, s, json);
      if r.Ok? {
        r, inode := WriteLocked(m, s, json);
      }
    }
  }
}
