/**
  Concurrent, crash-exposed saves of one cassette file (write_cassette on Unix).

  A saver is one call of write_cassette.  Any number of savers run interleaved over a file
  system with a volatile side (what running programs read) and a durable side (what a power
  loss leaves behind).  The file system promises little: it may write back any single directory
  entry at any time, and until a file is fsync'd its durable bytes are arbitrary.
*/
module SaveProtocol {
  import opened Wrappers

  type SaverId = nat
  type InodeId = nat

  /** The two kinds of name in play: the cassette, and unique sibling temps. */
  datatype Path = Target | Temp(n: nat)

  datatype SaveError = Symlink | WouldBlock | AlreadyExists | OtherIo

  /** A successful save names the inode it installed. */
  datatype Verdict = Saved(inode: InodeId) | Failed(error: SaveError)

  /** Where a call of write_cassette stands. */
  datatype Pc =
    | Starting
    | Locked(attempts: nat)
    | Writing(tmp: nat, inode: InodeId)
    | Synced(tmp: nat, inode: InodeId)
    | Renamed(tmp: nat, inode: InodeId)
    | Cleaning(tmp: nat, error: SaveError)
    | Unlocking(verdict: Verdict)
    | Returned(verdict: Verdict)
    | Dead
  {
    /** Between lock acquisition and release. */
    predicate Critical() {
      Locked? || Writing? || Synced? || Renamed? || Cleaning? || Unlocking?
    }

    predicate Over() {
      Returned? || Dead?
    }

    predicate IsSaved() {
      (Unlocking? || Returned?) && verdict.Saved?
    }
  }

  datatype Saver = Saver(json: string, pc: Pc)

  /** Whose bytes an inode is meant to hold: the cassette found at start, or a saver's. */
  datatype Author = Initial(content: string) | By(saver: SaverId)

  /** While `dirty`, the durable bytes may be anything. */
  datatype Inode = Inode(author: Author, cache: string, disk: string, dirty: bool)

  /**
    `dir`/`durable` are the volatile and durable directories.  `log` lists the inodes installed
    at the target, oldest first; `mark` is how many of them the durable directory has caught up
    with.  `log` and `mark` are history: no step reads them to decide what to do.
  */
  datatype State = State(
    linked: bool,
    savers: map<SaverId, Saver>,
    lock: Option<SaverId>,
    inodes: map<InodeId, Inode>,
    dir: map<Path, InodeId>,
    durable: map<Path, InodeId>,
    log: seq<InodeId>,
    mark: nat)

  const MAX_ATTEMPTS: nat := 16

  datatype Step =
    | Begin(s: SaverId, json: string)
    | TryLock(s: SaverId, ok: bool)
    | Create(s: SaverId, n: nat, i: InodeId, ok: bool)
    | Write(s: SaverId, count: nat, ok: bool)
    | Fsync(s: SaverId, ok: bool)
    | Rename(s: SaverId, ok: bool)
    | SyncDir(s: SaverId, ok: bool)
    | Remove(s: SaverId, ok: bool)
    | Unlock(s: SaverId)
    | Kill(s: SaverId)
    | Writeback(i: InodeId, bytes: string)
    | FlushEntry(p: Path)
    | PowerLoss
  {
    /** True for the steps some saver takes, false for what happens to it. */
    predicate BySaver() {
      !Kill? && !Writeback? && !FlushEntry? && !PowerLoss?
    }
  }

  predicate Enabled(st: State, e: Step) {
    match e
    case Begin(s, _) => s !in st.savers
    case TryLock(s, _) => s in st.savers && st.savers[s].pc.Starting?
    case Create(s, _, i, ok) => s in st.savers && st.savers[s].pc.Locked? && (ok ==> i !in st.inodes)
    case Write(s, count, _) =>
      s in st.savers && st.savers[s].pc.Writing? && st.savers[s].pc.inode in st.inodes
      && |st.inodes[st.savers[s].pc.inode].cache| + count <= |st.savers[s].json|
    case Fsync(s, _) =>
      s in st.savers && st.savers[s].pc.Writing? && st.savers[s].pc.inode in st.inodes
      && |st.inodes[st.savers[s].pc.inode].cache| == |st.savers[s].json|
    case Rename(s, _) => s in st.savers && st.savers[s].pc.Synced?
    case SyncDir(s, _) => s in st.savers && st.savers[s].pc.Renamed?
    case Remove(s, _) => s in st.savers && st.savers[s].pc.Cleaning?
    case Unlock(s) => s in st.savers && st.savers[s].pc.Unlocking?
    case Kill(s) => s in st.savers && !st.savers[s].pc.Over()
    case Writeback(i, _) => i in st.inodes && st.inodes[i].dirty
    case FlushEntry(_) => true
    case PowerLoss => true
  }

  // ---------------------------------------------------------------------------------------
  // One step, component by component

  /** Where saver `e.s` goes next. */
  function NextPc(st: State, e: Step): Pc
    requires Enabled(st, e) && (e.BySaver() || e.Kill?) && !e.Begin?
  {
    var pc := st.savers[e.s].pc;
    match e
    case TryLock(s, ok) =>
      if !ok then Returned(Failed(OtherIo))
      else if st.lock.Some? then Returned(Failed(WouldBlock))
      else Locked(0)
    case Create(s, n, i, ok) =>
      if Temp(n) in st.dir then
        if pc.attempts < MAX_ATTEMPTS then Locked(pc.attempts + 1) else Unlocking(Failed(AlreadyExists))
      else if ok then Writing(n, i) else Unlocking(Failed(OtherIo))
    case Write(_, _, ok) => if ok then pc else Unlocking(Failed(OtherIo))
    case Fsync(_, ok) => if ok then Synced(pc.tmp, pc.inode) else Unlocking(Failed(OtherIo))
    case Rename(_, ok) =>
      if ok && Temp(pc.tmp) in st.dir then Renamed(pc.tmp, st.dir[Temp(pc.tmp)]) else Cleaning(pc.tmp, OtherIo)
    case SyncDir(_, ok) => if ok then Unlocking(Saved(pc.inode)) else Cleaning(pc.tmp, OtherIo)
    case Remove(_, _) => Unlocking(Failed(pc.error))
    case Unlock(_) => Returned(pc.verdict)
    case Kill(_) => Dead
  }

  /** A power loss kills every call still under way. */
  function Halt(savers: map<SaverId, Saver>): map<SaverId, Saver> {
    map s | s in savers :: if savers[s].pc.Over() then savers[s] else savers[s].(pc := Dead)
  }

  function NextSavers(st: State, e: Step): map<SaverId, Saver>
    requires Enabled(st, e)
  {
    match e
    case Begin(s, json) =>
      st.savers[s := Saver(json, if st.linked then Returned(Failed(Symlink)) else Starting)]
    case Writeback(_, _) => st.savers
    case FlushEntry(_) => st.savers
    case PowerLoss => Halt(st.savers)
    case _ => st.savers[e.s := st.savers[e.s].(pc := NextPc(st, e))]
  }

  function NextLock(st: State, e: Step): Option<SaverId> {
    match e
    case TryLock(s, ok) => if ok && st.lock.None? then Some(s) else st.lock
    case Unlock(_) => None
    case Kill(s) => if st.lock == Some(s) then None else st.lock
    case PowerLoss => None
    case _ => st.lock
  }

  /** After a power loss the page cache is what reached the disk. */
  function Reread(inodes: map<InodeId, Inode>): map<InodeId, Inode> {
    map i | i in inodes :: inodes[i].(cache := inodes[i].disk, dirty := false)
  }

  function NextInodes(st: State, e: Step): map<InodeId, Inode>
    requires Enabled(st, e)
  {
    match e
    case Create(s, n, i, ok) =>
      if Temp(n) !in st.dir && ok then st.inodes[i := Inode(By(s), "", "", true)] else st.inodes
    case Write(s, count, ok) =>
      var i := st.savers[s].pc.inode;
      var f := st.inodes[i];
      if ok then st.inodes[i := f.(cache := st.savers[s].json[..|f.cache| + count], dirty := true)] else st.inodes
    case Fsync(s, ok) =>
      var i := st.savers[s].pc.inode;
      var f := st.inodes[i];
      if ok then st.inodes[i := f.(disk := f.cache, dirty := false)] else st.inodes
    case Writeback(i, bytes) => st.inodes[i := st.inodes[i].(disk := bytes)]
    case PowerLoss => Reread(st.inodes)
    case _ => st.inodes
  }

  /** Whether `e` is a rename that takes place. */
  predicate Renames(st: State, e: Step)
    requires Enabled(st, e)
  {
    e.Rename? && e.ok && Temp(st.savers[e.s].pc.tmp) in st.dir
  }

  function NextDir(st: State, e: Step): map<Path, InodeId>
    requires Enabled(st, e)
  {
    match e
    case Create(s, n, i, ok) => if Temp(n) !in st.dir && ok then st.dir[Temp(n) := i] else st.dir
    case Rename(s, _) =>
      var tmp := Temp(st.savers[s].pc.tmp);
      if Renames(st, e) then (st.dir - {tmp})[Target := st.dir[tmp]] else st.dir
    case Remove(s, ok) => if ok then st.dir - {Temp(st.savers[s].pc.tmp)} else st.dir
    case PowerLoss => st.durable
    case _ => st.dir
  }

  function NextDurable(st: State, e: Step): map<Path, InodeId> {
    match e
    case SyncDir(_, ok) => if ok then st.dir else st.durable
    case FlushEntry(p) => if p in st.dir then st.durable[p := st.dir[p]] else st.durable - {p}
    case _ => st.durable
  }

  function NextLog(st: State, e: Step): seq<InodeId>
    requires Enabled(st, e)
  {
    match e
    case Rename(s, _) =>
      if Renames(st, e) then st.log + [st.dir[Temp(st.savers[s].pc.tmp)]] else st.log
    case PowerLoss => if st.mark <= |st.log| then st.log[..st.mark] else st.log
    case _ => st.log
  }

  function NextMark(st: State, e: Step): nat {
    match e
    case SyncDir(_, ok) => if ok then |st.log| else st.mark
    case FlushEntry(p) => if p.Target? then |st.log| else st.mark
    case _ => st.mark
  }

  function Apply(st: State, e: Step): State
    requires Enabled(st, e)
  {
    State(st.linked, NextSavers(st, e), NextLock(st, e), NextInodes(st, e),
          NextDir(st, e), NextDurable(st, e), NextLog(st, e), NextMark(st, e))
  }

  /** How little is promised: at any moment any entry may reach the disk, a file that is not clean may hold anything. */
  lemma WorldMayWrite(st: State, p: Path, i: InodeId, bytes: string)
    ensures Enabled(st, FlushEntry(p))
    ensures var flushed := Apply(st, FlushEntry(p));
      && (p in flushed.durable <==> p in st.dir) && (p in st.dir ==> flushed.durable[p] == st.dir[p])
      && (forall q :: q != p ==> (q in flushed.durable <==> q in st.durable))
      && (forall q :: q != p && q in st.durable ==> flushed.durable[q] == st.durable[q])
      && flushed.dir == st.dir && flushed.inodes == st.inodes && flushed.savers == st.savers && flushed.lock == st.lock
    ensures i in st.inodes && st.inodes[i].dirty ==>
              && Enabled(st, Writeback(i, bytes))
              && Apply(st, Writeback(i, bytes)).inodes == st.inodes[i := st.inodes[i].(disk := bytes)]
              && Apply(st, Writeback(i, bytes)).dir == st.dir && Apply(st, Writeback(i, bytes)).durable == st.durable
  {
  }

  /** A call the system fails leaves every file and name, in memory and on disk, as they were. */
  lemma FailedCallChangesNothing(st: State, e: Step)
    requires Enabled(st, e) && e.BySaver() && !e.Begin? && !e.Unlock? && !e.ok
    ensures var after := Apply(st, e);
      after.dir == st.dir && after.durable == st.durable && after.inodes == st.inodes
  {
  }

  /** Written bytes are in memory only until a fsync makes exactly those of the file durable. */
  lemma WriteThenFsync(st: State, s: SaverId, count: nat)
    ensures Enabled(st, Write(s, count, true)) ==>
              var i := st.savers[s].pc.inode;
              var file, written := st.inodes[i], Apply(st, Write(s, count, true)).inodes[i];
              && |written.cache| == |file.cache| + count && written.cache == st.savers[s].json[..|file.cache| + count]
              && written.disk == file.disk && written.dirty
    ensures Enabled(st, Fsync(s, true)) ==>
              var i := st.savers[s].pc.inode;
              var file, synced := st.inodes[i], Apply(st, Fsync(s, true)).inodes[i];
              synced.cache == synced.disk == file.cache && !synced.dirty
  {
  }

  /** At any moment power may fail: what was durable is all there is, and every call under way is dead. */
  lemma PowerMayFail(st: State)
    ensures Enabled(st, PowerLoss)
    ensures var after := Apply(st, PowerLoss);
      && after.dir == after.durable == st.durable && after.lock.None?
      && (forall i :: i in after.inodes <==> i in st.inodes)
      && (forall i :: i in st.inodes ==> after.inodes[i].cache == after.inodes[i].disk == st.inodes[i].disk)
      && (forall s :: s in st.savers ==> s in after.savers && after.savers[s].pc.Over())
  {
  }

  /** At any moment a call under way may die; its lock is free then, its files stay as they are. */
  lemma SaverMayDie(st: State, s: SaverId)
    requires s in st.savers && !st.savers[s].pc.Over()
    ensures Enabled(st, Kill(s))
    ensures var after := Apply(st, Kill(s));
      && after.savers[s].pc.Dead? && after.lock == (if st.lock == Some(s) then None else st.lock)
      && after.dir == st.dir && after.durable == st.durable && after.inodes == st.inodes
  {
  }

  // ---------------------------------------------------------------------------------------
  // Runs

  predicate Runs(st: State, steps: seq<Step>)
    decreases |steps|
  {
    steps == [] || (Enabled(st, steps[0]) && Runs(Apply(st, steps[0]), steps[1..]))
  }

  function Final(st: State, steps: seq<Step>): State
    requires Runs(st, steps)
    decreases |steps|
  {
    if steps == [] then st else Final(Apply(st, steps[0]), steps[1..])
  }

  /** No saver yet; the target is absent, holds `prev`, or is a planted symlink. */
  predicate Init(st: State, prev: Option<string>) {
    && st.savers == map[]
    && st.lock.None?
    && st.dir == st.durable
    && st.mark == |st.log|
    && match prev
       case None => st.log == [] && st.inodes == map[] && st.dir == map[]
       case Some(content) =>
         && st.log == [0]
         && st.inodes == map[0 := Inode(Initial(content), content, content, false)]
         && st.dir == map[Target := 0]
  }

  // ---------------------------------------------------------------------------------------
  // The invariant

  /** What the author of `a` meant to store. */
  function Intended(st: State, a: Author): string {
    match a
    case Initial(content) => content
    case By(s) => if s in st.savers then st.savers[s].json else ""
  }

  /** Fully written, and just as its author meant it, on both sides of a crash. */
  predicate Complete(st: State, i: InodeId) {
    && i in st.inodes
    && !st.inodes[i].dirty
    && st.inodes[i].cache == st.inodes[i].disk == Intended(st, st.inodes[i].author)
  }

  predicate Exclusive(st: State) {
    && (forall s :: s in st.savers ==> (st.savers[s].pc.Critical() <==> st.lock == Some(s)))
    && (st.lock.Some? ==> st.lock.value in st.savers)
  }

  predicate Installed(dir: map<Path, InodeId>, log: seq<InodeId>) {
    if log == [] then Target !in dir else Target in dir && dir[Target] == log[|log| - 1]
  }

  predicate History(st: State) {
    && st.mark <= |st.log|
    && Installed(st.dir, st.log)
    && Installed(st.durable, st.log[..st.mark])
    && (forall k :: 0 <= k < |st.log| ==> Complete(st, st.log[k]))
    && (forall k :: 0 < k < |st.log| ==> st.inodes[st.log[k]].author.By?)
  }

  predicate Linked(st: State) {
    && (forall p :: p in st.dir ==> st.dir[p] in st.inodes)
    && (forall p :: p in st.durable ==> st.durable[p] in st.inodes)
    && (forall i :: i in st.inodes && st.inodes[i].author.By? ==> st.inodes[i].author.saver in st.savers)
  }

  predicate OwnTemp(st: State, s: SaverId, tmp: nat, i: InodeId) {
    && Temp(tmp) in st.dir && st.dir[Temp(tmp)] == i
    && i in st.inodes && st.inodes[i].author == By(s)
    && i !in st.log
  }

  /** What each saver may rely on about the temp it made and the inode it installed. */
  predicate Progress(st: State, s: SaverId)
    requires s in st.savers
  {
    match st.savers[s].pc
    case Writing(tmp, i) => OwnTemp(st, s, tmp, i) && st.inodes[i].cache <= st.savers[s].json
    case Synced(tmp, i) => OwnTemp(st, s, tmp, i) && Complete(st, i)
    case Renamed(tmp, i) =>
      && st.log != [] && st.log[|st.log| - 1] == i
      && Complete(st, i) && st.inodes[i].author == By(s)
      && Temp(tmp) !in st.dir
    case Cleaning(tmp, _) =>
      Temp(tmp) in st.dir ==> st.dir[Temp(tmp)] in st.inodes && st.inodes[st.dir[Temp(tmp)]].author == By(s)
    case Unlocking(Saved(i)) =>
      && st.log != [] && st.log[|st.log| - 1] == i && st.mark == |st.log|
      && i in st.inodes && st.inodes[i].author == By(s)
    case Returned(Saved(i)) => i in st.log[..Min(st.mark, |st.log|)] && i in st.inodes && st.inodes[i].author == By(s)
    case _ => true
  }

  function Min(a: nat, b: nat): nat {
    if a <= b then a else b
  }

  predicate Inv(st: State) {
    && Exclusive(st)
    && History(st)
    && Linked(st)
    && (forall s :: s in st.savers ==> Progress(st, s))
    && Refused(st)
  }

  /** With a symlink at the path no call gets past the check. */
  predicate Refused(st: State) {
    st.linked ==> forall s :: s in st.savers ==> st.savers[s].pc == Returned(Failed(Symlink)) || st.savers[s].pc.Dead?
  }

  lemma InitHolds(st: State, prev: Option<string>)
    requires Init(st, prev)
    ensures Inv(st)
  {
  }

  // ---------------------------------------------------------------------------------------
  // Every step keeps it: first the parts that hold step by step

  lemma StepKeepsExclusive(st: State, e: Step)
    requires Exclusive(st) && Enabled(st, e)
    ensures Exclusive(Apply(st, e))
  {
  }

  lemma StepKeepsLinked(st: State, e: Step)
    requires Linked(st) && Enabled(st, e)
    ensures Linked(Apply(st, e))
  {
  }

  lemma StepKeepsRefused(st: State, e: Step)
    requires Refused(st) && Enabled(st, e)
    ensures Refused(Apply(st, e))
  {
  }

  // The installed files.

  /** Neither the target's entries nor an installed file changed. */
  predicate SameHistory(a: State, b: State) {
    && b.log == a.log && b.mark == a.mark
    && (Target in b.dir <==> Target in a.dir) && (Target in a.dir ==> b.dir[Target] == a.dir[Target])
    && (Target in b.durable <==> Target in a.durable) && (Target in a.durable ==> b.durable[Target] == a.durable[Target])
  }

  predicate SameInstalled(a: State, b: State, log: seq<InodeId>) {
    forall k :: 0 <= k < |log| && log[k] in a.inodes ==>
      && log[k] in b.inodes && b.inodes[log[k]] == a.inodes[log[k]]
      && Intended(b, a.inodes[log[k]].author) == Intended(a, a.inodes[log[k]].author)
  }

  lemma SameHistoryKeeps(a: State, b: State)
    requires History(a) && SameHistory(a, b) && SameInstalled(a, b, a.log)
    ensures History(b)
  {
    forall k | 0 <= k < |a.log|
      ensures Complete(b, b.log[k])
    {
      assert Complete(a, a.log[k]);
    }
  }

  /** What the lock holder writes to is not installed yet. */
  lemma WriteSparesInstalled(st: State, e: Step)
    requires Inv(st) && Enabled(st, e) && (e.Write? || e.Fsync?)
    ensures SameInstalled(st, Apply(st, e), st.log)
  {
    assert Progress(st, e.s);
  }

  /** An installed file is never dirty, so nothing is written back to it. */
  lemma WritebackSparesInstalled(st: State, e: Step)
    requires Inv(st) && Enabled(st, e) && e.Writeback?
    ensures SameInstalled(st, Apply(st, e), st.log)
  {
    forall k | 0 <= k < |st.log|
      ensures Complete(st, st.log[k])
    {
    }
  }

  lemma StepSparesInstalled(st: State, e: Step)
    requires Inv(st) && Enabled(st, e) && !e.PowerLoss?
    ensures SameInstalled(st, Apply(st, e), st.log)
  {
    if e.Write? || e.Fsync? {
      WriteSparesInstalled(st, e);
    } else if e.Writeback? {
      WritebackSparesInstalled(st, e);
    } else {
      OtherStepSparesInodes(st, e);
    }
  }

  lemma OtherStepSparesInodes(st: State, e: Step)
    requires Linked(st) && Enabled(st, e) && !e.PowerLoss? && !e.Write? && !e.Fsync? && !e.Writeback?
    ensures forall i :: i in st.inodes ==> i in Apply(st, e).inodes && Apply(st, e).inodes[i] == st.inodes[i]
    ensures SameInstalled(st, Apply(st, e), st.log)
  {
  }

  lemma RenameKeepsHistory(st: State, e: Step)
    requires Inv(st) && Enabled(st, e) && e.Rename? && Renames(st, e)
    ensures History(Apply(st, e))
  {
    var st' := Apply(st, e);
    assert Progress(st, e.s);
    StepSparesInstalled(st, e);
    assert st'.log[..st'.mark] == st.log[..st.mark];
    forall k | 0 <= k < |st'.log|
      ensures Complete(st', st'.log[k])
    {
      if k < |st.log| {
        assert Complete(st, st.log[k]);
      }
    }
  }

  lemma SyncDirKeepsHistory(st: State, e: Step)
    requires Inv(st) && Enabled(st, e) && e.SyncDir?
    ensures History(Apply(st, e))
  {
    var st' := Apply(st, e);
    StepSparesInstalled(st, e);
    SameHistoryKeeps(st, st'.(durable := st.durable, mark := st.mark));
    assert st.log[..|st.log|] == st.log;
  }

  lemma FlushEntryKeepsHistory(st: State, e: Step)
    requires Inv(st) && Enabled(st, e) && e.FlushEntry?
    ensures History(Apply(st, e))
  {
    var st' := Apply(st, e);
    SameHistoryKeeps(st, st'.(durable := st.durable, mark := st.mark));
    assert st.log[..|st.log|] == st.log;
  }

  lemma PowerLossKeepsHistory(st: State)
    requires Inv(st)
    ensures History(Apply(st, PowerLoss))
  {
    var st' := Apply(st, PowerLoss);
    assert st'.log[..st'.mark] == st'.log == st.log[..st.mark];
    forall k | 0 <= k < |st'.log|
      ensures Complete(st', st'.log[k])
    {
      assert Complete(st, st.log[k]);
    }
  }

  lemma StepKeepsHistory(st: State, e: Step)
    requires Inv(st) && Enabled(st, e)
    ensures History(Apply(st, e))
  {
    if e.SyncDir? {
      SyncDirKeepsHistory(st, e);
    } else if e.FlushEntry? {
      FlushEntryKeepsHistory(st, e);
    } else if e.PowerLoss? {
      PowerLossKeepsHistory(st);
    } else if Renames(st, e) {
      RenameKeepsHistory(st, e);
    } else {
      StepSparesInstalled(st, e);
      SameHistoryKeeps(st, Apply(st, e));
    }
  }

  // ---------------------------------------------------------------------------------------
  // What no step ever undoes

  /** Savers keep their text, inodes their author, and the durable history only grows. */
  predicate Grows(a: State, b: State) {
    && (forall s :: s in a.savers ==> s in b.savers && b.savers[s].json == a.savers[s].json)
    && (forall s :: s in a.savers && a.savers[s].pc.Over() ==> b.savers[s].pc == a.savers[s].pc)
    && (forall i :: i in a.inodes ==> i in b.inodes && b.inodes[i].author == a.inodes[i].author)
    && (forall i :: i in b.inodes && i !in a.inodes ==> b.inodes[i].author.By?)
    && a.mark <= b.mark <= |b.log| && a.mark <= |a.log| && b.log[..a.mark] == a.log[..a.mark]
  }

  lemma StepGrows(st: State, e: Step)
    requires Enabled(st, e) && st.mark <= |st.log|
    ensures Grows(st, Apply(st, e))
  {
    var st' := Apply(st, e);
    assert st'.log[..st.mark] == st.log[..st.mark];
  }

  lemma RunGrows(st: State, steps: seq<Step>)
    requires Runs(st, steps) && st.mark <= |st.log|
    ensures Grows(st, Final(st, steps))
    decreases |steps|
  {
    if steps != [] {
      var mid := Apply(st, steps[0]);
      var end := Final(st, steps);
      StepGrows(st, steps[0]);
      RunGrows(mid, steps[1..]);
      assert end.log[..mid.mark][..st.mark] == end.log[..st.mark];
      assert mid.log[..mid.mark][..st.mark] == mid.log[..st.mark];
    }
  }

  // ---------------------------------------------------------------------------------------
  // What each saver relies on

  /** A saver that holds no lock relies on the durable history only. */
  lemma BystanderProgress(a: State, b: State, t: SaverId)
    requires t in a.savers && t in b.savers && b.savers[t].pc == a.savers[t].pc && !a.savers[t].pc.Critical()
    requires Progress(a, t) && Grows(a, b)
    ensures Progress(b, t)
  {
    assert b.log[..a.mark] <= b.log[..Min(b.mark, |b.log|)];
  }

  /** With files and history as they were, a saver that stayed put still has what it relies on. */
  lemma SettledProgress(a: State, b: State, t: SaverId)
    requires t in a.savers && t in b.savers && b.savers[t] == a.savers[t] && Progress(a, t)
    requires a.inodes == b.inodes && a.dir == b.dir && a.log == b.log && a.mark == b.mark
    ensures Progress(b, t)
  {
  }

  lemma OwnStepProgress(st: State, e: Step)
    requires Inv(st) && Enabled(st, e) && e.BySaver() && !e.Write? && !e.Fsync? && !e.Rename? && !e.SyncDir?
    ensures Progress(Apply(st, e), e.s)
  {
    if e.s in st.savers {
      assert Progress(st, e.s);
    }
  }

  lemma WriteProgress(st: State, e: Step)
    requires Inv(st) && Enabled(st, e) && (e.Write? || e.Fsync?)
    ensures Progress(Apply(st, e), e.s)
  {
    assert Progress(st, e.s);
  }

  lemma InstallProgress(st: State, e: Step)
    requires Inv(st) && Enabled(st, e) && (e.Rename? || e.SyncDir?)
    ensures Progress(Apply(st, e), e.s)
  {
    assert Progress(st, e.s);
    StepKeepsHistory(st, e);
    assert st.log[..|st.log|] == st.log;
  }

  lemma WritebackProgress(st: State, e: Step, t: SaverId)
    requires Inv(st) && Enabled(st, e) && e.Writeback? && t in st.savers
    ensures Progress(Apply(st, e), t)
  {
    assert Progress(st, t);
  }

  lemma FlushEntryProgress(st: State, e: Step, t: SaverId)
    requires Inv(st) && Enabled(st, e) && e.FlushEntry? && t in st.savers
    ensures Progress(Apply(st, e), t)
  {
    assert Progress(st, t);
    var st' := Apply(st, e);
    assert forall i :: i in st.log[..st.mark] ==> i in st'.log[..st'.mark];
  }

  lemma OwnProgress(st: State, e: Step)
    requires Inv(st) && Enabled(st, e) && e.BySaver()
    ensures Progress(Apply(st, e), e.s)
  {
    if e.Write? || e.Fsync? {
      WriteProgress(st, e);
    } else if e.Rename? || e.SyncDir? {
      InstallProgress(st, e);
    } else {
      OwnStepProgress(st, e);
    }
  }

  lemma OthersProgress(st: State, e: Step, t: SaverId)
    requires Inv(st) && Enabled(st, e) && t in st.savers && (e.BySaver() || e.Kill?) && t != e.s
    ensures Progress(Apply(st, e), t)
  {
    assert Progress(st, t);
    if e.Begin? || e.TryLock? || e.Kill? {
      SettledProgress(st, Apply(st, e), t);
    } else {
      StepGrows(st, e);
      BystanderProgress(st, Apply(st, e), t);
    }
  }

  lemma PowerLossProgress(st: State, t: SaverId)
    requires Inv(st) && t in st.savers
    ensures Progress(Apply(st, PowerLoss), t)
  {
    assert Progress(st, t);
    StepGrows(st, PowerLoss);
    if st.savers[t].pc.Over() {
      BystanderProgress(st, Apply(st, PowerLoss), t);
    }
  }

  lemma StepKeepsProgress(st: State, e: Step, t: SaverId)
    requires Inv(st) && Enabled(st, e) && t in Apply(st, e).savers
    ensures Progress(Apply(st, e), t)
  {
    if e.Writeback? {
      WritebackProgress(st, e, t);
    } else if e.FlushEntry? {
      FlushEntryProgress(st, e, t);
    } else if e.PowerLoss? {
      PowerLossProgress(st, t);
    } else if t != e.s {
      OthersProgress(st, e, t);
    } else if e.BySaver() {
      OwnProgress(st, e);
    }
  }

  lemma StepKeepsInv(st: State, e: Step)
    requires Inv(st) && Enabled(st, e)
    ensures Inv(Apply(st, e))
  {
    StepKeepsExclusive(st, e);
    StepKeepsHistory(st, e);
    StepKeepsLinked(st, e);
    StepKeepsRefused(st, e);
    forall t | t in Apply(st, e).savers
      ensures Progress(Apply(st, e), t)
    {
      StepKeepsProgress(st, e, t);
    }
  }

  lemma RunKeepsInv(st: State, steps: seq<Step>)
    requires Inv(st) && Runs(st, steps)
    ensures Inv(Final(st, steps))
    decreases |steps|
  {
    if steps != [] {
      StepKeepsInv(st, steps[0]);
      RunKeepsInv(Apply(st, steps[0]), steps[1..]);
    }
  }

  // ---------------------------------------------------------------------------------------
  // Crash atomicity: the cassette is never partial

  /** What a running program reads at the cassette path. */
  function VolatileTarget(st: State): Option<string> {
    if Target in st.dir && st.dir[Target] in st.inodes then Some(st.inodes[st.dir[Target]].cache) else None
  }

  /** What a program started after a power loss would read there. */
  function DurableTarget(st: State): Option<string> {
    if Target in st.durable && st.durable[Target] in st.inodes then Some(st.inodes[st.durable[Target]].disk) else None
  }

  predicate Whole(st: State, prev: Option<string>, content: Option<string>) {
    content == prev || exists s :: s in st.savers && content == Some(st.savers[s].json)
  }

  /** Ties the history to the cassette that was there at the start. */
  predicate Rooted(st: State, prev: Option<string>) {
    && (prev.Some? ==> st.mark >= 1)
    && (forall i :: i in st.inodes && st.inodes[i].author.Initial? ==> prev == Some(st.inodes[i].author.content))
  }

  lemma RunKeepsRooted(st: State, steps: seq<Step>, prev: Option<string>)
    requires Inv(st) && Rooted(st, prev) && Runs(st, steps)
    ensures Rooted(Final(st, steps), prev)
  {
    RunGrows(st, steps);
  }

  /**
    Any number of savers, any interleaving, a process death or power loss anywhere: on both
    sides of a crash the cassette is byte for byte the previous one or some saver's new one.
  */
  lemma CrashAtomicity(st: State, steps: seq<Step>, prev: Option<string>)
    requires Init(st, prev) && Runs(st, steps)
    ensures Whole(Final(st, steps), prev, VolatileTarget(Final(st, steps)))
    ensures Whole(Final(st, steps), prev, DurableTarget(Final(st, steps)))
  {
    InitHolds(st, prev);
    RunKeepsInv(st, steps);
    RunKeepsRooted(st, steps, prev);
    var end := Final(st, steps);
    if end.log != [] {
      assert Complete(end, end.log[|end.log| - 1]);
    }
    if end.mark > 0 {
      assert Complete(end, end.log[end.mark - 1]);
    }
  }

  // ---------------------------------------------------------------------------------------
  // Mutual exclusion and ownership of temps

  /** Files and directories: everything a refused saver must leave alone. */
  predicate SameFiles(a: State, b: State) {
    a.inodes == b.inodes && a.dir == b.dir && a.durable == b.durable
  }

  predicate Foreign(st: State, s: SaverId, p: Path) {
    p in st.dir && st.dir[p] in st.inodes && st.inodes[st.dir[p]].author != By(s)
  }

  /** In every reachable state at most one saver is between lock and release. */
  lemma OneWriter(st: State, steps: seq<Step>, prev: Option<string>, a: SaverId, b: SaverId)
    requires Init(st, prev) && Runs(st, steps)
    requires a in Final(st, steps).savers && Final(st, steps).savers[a].pc.Critical()
    requires b in Final(st, steps).savers && Final(st, steps).savers[b].pc.Critical()
    ensures a == b
  {
    InitHolds(st, prev);
    RunKeepsInv(st, steps);
  }

  /** Losing the race for the lock is reported as such and touches no file. */
  lemma RefusedSaverTouchesNothing(st: State, s: SaverId, t: SaverId)
    requires Inv(st) && Enabled(st, TryLock(s, true))
    requires t in st.savers && st.savers[t].pc.Critical()
    ensures Apply(st, TryLock(s, true)).savers[s].pc == Returned(Failed(WouldBlock))
    ensures SameFiles(st, Apply(st, TryLock(s, true)))
    ensures Apply(st, TryLock(s, true)).lock == Some(t)
  {
  }

  /** A saver's step leaves every temp made by another saver where and as it was. */
  lemma StepSparesForeignTemps(st: State, e: Step, n: nat)
    requires Inv(st) && Enabled(st, e) && e.BySaver() && Foreign(st, e.s, Temp(n))
    ensures var st' := Apply(st, e);
            && Temp(n) in st'.dir && st'.dir[Temp(n)] == st.dir[Temp(n)]
            && st'.dir[Temp(n)] in st'.inodes && st'.inodes[st'.dir[Temp(n)]] == st.inodes[st.dir[Temp(n)]]
  {
  }

  /** A temp that appears was made by the saver that took the step. */
  lemma StepOwnsNewTemps(st: State, e: Step, n: nat)
    requires Inv(st) && Enabled(st, e) && e.BySaver()
    requires Temp(n) !in st.dir && Temp(n) in Apply(st, e).dir
    ensures e.Create? && st.lock == Some(e.s)
    ensures var st' := Apply(st, e);
            st'.dir[Temp(n)] in st'.inodes && st'.inodes[st'.dir[Temp(n)]].author == By(e.s)
  {
  }

  /** The cassette changes only when the lock holder renames its own complete file over it. */
  lemma StepReplacesWhole(st: State, e: Step)
    requires Inv(st) && Enabled(st, e) && e.BySaver() && VolatileTarget(Apply(st, e)) != VolatileTarget(st)
    ensures e.Rename? && e.ok && st.lock == Some(e.s)
    ensures VolatileTarget(Apply(st, e)) == Some(st.savers[e.s].json)
  {
  }

  // ---------------------------------------------------------------------------------------
  // Durability of a successful save

  /** `base` is durable and ends in `s`'s save; whatever follows it was installed by others. */
  predicate Settled(st: State, base: seq<InodeId>, s: SaverId) {
    && s in st.savers && (st.savers[s].pc.Unlocking? || st.savers[s].pc.Over())
    && |base| <= st.mark <= |st.log| && st.log[..|base|] == base
    && (forall k :: |base| <= k < |st.log| ==> st.log[k] in st.inodes && st.inodes[st.log[k]].author != By(s))
  }

  lemma RenameKeepsSettled(st: State, e: Step, base: seq<InodeId>, s: SaverId)
    requires Inv(st) && Enabled(st, e) && Settled(st, base, s) && e.Rename?
    ensures Settled(Apply(st, e), base, s)
  {
  }

  lemma StepKeepsSettled(st: State, e: Step, base: seq<InodeId>, s: SaverId)
    requires Inv(st) && Enabled(st, e) && Settled(st, base, s)
    ensures Settled(Apply(st, e), base, s)
  {
    if e.Rename? {
      RenameKeepsSettled(st, e, base, s);
    } else {
      OtherStepKeepsSettled(st, e, base, s);
    }
  }

  lemma OtherStepKeepsSettled(st: State, e: Step, base: seq<InodeId>, s: SaverId)
    requires Enabled(st, e) && Settled(st, base, s) && !e.Rename?
    ensures Settled(Apply(st, e), base, s)
  {
  }

  lemma RunKeepsSettled(st: State, steps: seq<Step>, base: seq<InodeId>, s: SaverId)
    requires Inv(st) && Runs(st, steps) && Settled(st, base, s)
    ensures Settled(Final(st, steps), base, s)
    decreases |steps|
  {
    if steps != [] {
      StepKeepsInv(st, steps[0]);
      StepKeepsSettled(st, steps[0], base, s);
      RunKeepsSettled(Apply(st, steps[0]), steps[1..], base, s);
    }
  }

  predicate AuthoredBy(st: State, i: InodeId, t: SaverId) {
    i in st.inodes && st.inodes[i].author == By(t)
  }

  /**
    Saver `s`'s file is the k-th installed and is durable; the durable cassette is that file, or
    one installed after it, by another saver.
  */
  ghost predicate DurableFrom(st: State, k: nat, s: SaverId) {
    && k < st.mark <= |st.log|
    && s in st.savers && AuthoredBy(st, st.log[k], s) && Complete(st, st.log[k])
    && Target in st.durable && st.durable[Target] == st.log[st.mark - 1]
    && if st.mark == k + 1 then DurableTarget(st) == Some(st.savers[s].json)
       else exists t :: t in st.savers && t != s && AuthoredBy(st, st.log[st.mark - 1], t)
                        && DurableTarget(st) == Some(st.savers[t].json)
  }

  lemma DurableAt(st: State, k: nat, s: SaverId)
    requires Inv(st) && k < st.mark && AuthoredBy(st, st.log[k], s)
    requires forall l :: k < l < |st.log| ==> !AuthoredBy(st, st.log[l], s)
    ensures DurableFrom(st, k, s)
  {
    var last := st.log[st.mark - 1];
    assert Complete(st, last);
    assert st.log[..st.mark][st.mark - 1] == last;
    assert AuthoredBy(st, last, st.inodes[last].author.saver);
  }

  /**
    From the moment the directory fsync of saver `s` succeeds, whatever happens next: the history
    up to and including `s`'s file stays durable, so no crash rolls it back, and the durable
    cassette is `s`'s file or one that another saver installed after it.
  */
  lemma SavedIsDurable(st: State, s: SaverId, steps: seq<Step>)
    requires Inv(st) && Enabled(st, SyncDir(s, true)) && Runs(Apply(st, SyncDir(s, true)), steps)
    ensures var saved := Apply(st, SyncDir(s, true));
            var end := Final(saved, steps);
            && 0 < |saved.log| <= end.mark <= |end.log| && end.log[..|saved.log|] == saved.log
            && DurableFrom(end, |saved.log| - 1, s) && end.savers[s].json == st.savers[s].json
  {
    var saved := Apply(st, SyncDir(s, true));
    SyncDirSettles(st, s);
    StepKeepsInv(st, SyncDir(s, true));
    SettledIsDurable(saved, steps, saved.log, s);
    RunGrows(saved, steps);
  }

  lemma SyncDirSettles(st: State, s: SaverId)
    requires Inv(st) && Enabled(st, SyncDir(s, true))
    ensures var saved := Apply(st, SyncDir(s, true));
      && Settled(saved, saved.log, s) && saved.savers[s].json == st.savers[s].json
      && saved.log != [] && AuthoredBy(saved, saved.log[|saved.log| - 1], s)
  {
    assert Progress(st, s);
  }

  lemma SettledIsDurable(st: State, steps: seq<Step>, base: seq<InodeId>, s: SaverId)
    requires Inv(st) && Runs(st, steps) && Settled(st, base, s)
    requires base != [] && AuthoredBy(st, base[|base| - 1], s)
    ensures var end := Final(st, steps);
      |base| <= end.mark <= |end.log| && end.log[..|base|] == base && DurableFrom(end, |base| - 1, s)
  {
    var end := Final(st, steps);
    RunKeepsInv(st, steps);
    RunKeepsSettled(st, steps, base, s);
    RunGrows(st, steps);
    assert end.log[..|base|][|base| - 1] == end.log[|base| - 1];
    DurableAt(end, |base| - 1, s);
  }

  // ---------------------------------------------------------------------------------------
  // Every saver installs at most once

  predicate DistinctAuthors(st: State) {
    forall k, l :: 0 <= k < l < |st.log| && st.log[k] in st.inodes && st.log[l] in st.inodes ==>
      st.inodes[st.log[k]].author != st.inodes[st.log[l]].author
  }

  predicate Early(pc: Pc) {
    pc.Starting? || pc.Locked? || pc.Writing? || pc.Synced?
  }

  /** A saver that has not renamed yet has installed nothing. */
  predicate EarlyInstalledNone(st: State) {
    forall s, k :: s in st.savers && Early(st.savers[s].pc) && 0 <= k < |st.log| ==> !AuthoredBy(st, st.log[k], s)
  }

  lemma RenameKeepsDistinct(st: State, e: Step)
    requires Inv(st) && DistinctAuthors(st) && EarlyInstalledNone(st) && Enabled(st, e) && e.Rename?
    ensures DistinctAuthors(Apply(st, e))
  {
    assert Progress(st, e.s);
  }

  lemma RenameKeepsEarly(st: State, e: Step)
    requires Inv(st) && EarlyInstalledNone(st) && Enabled(st, e) && e.Rename?
    ensures EarlyInstalledNone(Apply(st, e))
  {
    assert Progress(st, e.s);
  }

  lemma OtherStepKeepsDistinct(st: State, e: Step)
    requires Inv(st) && DistinctAuthors(st) && Enabled(st, e) && !e.Rename?
    ensures DistinctAuthors(Apply(st, e))
  {
    OtherStepLog(st, e);
  }

  lemma OtherStepKeepsEarly(st: State, e: Step)
    requires Inv(st) && EarlyInstalledNone(st) && Enabled(st, e) && !e.Rename?
    ensures EarlyInstalledNone(Apply(st, e))
  {
    OtherStepLog(st, e);
    OtherStepEarly(st, e);
  }

  lemma OtherStepLog(st: State, e: Step)
    requires Inv(st) && Enabled(st, e) && !e.Rename?
    ensures var st' := Apply(st, e);
      && st'.log <= st.log
      && forall k :: 0 <= k < |st.log| ==>
           && st.log[k] in st.inodes && st.log[k] in st'.inodes
           && st'.inodes[st.log[k]].author == st.inodes[st.log[k]].author
  {
    StepGrows(st, e);
    forall k | 0 <= k < |st.log|
      ensures Complete(st, st.log[k])
    {
    }
  }

  /** Who is early after a step was early before it, or has just begun. */
  lemma OtherStepEarly(st: State, e: Step)
    requires Linked(st) && Enabled(st, e)
    ensures forall s :: s in Apply(st, e).savers && Early(Apply(st, e).savers[s].pc) ==>
              (s in st.savers && Early(st.savers[s].pc))
              || (forall i :: i in st.inodes ==> st.inodes[i].author != By(s))
  {
  }

  lemma RunKeepsOnce(st: State, steps: seq<Step>)
    requires Inv(st) && DistinctAuthors(st) && EarlyInstalledNone(st) && Runs(st, steps)
    ensures DistinctAuthors(Final(st, steps))
    ensures EarlyInstalledNone(Final(st, steps))
    decreases |steps|
  {
    if steps != [] {
      StepKeepsInv(st, steps[0]);
      if steps[0].Rename? {
        RenameKeepsDistinct(st, steps[0]);
        RenameKeepsEarly(st, steps[0]);
      } else {
        OtherStepKeepsDistinct(st, steps[0]);
        OtherStepKeepsEarly(st, steps[0]);
      }
      RunKeepsOnce(Apply(st, steps[0]), steps[1..]);
    }
  }

  /** A durable file stays durable over any run, and is its author's only one. */
  lemma StaysDurable(st: State, steps: seq<Step>, k: nat, s: SaverId)
    requires Inv(st) && DistinctAuthors(st) && EarlyInstalledNone(st) && Runs(st, steps)
    requires k < st.mark && AuthoredBy(st, st.log[k], s)
    ensures DurableFrom(Final(st, steps), k, s)
  {
    var end := Final(st, steps);
    RunKeepsInv(st, steps);
    RunKeepsOnce(st, steps);
    RunGrows(st, steps);
    assert end.log[..st.mark][k] == st.log[..st.mark][k];
    DurableAt(end, k, s);
  }

  lemma SavedPlace(st: State, s: SaverId) returns (k: nat)
    requires Inv(st) && s in st.savers && st.savers[s].pc.IsSaved()
    ensures k < st.mark && AuthoredBy(st, st.log[k], s)
  {
    assert Progress(st, s);
    var i := st.savers[s].pc.verdict.inode;
    k :| 0 <= k < st.mark && st.log[..st.mark][k] == i;
  }

  /**
    Every save reported as `Saved` has one place `k` in the history, and over every further run,
    with any crashes, the durable cassette is the file at `k` or one installed after it, by
    another saver.
  */
  lemma ReportedSavesAreDurable(st: State, before: seq<Step>, after: seq<Step>, prev: Option<string>, s: SaverId)
    returns (k: nat)
    requires Init(st, prev) && Runs(st, before) && Runs(Final(st, before), after)
    requires s in Final(st, before).savers && Final(st, before).savers[s].pc.IsSaved()
    ensures DurableFrom(Final(st, before), k, s)
    ensures DurableFrom(Final(Final(st, before), after), k, s)
    ensures Final(Final(st, before), after).savers[s].json == Final(st, before).savers[s].json
  {
    var mid := Final(st, before);
    InitHolds(st, prev);
    RunKeepsInv(st, before);
    RunKeepsOnce(st, before);
    k := SavedPlace(mid, s);
    StaysDurable(mid, [], k, s);
    StaysDurable(mid, after, k, s);
    RunGrows(mid, after);
  }

  // ---------------------------------------------------------------------------------------
  // A crashed holder does not wedge later saves

  ghost predicate TempsKept(a: State, b: State) {
    forall n :: Temp(n) in a.dir ==>
      && Temp(n) in b.dir && b.dir[Temp(n)] == a.dir[Temp(n)]
      && (a.dir[Temp(n)] in a.inodes ==>
            b.dir[Temp(n)] in b.inodes && b.inodes[b.dir[Temp(n)]] == a.inodes[a.dir[Temp(n)]])
  }

  lemma RunsAppend(st: State, a: seq<Step>, b: seq<Step>)
    requires Runs(st, a) && Runs(Final(st, a), b)
    ensures Runs(st, a + b) && Final(st, a + b) == Final(Final(st, a), b)
    decreases |a|
  {
    if a == [] {
      assert a + b == b;
    } else {
      assert (a + b)[1..] == a[1..] + b;
      RunsAppend(Apply(st, a[0]), a[1..], b);
    }
  }

  /** Steps taken by saver `s` alone, from `st` to `end`. */
  ghost predicate Alone(st: State, s: SaverId, steps: seq<Step>, end: State) {
    && Runs(st, steps) && Final(st, steps) == end
    && forall e :: e in steps ==> e.BySaver() && e.s == s
  }

  lemma AloneTwo(st: State, d: Step, e: Step) returns (steps: seq<Step>)
    requires Enabled(st, d) && Enabled(Apply(st, d), e)
    requires d.BySaver() && e.BySaver() && d.s == e.s
    ensures Alone(st, d.s, steps, Apply(Apply(st, d), e))
  {
    steps := [d, e];
    var mid := Apply(st, d);
    assert steps[1..] == [e] && [e][1..] == [];
    assert Runs(Apply(mid, e), []) && Final(Apply(mid, e), []) == Apply(mid, e);
    assert Runs(mid, [e]) && Final(mid, [e]) == Apply(mid, e);
  }

  lemma AloneAppend(st: State, s: SaverId, a: seq<Step>, mid: State, b: seq<Step>, end: State)
    requires Alone(st, s, a, mid) && Alone(mid, s, b, end)
    ensures Alone(st, s, a + b, end)
  {
    RunsAppend(st, a, b);
  }

  lemma SaveLocks(st: State, s: SaverId, json: string) returns (steps: seq<Step>, end: State)
    requires Inv(st) && !st.linked && st.lock.None? && s !in st.savers
    ensures Alone(st, s, steps, end) && Inv(end)
    ensures s in end.savers && end.savers[s] == Saver(json, Locked(0))
    ensures end.dir == st.dir && end.inodes == st.inodes
  {
    StepKeepsInv(st, Begin(s, json));
    var a := Apply(st, Begin(s, json));
    StepKeepsInv(a, TryLock(s, true));
    end := Apply(a, TryLock(s, true));
    steps := AloneTwo(st, Begin(s, json), TryLock(s, true));
  }

  lemma SaveWrites(st: State, s: SaverId, json: string, n: nat, i: InodeId) returns (steps: seq<Step>, end: State)
    requires Inv(st) && s in st.savers && st.savers[s] == Saver(json, Locked(0))
    requires Temp(n) !in st.dir && i !in st.inodes
    ensures Alone(st, s, steps, end) && Inv(end)
    ensures s in end.savers && end.savers[s] == Saver(json, Writing(n, i))
    ensures end.dir == st.dir[Temp(n) := i]
    ensures i in end.inodes && end.inodes == st.inodes[i := end.inodes[i]] && end.inodes[i].cache == json
  {
    var c := SaveCreates(st, s, json, n, i);
    end := SaveFills(c, s, json, n, i);
    steps := AloneTwo(st, Create(s, n, i, true), Write(s, |json|, true));
  }

  lemma SaveCreates(st: State, s: SaverId, json: string, n: nat, i: InodeId) returns (end: State)
    requires Inv(st) && s in st.savers && st.savers[s] == Saver(json, Locked(0))
    requires Temp(n) !in st.dir && i !in st.inodes
    ensures Enabled(st, Create(s, n, i, true)) && end == Apply(st, Create(s, n, i, true)) && Inv(end)
    ensures s in end.savers && end.savers[s] == Saver(json, Writing(n, i))
    ensures end.dir == st.dir[Temp(n) := i]
    ensures i in end.inodes && end.inodes == st.inodes[i := end.inodes[i]] && end.inodes[i].cache == ""
  {
    end := Apply(st, Create(s, n, i, true));
    StepKeepsInv(st, Create(s, n, i, true));
  }

  lemma SaveFills(st: State, s: SaverId, json: string, n: nat, i: InodeId) returns (end: State)
    requires Inv(st) && s in st.savers && st.savers[s] == Saver(json, Writing(n, i))
    requires i in st.inodes && st.inodes[i].cache == ""
    ensures Enabled(st, Write(s, |json|, true)) && end == Apply(st, Write(s, |json|, true)) && Inv(end)
    ensures end.savers == st.savers && end.dir == st.dir
    ensures i in end.inodes && end.inodes == st.inodes[i := end.inodes[i]] && end.inodes[i].cache == json
  {
    StepKeepsInv(st, Write(s, |json|, true));
    end := Apply(st, Write(s, |json|, true));
  }

  lemma SaveInstalls(st: State, s: SaverId, json: string, n: nat, i: InodeId) returns (steps: seq<Step>, end: State)
    requires Inv(st) && s in st.savers && st.savers[s] == Saver(json, Writing(n, i))
    requires i in st.inodes && st.inodes[i].cache == json && Temp(n) in st.dir && st.dir[Temp(n)] == i
    ensures Alone(st, s, steps, end)
    ensures s in end.savers && end.savers[s] == Saver(json, Renamed(n, i))
    ensures end.dir == (st.dir - {Temp(n)})[Target := i]
    ensures i in end.inodes && end.inodes == st.inodes[i := end.inodes[i]]
    ensures end.inodes[i].cache == end.inodes[i].disk == json
  {
    StepKeepsInv(st, Fsync(s, true));
    var e := Apply(st, Fsync(s, true));
    end := Apply(e, Rename(s, true));
    steps := AloneTwo(st, Fsync(s, true), Rename(s, true));
  }

  lemma SaveReturns(st: State, s: SaverId, json: string, n: nat, i: InodeId) returns (steps: seq<Step>, end: State)
    requires s in st.savers && st.savers[s] == Saver(json, Renamed(n, i))
    requires i in st.inodes && st.inodes[i].cache == st.inodes[i].disk == json
    requires Target in st.dir && st.dir[Target] == i
    ensures Alone(st, s, steps, end)
    ensures s in end.savers && end.savers[s].pc == Returned(Saved(i))
    ensures DurableTarget(end) == VolatileTarget(end) == Some(json)
    ensures end.dir == st.dir && end.inodes == st.inodes
  {
    var g := Apply(st, SyncDir(s, true));
    end := Apply(g, Unlock(s));
    steps := AloneTwo(st, SyncDir(s, true), Unlock(s));
  }

  lemma SwapKeepsTemps(st: State, mid: State, end: State, n: nat, i: InodeId)
    requires Linked(st) && Temp(n) !in st.dir && i !in st.inodes
    requires mid.dir == st.dir[Temp(n) := i] && end.dir == (mid.dir - {Temp(n)})[Target := i]
    requires i in mid.inodes && mid.inodes == st.inodes[i := mid.inodes[i]]
    requires i in end.inodes && end.inodes == mid.inodes[i := end.inodes[i]]
    ensures TempsKept(st, end) && end.dir.Keys == st.dir.Keys + {Target}
  {
  }

  /**
    With the lock free, a call that draws a fresh temp name and hits no I/O error succeeds by
    its own steps alone and leaves every other temp where and as it was.
  */
  lemma SaveSucceeds(st: State, s: SaverId, json: string, n: nat, i: InodeId) returns (steps: seq<Step>, end: State)
    requires Inv(st) && !st.linked && st.lock.None?
    requires s !in st.savers && Temp(n) !in st.dir && i !in st.inodes
    ensures Alone(st, s, steps, end)
    ensures s in end.savers && end.savers[s].pc == Returned(Saved(i))
    ensures DurableTarget(end) == VolatileTarget(end) == Some(json)
    ensures TempsKept(st, end) && end.dir.Keys == st.dir.Keys + {Target}
  {
    var one, a := SaveLocks(st, s, json);
    var two, b := SaveWrites(a, s, json, n, i);
    var three, c := SaveInstalls(b, s, json, n, i);
    var four, d := SaveReturns(c, s, json, n, i);
    AloneAppend(st, s, one, a, two, b);
    AloneAppend(st, s, one + two, b, three, c);
    AloneAppend(st, s, one + two + three, c, four, d);
    steps, end := one + two + three + four, d;
    SwapKeepsTemps(st, b, d, n, i);
  }

  /** After the lock holder dies anywhere, the next save can succeed and the stale temp stays put. */
  lemma CrashedHolderDoesNotWedge(st: State, holder: SaverId, s: SaverId, json: string, n: nat, i: InodeId)
    returns (steps: seq<Step>, end: State)
    requires Inv(st) && !st.linked && st.lock == Some(holder)
    requires s !in st.savers && Temp(n) !in st.dir && i !in st.inodes
    ensures Enabled(st, Kill(holder)) && Alone(Apply(st, Kill(holder)), s, steps, end)
    ensures s in end.savers && end.savers[s].pc == Returned(Saved(i)) && DurableTarget(end) == Some(json)
    ensures TempsKept(st, end)
  {
    StepKeepsInv(st, Kill(holder));
    steps, end := SaveSucceeds(Apply(st, Kill(holder)), s, json, n, i);
  }
}
