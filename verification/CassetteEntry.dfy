/**
  What one recorded call leaves in a cassette, and what replaying that entry gives back.
*/
module CassetteEntry {
  import opened Wrappers
  import Environment
  import Digest

  // ---------------------------------------------------------------------------------------
  // Errors

  /** std::io::ErrorKind: the fourteen named kinds, `Other`, and every kind without a name here. */
  datatype IoKind =
    | NotFound | PermissionDenied | Interrupted | WouldBlock | InvalidInput | InvalidData | TimedOut
    | WriteZero | UnexpectedEof | ResourceBusy | ExecutableFileBusy | NotADirectory | BrokenPipe
    | AlreadyExists | Other | Unnamed(id: nat)

  /** Reasons the capture seam can fail for; `Misc` stands for those known only by their text. */
  datatype Reason =
    | Cancelled(program: string)
    | Spawn(program: string, kind: IoKind, message: string)
    | ProgramNotFound(program: string, searched: Option<string>)
    | Stdin(program: string, kind: IoKind, message: string)
    | OutputTooLarge(program: string, maxLines: Option<nat>, maxBytes: Option<nat>, totalLines: nat, totalBytes: nat)
    | Unsupported(operation: string)
    | Io(kind: IoKind, message: string)
    | CassetteMiss(program: string)
    | Misc(text: string)
  {
    /** The reason's `Display` text, where the cassette relies on it. */
    function Display(): string
      requires CassetteMiss? || Misc?
    {
      match this
      case CassetteMiss(program) => "`" + program + "`: no cassette entry matches this invocation"
      case Misc(text) => text
    }
  }

  /** The error as stored, kinds by name. */
  datatype StoredError =
    | SpawnError(osKind: string, message: string)
    | NotFoundError(searched: Option<string>)
    | StdinError(osKind: string, message: string)
    | TooLargeError(maxLines: Option<nat>, maxBytes: Option<nat>, totalLines: nat, totalBytes: nat)
    | UnsupportedError(operation: string)
    | IoError(osKind: string, message: string)
    | OtherError(message: string)

  function KindName(kind: IoKind): string {
    match kind
    case NotFound => "NotFound"
    case PermissionDenied => "PermissionDenied"
    case Interrupted => "Interrupted"
    case WouldBlock => "WouldBlock"
    case InvalidInput => "InvalidInput"
    case InvalidData => "InvalidData"
    case TimedOut => "TimedOut"
    case WriteZero => "WriteZero"
    case UnexpectedEof => "UnexpectedEof"
    case ResourceBusy => "ResourceBusy"
    case ExecutableFileBusy => "ExecutableFileBusy"
    case NotADirectory => "NotADirectory"
    case BrokenPipe => "BrokenPipe"
    case AlreadyExists => "AlreadyExists"
    case _ => "Other"
  }

  function KindFromName(name: string): IoKind {
    if name == "NotFound" then NotFound
    else if name == "PermissionDenied" then PermissionDenied
    else if name == "Interrupted" then Interrupted
    else if name == "WouldBlock" then WouldBlock
    else if name == "InvalidInput" then InvalidInput
    else if name == "InvalidData" then InvalidData
    else if name == "TimedOut" then TimedOut
    else if name == "WriteZero" then WriteZero
    else if name == "UnexpectedEof" then UnexpectedEof
    else if name == "ResourceBusy" then ResourceBusy
    else if name == "ExecutableFileBusy" then ExecutableFileBusy
    else if name == "NotADirectory" then NotADirectory
    else if name == "BrokenPipe" then BrokenPipe
    else if name == "AlreadyExists" then AlreadyExists
    else Other
  }

  /** A kind survives storage unless it has no name; then it becomes `Other`. */
  function FoldKind(kind: IoKind): IoKind {
    if kind.Unnamed? then Other else kind
  }

  /** CassetteError::from_error; a cancellation is never stored. */
  function StoreError(reason: Reason): Option<StoredError> {
    match reason
    case Cancelled(_) => None
    case Spawn(_, kind, message) => Some(SpawnError(KindName(kind), message))
    case ProgramNotFound(_, searched) => Some(NotFoundError(searched))
    case Stdin(_, kind, message) => Some(StdinError(KindName(kind), message))
    case OutputTooLarge(_, maxLines, maxBytes, totalLines, totalBytes) =>
      Some(TooLargeError(maxLines, maxBytes, totalLines, totalBytes))
    case Unsupported(operation) => Some(UnsupportedError(operation))
    case Io(kind, message) => Some(IoError(KindName(kind), message))
    case _ => Some(OtherError(reason.Display()))
  }

  /** CassetteError::to_error. */
  function LoadError(e: StoredError, program: string): Reason {
    match e
    case SpawnError(osKind, message) => Spawn(program, KindFromName(osKind), message)
    case NotFoundError(searched) => ProgramNotFound(program, searched)
    case StdinError(osKind, message) => Stdin(program, KindFromName(osKind), message)
    case TooLargeError(maxLines, maxBytes, totalLines, totalBytes) =>
      OutputTooLarge(program, maxLines, maxBytes, totalLines, totalBytes)
    case UnsupportedError(operation) => Unsupported(operation)
    case IoError(osKind, message) => Io(KindFromName(osKind), message)
    case OtherError(message) => Io(Other, message)
  }

  /** What a reason comes back as: attributed to `program`, unnamed kinds folded to `Other`. */
  function Replayed(reason: Reason, program: string): Reason
    requires !reason.Cancelled?
  {
    match reason
    case Spawn(_, kind, message) => Spawn(program, FoldKind(kind), message)
    case ProgramNotFound(_, searched) => ProgramNotFound(program, searched)
    case Stdin(_, kind, message) => Stdin(program, FoldKind(kind), message)
    case OutputTooLarge(_, a, b, c, d) => OutputTooLarge(program, a, b, c, d)
    case Io(kind, message) => Io(FoldKind(kind), message)
    case Unsupported(_) => reason
    case CassetteMiss(_) => Io(Other, reason.Display())
    case Misc(text) => Io(Other, text)
  }

  /** Only Interrupted and InvalidData agree in length and first letter. */
  lemma KindRoundTrip(kind: IoKind)
    ensures KindFromName(KindName(kind)) == FoldKind(kind)
  {
    var name := KindName(kind);
    assert |name| != 11 || name[2] == 't' || name[2] == 'v';
  }

  /** Exactly the cancellations are dropped; every other error comes back as `Replayed` says. */
  lemma ErrorRoundTrip(reason: Reason, program: string)
    ensures StoreError(reason).None? <==> reason.Cancelled?
    ensures !reason.Cancelled? ==> LoadError(StoreError(reason).value, program) == Replayed(reason, program)
  {
    match reason
    case Spawn(_, kind, _) => KindRoundTrip(kind);
    case Stdin(_, kind, _) => KindRoundTrip(kind);
    case Io(kind, _) => KindRoundTrip(kind);
    case _ =>
  }

  /** Recording a replayed error loses nothing more. */
  lemma ReplayedIsStable(reason: Reason, program: string)
    requires !reason.Cancelled?
    ensures var once := Replayed(reason, program);
            StoreError(once).Some? && LoadError(StoreError(once).value, program) == once
  {
    ErrorRoundTrip(Replayed(reason, program), program);
  }

  // ---------------------------------------------------------------------------------------
  // Commands, results, entries

  datatype Outcome = Exited(code: int) | Signalled(signal: Option<int>) | TimedOutOutcome | InactivityTimedOut

  /** Durations are in nanoseconds. */
  datatype ProcessResult = ProcessResult(
    program: string,
    stdout: string,
    stderr: string,
    outcome: Outcome,
    timeout: Option<nat>,
    okCodes: seq<int>,
    truncated: bool,
    totalLines: nat,
    totalBytes: nat,
    duration: nat)

  /** A stdin source as far as keying goes: its kind, and its content digest when replayable. */
  datatype StdinSource = Empty | Replayable(digest: bv64) | OneShot

  datatype Command = Command(
    program: Bytes,
    args: seq<Bytes>,
    cwd: Option<Bytes>,
    envs: seq<Environment.Op>,
    stdin: Option<StdinSource>,
    stdoutPiped: bool,
    cancelled: bool,
    timeout: Option<nat>,
    inactivityTimeout: Option<nat>,
    okCodes: seq<int>)

  datatype Field = Argument | Cwd | Stdout | Stderr

  /**
    What both sides share: the lossy decoding, the optional scrub hook, the digest of the active
    match policy, and the wording of the two refusals.  Every theorem holds for all of them;
    `MatchPolicy` below gives the digest the program computes.
  */
  datatype Config = Config(
    lossy: Bytes -> string,
    scrub: Option<(Field, string) -> string>,
    digest: Command -> Option<bv64>,
    oneShotText: string,
    notPipedText: string -> string)
  {
    function Scrubbed(field: Field, text: string): string {
      match scrub
      case Some(hook) => hook(field, text)
      case None => text
    }

    function Program(c: Command): string {
      lossy(c.program)
    }

    function StoredArgs(args: seq<Bytes>): seq<string> {
      if args == [] then [] else [Scrubbed(Argument, lossy(args[0]))] + StoredArgs(args[1..])
    }

    function StoredCwd(c: Command): Option<string> {
      match c.cwd
      case Some(dir) => Some(Scrubbed(Cwd, lossy(dir)))
      case None => None
    }
  }

  function HasStdin(c: Command): bool {
    c.stdin.Some? && !c.stdin.value.Empty?
  }

  function StdinDigest(c: Command): Option<bv64> {
    if c.stdin.Some? && c.stdin.value.Replayable? then Some(c.stdin.value.digest) else None
  }

  datatype Entry = Entry(
    program: string,
    args: seq<string>,
    stdinDigest: Option<bv64>,
    matchDigest: Option<bv64>,
    cwd: Option<string>,
    hasStdin: bool,
    stdout: string,
    stderr: string,
    code: Option<int>,
    timedOut: bool,
    inactivityTimedOut: bool,
    signal: Option<int>,
    truncated: bool,
    totalLines: nat,
    totalBytes: nat,
    durationMs: nat,
    error: Option<StoredError>)

  datatype Key = Key(program: string, args: seq<string>, hasStdin: bool, stdinDigest: Option<bv64>, matchDigest: Option<bv64>)

  const U64: nat := 0x1_0000_0000_0000_0000
  const NANOS_PER_MILLI: nat := 1_000_000

  /** `as_millis() as u64`. */
  function Millis(nanos: nat): nat {
    nanos / NANOS_PER_MILLI % U64
  }

  function Code(o: Outcome): Option<int> {
    if o.Exited? then Some(o.code) else None
  }

  /** Entry::from_parts. */
  function FromParts(cfg: Config, c: Command, r: ProcessResult): Entry {
    Entry(cfg.Program(c), cfg.StoredArgs(c.args), StdinDigest(c), cfg.digest(c), cfg.StoredCwd(c), HasStdin(c),
          cfg.Scrubbed(Stdout, r.stdout), cfg.Scrubbed(Stderr, r.stderr), Code(r.outcome), r.outcome.TimedOutOutcome?,
          r.outcome.InactivityTimedOut?, if r.outcome.Signalled? then r.outcome.signal else None,
          r.truncated, r.totalLines, r.totalBytes, Millis(r.duration), None)
  }

  /** Entry::from_error. */
  function FromError(cfg: Config, c: Command, e: StoredError): Entry {
    Entry(cfg.Program(c), cfg.StoredArgs(c.args), StdinDigest(c), cfg.digest(c), cfg.StoredCwd(c), HasStdin(c),
          "", "", None, false, false, None, false, 0, 0, 0, Some(e))
  }

  /** key_of. */
  function KeyOf(cfg: Config, c: Command): Key {
    Key(cfg.Program(c), cfg.StoredArgs(c.args), HasStdin(c), StdinDigest(c), cfg.digest(c))
  }

  /** key_of_entry. */
  function KeyOfEntry(e: Entry): Key {
    Key(e.program, e.args, e.hasStdin, e.stdinDigest, e.matchDigest)
  }

  /** `text` as stored under `field`: the hook's answer if there is a hook. */
  predicate StoredAs(cfg: Config, field: Field, raw: Bytes, stored: string) {
    match cfg.scrub
    case Some(hook) => stored == hook(field, cfg.lossy(raw))
    case None => stored == cfg.lossy(raw)
  }

  /** Both are stored under `field` as one and the same text. */
  ghost predicate SameText(cfg: Config, field: Field, a: Bytes, b: Bytes) {
    exists text :: StoredAs(cfg, field, a, text) && StoredAs(cfg, field, b, text)
  }

  predicate NoInput(c: Command) {
    c.stdin.None? || c.stdin.value == Empty
  }

  /** Replay cannot tell the two commands apart. */
  ghost predicate SameInvocation(cfg: Config, a: Command, b: Command) {
    && cfg.lossy(a.program) == cfg.lossy(b.program)
    && |a.args| == |b.args| && (forall i :: 0 <= i < |a.args| ==> SameText(cfg, Argument, a.args[i], b.args[i]))
    && (NoInput(a) <==> NoInput(b))
    && (forall d :: a.stdin == Some(Replayable(d)) <==> b.stdin == Some(Replayable(d)))
    && cfg.digest(a) == cfg.digest(b)
  }

  lemma {:induction false} StoredArgsAre(cfg: Config, args: seq<Bytes>)
    ensures |cfg.StoredArgs(args)| == |args|
    ensures forall i :: 0 <= i < |args| ==> StoredAs(cfg, Argument, args[i], cfg.StoredArgs(args)[i])
  {
    if args != [] {
      StoredArgsAre(cfg, args[1..]);
      assert forall i :: 0 < i < |args| ==> args[i] == args[1..][i - 1];
    }
  }

  lemma SameTextIff(cfg: Config, field: Field, a: Bytes, b: Bytes, x: string, y: string)
    requires StoredAs(cfg, field, a, x) && StoredAs(cfg, field, b, y)
    ensures SameText(cfg, field, a, b) <==> x == y
  {
  }

  /** The same arguments are stored for both exactly when they agree place by place. */
  lemma StoredArgsAgreeIff(cfg: Config, a: seq<Bytes>, b: seq<Bytes>)
    ensures cfg.StoredArgs(a) == cfg.StoredArgs(b) <==>
              |a| == |b| && forall i :: 0 <= i < |a| ==> SameText(cfg, Argument, a[i], b[i])
  {
    var x, y := cfg.StoredArgs(a), cfg.StoredArgs(b);
    StoredArgsAre(cfg, a);
    StoredArgsAre(cfg, b);
    if |a| == |b| {
      forall i | 0 <= i < |a|
        ensures SameText(cfg, Argument, a[i], b[i]) <==> x[i] == y[i]
      {
        SameTextIff(cfg, Argument, a[i], b[i], x[i], y[i]);
      }
    }
  }

  lemma StdinAgreesIff(a: Command, b: Command)
    ensures HasStdin(a) == HasStdin(b) <==> (NoInput(a) <==> NoInput(b))
    ensures StdinDigest(a) == StdinDigest(b) <==>
              forall d :: a.stdin == Some(Replayable(d)) <==> b.stdin == Some(Replayable(d))
  {
    if StdinDigest(a).Some? {
      assert a.stdin == Some(Replayable(StdinDigest(a).value));
    }
    if StdinDigest(b).Some? {
      assert b.stdin == Some(Replayable(StdinDigest(b).value));
    }
  }

  /** The key keeps apart exactly the commands that differ in what replay looks at. */
  lemma KeyOfIff(cfg: Config, a: Command, b: Command)
    ensures KeyOf(cfg, a) == KeyOf(cfg, b) <==> SameInvocation(cfg, a, b)
  {
    StoredArgsAgreeIff(cfg, a.args, b.args);
    StdinAgreesIff(a, b);
  }

  /** Entry::to_result. */
  function ToResult(e: Entry, c: Command): ProcessResult {
    var (outcome, timeout) :=
      if e.inactivityTimedOut then (InactivityTimedOut, c.inactivityTimeout)
      else if e.timedOut then (TimedOutOutcome, c.timeout)
      else match e.code
           case Some(code) => (Exited(code), c.timeout)
           case None => (Signalled(e.signal), c.timeout);
    ProcessResult(e.program, e.stdout, e.stderr, outcome, timeout, c.okCodes, e.truncated, e.totalLines, e.totalBytes,
                  e.durationMs * NANOS_PER_MILLI)
  }

  function Count(b: bool): nat {
    if b then 1 else 0
  }

  /** validate_entry_outcome accepts the entry. */
  predicate ValidOutcome(e: Entry) {
    var indicators := Count(e.code.Some?) + Count(e.timedOut) + Count(e.inactivityTimedOut) + Count(e.signal.Some?);
    if e.error.Some? then indicators == 0 else indicators <= 1
  }

  /** An entry that loads is an error without an outcome, or at most one of the four indicators. */
  lemma ValidOutcomeIff(e: Entry)
    ensures ValidOutcome(e) <==>
              && (e.error.Some? ==> e.code.None? && !e.timedOut && !e.inactivityTimedOut && e.signal.None?)
              && (e.code.Some? ==> !e.timedOut && !e.inactivityTimedOut && e.signal.None?)
              && (e.timedOut ==> !e.inactivityTimedOut && e.signal.None?)
              && (e.inactivityTimedOut ==> e.signal.None?)
  {
  }

  // ---------------------------------------------------------------------------------------
  // One entry, there and back

  /** What the inner runner answered. */
  type Answer = Result<ProcessResult, Reason>

  /** The entry record mode stores for a call, if any. */
  function Recorded(cfg: Config, c: Command, a: Answer): Option<Entry> {
    match a
    case Ok(r) => Some(FromParts(cfg, c, r))
    case Err(reason) =>
      match StoreError(reason)
      case Some(e) => Some(FromError(cfg, c, e))
      case None => None
  }

  /** What replay answers from an entry. */
  function Played(e: Entry, c: Command): Answer {
    match e.error
    case Some(error) => Err(LoadError(error, e.program))
    case None => Ok(ToResult(e, c))
  }

  /**
    What a recorded answer must come back as: same outcome, scrubbed text, same truncation and
    totals, duration to the millisecond; timeout and accepted codes are the command's own.
  */
  function Promised(cfg: Config, c: Command, a: Answer): Answer
    requires a.Err? ==> !a.error.Cancelled?
  {
    match a
    case Ok(r) =>
      Ok(ProcessResult(cfg.Program(c), cfg.Scrubbed(Stdout, r.stdout), cfg.Scrubbed(Stderr, r.stderr), r.outcome,
                       if r.outcome.InactivityTimedOut? then c.inactivityTimeout else c.timeout, c.okCodes,
                       r.truncated, r.totalLines, r.totalBytes, r.duration - r.duration % NANOS_PER_MILLI))
    case Err(reason) => Err(Replayed(reason, cfg.Program(c)))
  }

  /** `text` as replayed: the hook's answer if there is a hook. */
  predicate ShownAs(cfg: Config, field: Field, text: string, shown: string) {
    match cfg.scrub
    case Some(hook) => shown == hook(field, text)
    case None => shown == text
  }

  /** The promise, field by field. */
  lemma PromisedResult(cfg: Config, c: Command, r: ProcessResult)
    ensures Promised(cfg, c, Ok(r)).Ok?
    ensures var p := Promised(cfg, c, Ok(r)).value;
            && p.program == cfg.lossy(c.program) && p.outcome == r.outcome
            && ShownAs(cfg, Stdout, r.stdout, p.stdout) && ShownAs(cfg, Stderr, r.stderr, p.stderr)
            && p.truncated == r.truncated && p.totalLines == r.totalLines && p.totalBytes == r.totalBytes
            && p.duration <= r.duration < p.duration + 1_000_000 && p.duration % 1_000_000 == 0
            && p.okCodes == c.okCodes
            && p.timeout == if r.outcome == InactivityTimedOut then c.inactivityTimeout else c.timeout
  {
  }

  /** A replayed error is of the same variant where there is one, names the program and keeps the payload. */
  lemma PromisedError(cfg: Config, c: Command, reason: Reason)
    requires !reason.Cancelled?
    ensures Promised(cfg, c, Err(reason)).Err?
    ensures var e, name := Promised(cfg, c, Err(reason)).error, cfg.lossy(c.program);
            match reason
            case Spawn(_, kind, message) => e == Spawn(name, if kind.Unnamed? then Other else kind, message)
            case ProgramNotFound(_, searched) => e == ProgramNotFound(name, searched)
            case Stdin(_, kind, message) => e == Stdin(name, if kind.Unnamed? then Other else kind, message)
            case OutputTooLarge(_, ls, bs, tl, tb) => e == OutputTooLarge(name, ls, bs, tl, tb)
            case Unsupported(operation) => e == Unsupported(operation)
            case Io(kind, message) => e == Io(if kind.Unnamed? then Other else kind, message)
            case CassetteMiss(_) => e == Io(Other, reason.Display())
            case Misc(text) => e == Io(Other, text)
  {
  }

  /** Only an answer whose duration does not fit 64 bits of milliseconds comes back changed. */
  predicate FitsMillis(a: Answer) {
    a.Ok? ==> a.value.duration / NANOS_PER_MILLI < U64
  }

  /** An answer fits exactly below 2 to the 64th milliseconds. */
  lemma FitsMillisIff(a: Answer)
    ensures FitsMillis(a) <==> (a.Ok? ==> a.value.duration < 18_446_744_073_709_551_616 * 1_000_000)
  {
  }

  /** What an entry shows of the invocation, beside its key, and of the result. */
  lemma StoredFields(cfg: Config, c: Command, a: Answer)
    requires Recorded(cfg, c, a).Some?
    ensures var e := Recorded(cfg, c, a).value;
            && e.program == cfg.lossy(c.program) && |e.args| == |c.args|
            && (forall i :: 0 <= i < |c.args| ==> StoredAs(cfg, Argument, c.args[i], e.args[i]))
            && (e.cwd.Some? <==> c.cwd.Some?) && (c.cwd.Some? ==> StoredAs(cfg, Cwd, c.cwd.value, e.cwd.value))
            && (e.hasStdin <==> !NoInput(c)) && e.matchDigest == cfg.digest(c)
            && (forall d :: e.stdinDigest == Some(d) <==> c.stdin == Some(Replayable(d)))
            && (e.error.Some? <==> a.Err?)
            && (a.Err? ==>
                  && e.stdout == "" && e.stderr == "" && e.code.None? && !e.timedOut && !e.inactivityTimedOut
                  && e.signal.None? && !e.truncated && e.totalLines == e.totalBytes == e.durationMs == 0)
            && (a.Ok? ==>
                  && (forall n :: e.code == Some(n) <==> a.value.outcome == Exited(n))
                  && (e.timedOut <==> a.value.outcome == TimedOutOutcome)
                  && (e.inactivityTimedOut <==> a.value.outcome == InactivityTimedOut)
                  && (forall n :: e.signal == Some(n) <==> a.value.outcome == Signalled(Some(n))))
  {
    StoredArgsAre(cfg, c.args);
  }

  /** Every stored entry is keyed like its command and passes the load-time check. */
  lemma RecordedIsWellFormed(cfg: Config, c: Command, a: Answer)
    requires Recorded(cfg, c, a).Some?
    ensures KeyOfEntry(Recorded(cfg, c, a).value) == KeyOf(cfg, c)
    ensures ValidOutcome(Recorded(cfg, c, a).value)
  {
  }

  /** Replaying a call's own entry gives the promised answer, exactly when the duration fits. */
  lemma EntryRoundTrip(cfg: Config, c: Command, a: Answer)
    requires Recorded(cfg, c, a).Some?
    ensures a.Err? ==> !a.error.Cancelled?
    ensures Played(Recorded(cfg, c, a).value, c) == Promised(cfg, c, a) <==> FitsMillis(a)
  {
    match a
    case Ok(r) => MillisRoundTrip(r.duration);
    case Err(reason) => ErrorRoundTrip(reason, cfg.Program(c));
  }

  lemma MillisRoundTrip(nanos: nat)
    ensures Millis(nanos) * NANOS_PER_MILLI == nanos - nanos % NANOS_PER_MILLI <==> nanos / NANOS_PER_MILLI < U64
  {
  }

  // ---------------------------------------------------------------------------------------
  // The policy digest

  /** An opt-in match policy: whether cwd is keyed, and which variables' values are. */
  datatype MatchPolicy = MatchPolicy(
    platform: Environment.Platform,
    matchCwd: bool,
    envNames: seq<Bytes>,
    lossy: Bytes -> string,
    utf8: string -> Bytes,
    scrub: Option<(Field, string) -> string>)
  {
    /** Without a hook the raw bytes are keyed, with one the scrubbed text. */
    function KeyedCwd(c: Command): Option<Bytes> {
      match c.cwd
      case Some(dir) => Some(if scrub.Some? then utf8(scrub.value(Cwd, lossy(dir))) else dir)
      case None => None
    }

    /** Invocation::env, for a selected variable. */
    function EffectOn(c: Command, name: Bytes): Digest.Effect {
      match Environment.LastOp(platform, c.envs, Environment.Utf8(name))
      case Some(Some(value)) => Digest.Set(value)
      case Some(None) => Digest.Removed
      case None => Digest.Untouched
    }

    function Selection(c: Command, names: seq<Bytes>): (r: seq<Digest.Selected>)
      ensures |r| == |names|
      ensures forall i :: 0 <= i < |names| ==> r[i] == Digest.Selected(names[i], EffectOn(c, names[i]))
    {
      if names == [] then [] else [Digest.Selected(names[0], EffectOn(c, names[0]))] + Selection(c, names[1..])
    }

    /** What the digest is fed. */
    function Shape(c: Command): Digest.Shape {
      Digest.Shape(matchCwd, if matchCwd then KeyedCwd(c) else None, Selection(c, envNames))
    }

    /** digest_of. */
    function DigestOf(hash: Digest.Hash, c: Command): Option<bv64> {
      Digest.Digested(hash, Shape(c))
    }
  }

  /** A runner with an opt-in policy: its digest is FNV-1a over the selected shape. */
  function PolicyConfig(p: MatchPolicy, oneShotText: string, notPipedText: string -> string): Config {
    Config(p.lossy, p.scrub, c => p.DigestOf(Digest.FNV1A, c), oneShotText, notPipedText)
  }

  /** The digest looks at the invocation only: not at how stdout is wired. */
  lemma DigestIgnoresStdout(p: MatchPolicy, hash: Digest.Hash, c: Command, piped: bool)
    ensures p.DigestOf(hash, c.(stdoutPiped := piped)) == p.DigestOf(hash, c)
  {
    assert p.Selection(c.(stdoutPiped := piped), p.envNames) == p.Selection(c, p.envNames);
  }

  /**
    With no NUL in play, two commands feed the hasher the same bytes exactly when they agree on
    everything the policy selects: the keyed working directory and each variable's effect.
  */
  lemma PolicySeparates(p: MatchPolicy, a: Command, b: Command)
    requires Digest.Clean(p.Shape(a)) && Digest.Clean(p.Shape(b))
    ensures Digest.Stream(p.Shape(a)) == Digest.Stream(p.Shape(b))
            <==> (p.matchCwd ==> p.KeyedCwd(a) == p.KeyedCwd(b))
                 && forall i :: 0 <= i < |p.envNames| ==> p.EffectOn(a, p.envNames[i]) == p.EffectOn(b, p.envNames[i])
  {
    var sa, sb := p.Shape(a), p.Shape(b);
    Digest.StreamsDetermineShapes(sa, sb);
    if sa == sb {
      forall i | 0 <= i < |p.envNames|
        ensures p.EffectOn(a, p.envNames[i]) == p.EffectOn(b, p.envNames[i])
      {
        assert sa.envs[i] == sb.envs[i];
      }
    } else if forall i :: 0 <= i < |p.envNames| ==> p.EffectOn(a, p.envNames[i]) == p.EffectOn(b, p.envNames[i]) {
      assert sa.envs == sb.envs;
    }
  }

  /** The bytes of the working directory that are keyed: raw, or what the hook makes of the text. */
  predicate KeyedAs(p: MatchPolicy, dir: Bytes, keyed: Bytes) {
    match p.scrub
    case Some(hook) => keyed == p.utf8(hook(Cwd, p.lossy(dir)))
    case None => keyed == dir
  }

  /** In terms of the command: the directory as keyed, and the last operation on each variable. */
  ghost predicate SameSelection(p: MatchPolicy, a: Command, b: Command) {
    && (p.matchCwd ==>
          && (a.cwd.None? <==> b.cwd.None?)
          && (a.cwd.Some? && b.cwd.Some? ==>
                exists keyed :: KeyedAs(p, a.cwd.value, keyed) && KeyedAs(p, b.cwd.value, keyed)))
    && forall i :: 0 <= i < |p.envNames| ==>
         Environment.LastOp(p.platform, a.envs, Environment.Utf8(p.envNames[i]))
         == Environment.LastOp(p.platform, b.envs, Environment.Utf8(p.envNames[i]))
  }

  /** Untouched, removed and each value are three distinct facts about a variable. */
  lemma EffectsDistinct(p: MatchPolicy, a: Command, b: Command, name: Bytes)
    ensures p.EffectOn(a, name) == p.EffectOn(b, name) <==>
              Environment.LastOp(p.platform, a.envs, Environment.Utf8(name))
              == Environment.LastOp(p.platform, b.envs, Environment.Utf8(name))
  {
  }

  lemma KeyedCwdIs(p: MatchPolicy, c: Command)
    ensures p.KeyedCwd(c).Some? <==> c.cwd.Some?
    ensures c.cwd.Some? ==> KeyedAs(p, c.cwd.value, p.KeyedCwd(c).value)
  {
  }

  /** Two NUL-free invocations share the bytes fed to the hasher exactly when they make the same selection. */
  lemma PolicySeparatesIff(p: MatchPolicy, a: Command, b: Command)
    requires Digest.Clean(p.Shape(a)) && Digest.Clean(p.Shape(b))
    ensures Digest.Stream(p.Shape(a)) == Digest.Stream(p.Shape(b)) <==> SameSelection(p, a, b)
  {
    PolicySeparates(p, a, b);
    KeyedCwdIs(p, a);
    KeyedCwdIs(p, b);
    forall i | 0 <= i < |p.envNames| {
      EffectsDistinct(p, a, b, p.envNames[i]);
    }
    if p.KeyedCwd(a) == p.KeyedCwd(b) && a.cwd.Some? {
      assert KeyedAs(p, b.cwd.value, p.KeyedCwd(a).value);
    }
  }

  /** `c` with working directory and value of X as given. */
  function WithCwdAndX(c: Command, cwd: Bytes, x: Bytes): Command {
    c.(cwd := Some(cwd), envs := [Environment.Op(Environment.Utf8([0x58]), Some(x))])
  }

  /**
    Under one policy that keys the working directory and X, two commands that differ in both
    share one digest, whatever the hash: the separators appear inside a value of each.
  */
  lemma NulSharesDigest(p: MatchPolicy, hash: Digest.Hash, c: Command) returns (a: Command, b: Command)
    requires p.matchCwd && p.envNames == [[0x58]] && p.scrub.None?
    ensures p.KeyedCwd(a) != p.KeyedCwd(b) && p.EffectOn(a, [0x58]) != p.EffectOn(b, [0x58])
    ensures p.DigestOf(hash, a) == p.DigestOf(hash, b)
  {
    var sa, sb := Digest.VALUE_HOLDS_FIELD, Digest.CWD_HOLDS_FIELD;
    Digest.NulBreaksOnePolicy();
    a := WithCwdAndX(c, sa.cwd.value, sa.envs[0].effect.value);
    b := WithCwdAndX(c, sb.cwd.value, sb.envs[0].effect.value);
    WitnessShape(p, c, sa.cwd.value, sa.envs[0].effect.value);
    WitnessShape(p, c, sb.cwd.value, sb.envs[0].effect.value);
  }

  lemma WitnessShape(p: MatchPolicy, c: Command, cwd: Bytes, x: Bytes)
    requires p.matchCwd && p.envNames == [[0x58]] && p.scrub.None?
    ensures p.Shape(WithCwdAndX(c, cwd, x)) == Digest.Shape(true, Some(cwd), [Digest.Selected([0x58], Digest.Set(x))])
    ensures p.EffectOn(WithCwdAndX(c, cwd, x), [0x58]) == Digest.Set(x)
    ensures p.KeyedCwd(WithCwdAndX(c, cwd, x)) == Some(cwd)
  {
    var w := WithCwdAndX(c, cwd, x);
    assert Environment.LastOp(p.platform, w.envs, Environment.Utf8([0x58])) == Some(Some(x));
    assert p.Selection(w, p.envNames) == [Digest.Selected([0x58], Digest.Set(x))];
  }
}
