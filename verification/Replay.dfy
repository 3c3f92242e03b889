/**
  Replay mode: loading a cassette into per-key slots, answering calls from them, and the round
  trip from recorded calls to replayed answers.
*/
module Replay {
  import opened Wrappers
  import opened CassetteEntry
  import opened Recorder
  import opened Cursor
  import Digest

  type Slots = map<Key, Slot<Entry>>

  datatype LoadFailure = UnsupportedVersion(version: nat) | Contradictory(program: string)

  predicate Supported(version: nat) {
    1 <= version <= CASSETTE_VERSION
  }

  /** The file's entries, each under its own key. */
  function ByKey(entries: seq<Entry>): seq<Keyed<Key, Entry>> {
    if entries == [] then []
    else
      var last := entries[|entries| - 1];
      ByKey(entries[..|entries| - 1]) + [Keyed(KeyOfEntry(last), last)]
  }

  lemma ByKeyPush(entries: seq<Entry>, i: nat)
    requires i < |entries|
    ensures ByKey(entries[..i + 1]) == ByKey(entries[..i]) + [Keyed(KeyOfEntry(entries[i]), entries[i])]
  {
    assert entries[..i + 1][..i] == entries[..i];
  }

  /** Adding one more entry to the slot of its key. */
  function Filed(slots: Slots, key: Key, entry: Entry): Slots {
    var slot := if key in slots then slots[key] else Slot([], 0);
    slots[key := slot.(entries := slot.entries + [entry])]
  }

  lemma FiledServes(slots: Slots, log: seq<Keyed<Key, Entry>>, key: Key, entry: Entry)
    requires Serves(slots, log, [])
    ensures Serves(Filed(slots, key, entry), log + [Keyed(key, entry)], [])
  {
  }

  /** The slots of all entries, unless one is contradictory. */
  method FileEntries(entries: seq<Entry>) returns (r: Result<Slots, LoadFailure>)
    ensures r.Ok? <==> forall i :: 0 <= i < |entries| ==> ValidOutcome(entries[i])
    ensures r.Ok? ==> Serves(r.value, ByKey(entries), [])
    ensures r.Err? ==> exists i :: 0 <= i < |entries| && r.error == Contradictory(entries[i].program) && !ValidOutcome(entries[i])
  {
    var slots: Slots := map[];
    var i := 0;
    while i < |entries|
      invariant 0 <= i <= |entries|
      invariant forall j :: 0 <= j < i ==> ValidOutcome(entries[j])
      invariant Serves(slots, ByKey(entries[..i]), [])
    {
      var entry := entries[i];
      if !ValidOutcome(entry) {
        return Err(Contradictory(entry.program));
      }
      ByKeyPush(entries, i);
      FiledServes(slots, ByKey(entries[..i]), KeyOfEntry(entry), entry);
      slots := Filed(slots, KeyOfEntry(entry), entry);
      i := i + 1;
    }
    assert entries[..i] == entries;
    r := Ok(slots);
  }

  /** replay_slots_from_text, past the JSON syntax: version gate, entry check, slots. */
  method ReplaySlots(c: Cassette) returns (r: Result<Slots, LoadFailure>)
    ensures r.Ok? <==> Supported(c.version) && forall i :: 0 <= i < |c.entries| ==> ValidOutcome(c.entries[i])
    ensures r.Ok? ==> Serves(r.value, ByKey(c.entries), [])
    ensures !Supported(c.version) ==> r == Err(UnsupportedVersion(c.version))
    ensures c.version == 0 || c.version > 4 ==> r == Err(UnsupportedVersion(c.version))
    ensures 1 <= c.version <= 4 && r.Err? ==> r.error.Contradictory?
    ensures Supported(c.version) && r.Err? ==>
              exists i :: 0 <= i < |c.entries| && r.error == Contradictory(c.entries[i].program)
  {
    if !Supported(c.version) {
      return Err(UnsupportedVersion(c.version));
    }
    r := FileEntries(c.entries);
  }

  /** The capture verb on a command whose stdout is not piped (stdout_not_piped_error). */
  function NotPipedError(cfg: Config, c: Command): Reason {
    Io(InvalidInput, cfg.notPipedText(cfg.Program(c)))
  }

  /** The call gets as far as the slots. */
  predicate Reaches(c: Command) {
    !OneShotStdin(c) && !c.cancelled && c.stdoutPiped
  }

  /** What a call that never reaches the slots is answered. */
  function Rejection(cfg: Config, c: Command): Reason
    requires !Reaches(c)
  {
    if OneShotStdin(c) then OneShotError(cfg)
    else if c.cancelled then Cancelled(cfg.Program(c))
    else NotPipedError(cfg, c)
  }

  /** Which calls are rejected before the slots, in order, and with what. */
  lemma RejectionIs(cfg: Config, c: Command)
    ensures Reaches(c) <==> c.stdin != Some(OneShot) && !c.cancelled && c.stdoutPiped
    ensures c.stdin == Some(OneShot) ==> Rejection(cfg, c) == Unsupported(cfg.oneShotText)
    ensures c.stdin != Some(OneShot) && c.cancelled ==> Rejection(cfg, c) == Cancelled(cfg.lossy(c.program))
    ensures c.stdin != Some(OneShot) && !c.cancelled && !c.stdoutPiped ==>
              Rejection(cfg, c) == Io(InvalidInput, cfg.notPipedText(cfg.lossy(c.program)))
  {
  }

  /** The answer, given what the slots served. */
  function AnswerFrom(cfg: Config, c: Command, served: Option<Entry>): Answer {
    if !Reaches(c) then Err(Rejection(cfg, c))
    else match served
         case Some(entry) => Played(entry, c)
         case None => Err(CassetteMiss(cfg.Program(c)))
  }

  predicate IsMiss(a: Answer) {
    a.Err? && a.error.CassetteMiss?
  }

  class ReplayRunner {
    const cfg: Config
    var slots: Slots

    ghost predicate Valid()
      reads this
    {
      NonEmpty(slots)
    }

    constructor (cfg: Config, slots: Slots)
      requires NonEmpty(slots)
      ensures Valid() && this.cfg == cfg && this.slots == slots
    {
      this.cfg, this.slots := cfg, slots;
    }

    /** output_string in replay mode. */
    method OutputString(c: Command) returns (answer: Answer)
      requires Valid()
      modifies this
      ensures Valid()
      // What the source answers, branch by branch.
      ensures c.stdin == Some(OneShot) ==> answer == Err(Unsupported(cfg.oneShotText)) && slots == old(slots)
      ensures c.stdin != Some(OneShot) && c.cancelled ==>
                answer == Err(Cancelled(cfg.lossy(c.program))) && slots == old(slots)
      ensures c.stdin != Some(OneShot) && !c.cancelled && !c.stdoutPiped ==>
                answer == Err(Io(InvalidInput, cfg.notPipedText(cfg.lossy(c.program)))) && slots == old(slots)
      ensures c.stdin != Some(OneShot) && !c.cancelled && c.stdoutPiped ==>
                if KeyOf(cfg, c) in old(slots) then !IsMiss(answer)
                else answer == Err(CassetteMiss(cfg.lossy(c.program))) && slots == old(slots)
      ensures var (served, after) := Serve(old(slots), Turn(KeyOf(cfg, c), None, Reaches(c)));
              slots == after && answer == AnswerFrom(cfg, c, served)
    {
      if OneShotStdin(c) {
        return Err(OneShotError(cfg));
      }
      if c.cancelled {
        return Err(Cancelled(cfg.Program(c)));
      }
      if !c.stdoutPiped {
        return Err(NotPipedError(cfg, c));
      }
      var key := KeyOf(cfg, c);
      if key !in slots {
        return Err(CassetteMiss(cfg.Program(c)));
      }
      var (entry, slot) := Play(slots[key]);
      slots := slots[key := slot];
      match entry.error {
        case Some(error) => answer := Err(LoadError(error, entry.program));
        case None => answer := Ok(ToResult(entry, c));
      }
    }
  }

  // ---------------------------------------------------------------------------------------
  // A session: the same calls, recorded and then replayed

  /** One call and what the real runner answered while recording. */
  datatype Trial = Trial(c: Command, a: Answer)

  /** A trial as the slots see it. */
  function TurnOf(cfg: Config, t: Trial): Turn<Key, Entry> {
    Turn(KeyOf(cfg, t.c), Stored(cfg, t.c, t.a), Reaches(t.c))
  }

  function Turns(cfg: Config, trials: seq<Trial>): (r: seq<Turn<Key, Entry>>)
    ensures |r| == |trials|
    ensures forall i :: 0 <= i < |trials| ==> r[i] == TurnOf(cfg, trials[i])
  {
    if trials == [] then []
    else Turns(cfg, trials[..|trials| - 1]) + [TurnOf(cfg, trials[|trials| - 1])]
  }

  /** The entries a session records. */
  function Recording(turns: seq<Turn<Key, Entry>>): seq<Entry> {
    if turns == [] then []
    else
      var last := turns[|turns| - 1];
      Recording(turns[..|turns| - 1]) + match last.stored case Some(e) => [e] case None => []
  }

  /** Stored entries carry the key of the call that left them. */
  predicate Keyful(t: Turn<Key, Entry>) {
    t.stored.Some? ==> KeyOfEntry(t.stored.value) == t.key && ValidOutcome(t.stored.value)
  }

  lemma {:induction false} RecordingByKey(turns: seq<Turn<Key, Entry>>)
    requires forall i :: 0 <= i < |turns| ==> Keyful(turns[i])
    ensures ByKey(Recording(turns)) == LogOf(turns) && |LogOf(turns)| == |Recording(turns)|
    ensures forall i :: 0 <= i < |Recording(turns)| ==> ValidOutcome(Recording(turns)[i])
    decreases |turns|
  {
    if turns != [] {
      var front, last := turns[..|turns| - 1], turns[|turns| - 1];
      RecordingByKey(front);
      match last.stored
      case Some(e) =>
        var entries := Recording(turns);
        assert entries[..|entries| - 1] == Recording(front);
      case None =>
        assert Recording(turns) == Recording(front) && LogOf(turns) == LogOf(front);
    }
  }

  lemma TurnIsKeyful(cfg: Config, t: Trial)
    ensures Keyful(TurnOf(cfg, t))
  {
  }

  // What a session's calls look like to the slots, in their own terms.

  predicate CancelledWhileRecording(t: Trial) {
    t.a.Err? && t.a.error.Cancelled?
  }

  /** Recording leaves an entry for exactly these calls. */
  predicate LeftEntry(t: Trial) {
    !OneShotStdin(t.c) && !CancelledWhileRecording(t)
  }

  /** How many calls on `k` were recorded although replay rejects them: unpiped, or cancelled by then. */
  function Lags(cfg: Config, trials: seq<Trial>, k: Key): nat {
    if trials == [] then 0
    else
      var t := trials[|trials| - 1];
      Lags(cfg, trials[..|trials| - 1], k)
      + if LeftEntry(t) && (t.c.cancelled || !t.c.stdoutPiped) && KeyOf(cfg, t.c) == k then 1 else 0
  }

  /** How many calls on `k` were cancelled while recording, so left no entry, but run on replay. */
  function Leads(cfg: Config, trials: seq<Trial>, k: Key): nat {
    if trials == [] then 0
    else
      var t := trials[|trials| - 1];
      Leads(cfg, trials[..|trials| - 1], k)
      + if CancelledWhileRecording(t) && Reaches(t.c) && KeyOf(cfg, t.c) == k then 1 else 0
  }

  predicate NoneLater(cfg: Config, trials: seq<Trial>, i: nat, k: Key) {
    forall j :: i < j < |trials| ==> !(LeftEntry(trials[j]) && KeyOf(cfg, trials[j].c) == k)
  }

  /**
    The earlier calls on the i-th call's key leave the cursor at its entry: as many lag as lead,
    or more lead but the call is the last one recorded on its key.
  */
  predicate Aligned(cfg: Config, trials: seq<Trial>, i: nat)
    requires i < |trials|
  {
    var k := KeyOf(cfg, trials[i].c);
    var lags, leads := Lags(cfg, trials[..i], k), Leads(cfg, trials[..i], k);
    lags == leads || (lags < leads && NoneLater(cfg, trials, i, k))
  }

  lemma StoredIff(cfg: Config, t: Trial)
    ensures Stored(cfg, t.c, t.a).Some? <==> LeftEntry(t)
  {
    if t.a.Err? {
      ErrorRoundTrip(t.a.error, "");
    }
  }

  lemma {:induction false} CountsAgree(cfg: Config, trials: seq<Trial>, k: Key)
    ensures Behind(Turns(cfg, trials), k) == Lags(cfg, trials, k)
    ensures Ahead(Turns(cfg, trials), k) == Leads(cfg, trials, k)
    decreases |trials|
  {
    if trials != [] {
      var front, last := trials[..|trials| - 1], trials[|trials| - 1];
      CountsAgree(cfg, front, k);
      StoredIff(cfg, last);
      assert Turns(cfg, trials)[..|trials| - 1] == Turns(cfg, front);
    }
  }

  lemma NoneLaterIff(cfg: Config, trials: seq<Trial>, i: nat, k: Key)
    ensures NoneLater(cfg, trials, i, k) <==> NoMore(Turns(cfg, trials), i + 1, k)
  {
    forall j | 0 <= j < |trials| {
      StoredIff(cfg, trials[j]);
    }
  }

  lemma AlignedIffInStep(cfg: Config, trials: seq<Trial>, i: nat)
    requires i < |trials|
    ensures Aligned(cfg, trials, i) <==> InStep(Turns(cfg, trials), i)
  {
    var k := KeyOf(cfg, trials[i].c);
    assert Turns(cfg, trials[..i]) == Turns(cfg, trials)[..i];
    CountsAgree(cfg, trials[..i], k);
    NoneLaterIff(cfg, trials, i, k);
  }

  /**
    Over every session: a recorded call that reaches the slots is served the entry at
    `ServedIndex`, and that is the place of its own entry if and only if it is aligned.
  */
  lemma ServedOwnIff(cfg: Config, slots: Slots, trials: seq<Trial>, i: nat)
    requires Serves(slots, LogOf(Turns(cfg, trials)), []) && NonEmpty(slots)
    requires |LogOf(Turns(cfg, trials))| <= USIZE_MAX
    requires i < |trials| && Reaches(trials[i].c) && !CancelledWhileRecording(trials[i])
    ensures var turns := Turns(cfg, trials);
            var all := Filter(LogOf(turns), turns[i].key);
            && OwnIndex(turns, i) < |all|
            && Some(all[OwnIndex(turns, i)]) == Stored(cfg, trials[i].c, trials[i].a)
            && ServeAll(slots, turns).0[i] == Some(all[ServedIndex(turns, i)])
            && (ServedIndex(turns, i) == OwnIndex(turns, i) <==> Aligned(cfg, trials, i))
  {
    StoredIff(cfg, trials[i]);
    AlignedIffInStep(cfg, trials, i);
    OwnEntryServed(slots, Turns(cfg, trials), i);
  }

  /** The i-th replayed answer. */
  function ReplayedAnswer(cfg: Config, slots: Slots, trials: seq<Trial>, i: nat): Answer
    requires NonEmpty(slots) && i < |trials|
  {
    AnswerFrom(cfg, trials[i].c, ServeAll(slots, Turns(cfg, trials)).0[i])
  }

  /** The answer a replayed call is owed: its own rejection, or what its recording promises. */
  function Owed(cfg: Config, t: Trial): Answer
    requires Reaches(t.c) ==> !CancelledWhileRecording(t)
  {
    if Reaches(t.c) then Promised(cfg, t.c, t.a) else Err(Rejection(cfg, t.c))
  }

  /**
    A key is in the slots of a recorded session, whatever was replayed from them since, exactly
    when some recorded call makes the same invocation; otherwise the call is a miss.
  */
  lemma KnownIff(cfg: Config, slots: Slots, trials: seq<Trial>, played: seq<Turn<Key, Entry>>, c: Command)
    requires Serves(slots, LogOf(Turns(cfg, trials)), played)
    ensures KeyOf(cfg, c) in slots <==>
              exists j :: 0 <= j < |trials| && LeftEntry(trials[j]) && SameInvocation(cfg, trials[j].c, c)
  {
    var turns := Turns(cfg, trials);
    var k := KeyOf(cfg, c);
    StoredIffNonEmpty(turns, k);
    forall j | 0 <= j < |trials|
      ensures turns[j].stored.Some? && turns[j].key == k <==> LeftEntry(trials[j]) && SameInvocation(cfg, trials[j].c, c)
    {
      StoredIff(cfg, trials[j]);
      KeyOfIff(cfg, trials[j].c, c);
    }
  }

  /** The calls whose replay is owed an answer that the slots deliver. */
  predicate Kept(cfg: Config, trials: seq<Trial>, i: nat)
    requires i < |trials|
  {
    Reaches(trials[i].c) ==>
      !CancelledWhileRecording(trials[i]) && Aligned(cfg, trials, i) && FitsMillis(trials[i].a)
  }

  /**
    Record, save, load, replay, over every session: a call that replay rejects is rejected as
    the source says, and an aligned one is answered as owed, whatever other keys are interleaved.
  */
  lemma SessionRoundTrip(cfg: Config, slots: Slots, trials: seq<Trial>, i: nat)
    requires Serves(slots, LogOf(Turns(cfg, trials)), []) && NonEmpty(slots)
    requires |LogOf(Turns(cfg, trials))| <= USIZE_MAX
    requires i < |trials| && Kept(cfg, trials, i)
    ensures ReplayedAnswer(cfg, slots, trials, i) == Owed(cfg, trials[i])
  {
    if Reaches(trials[i].c) {
      StoredIff(cfg, trials[i]);
      AlignedIffInStep(cfg, trials, i);
      RunServesOwnEntries(slots, Turns(cfg, trials), i);
      EntryRoundTrip(cfg, trials[i].c, trials[i].a);
    }
  }

  // ---------------------------------------------------------------------------------------
  // Both ways of losing step are real

  /** One unpiped call, which the real runner refuses, then the same command piped. */
  function LaggingSession(cfg: Config, c: Command, r: ProcessResult): seq<Trial> {
    [Trial(c.(stdoutPiped := false), Err(NotPipedError(cfg, c))), Trial(c, Ok(r))]
  }

  /**
    Replay hands the second call the first one's error instead of its own result.  (The digest
    looks at the invocation only, so not at how stdout is wired.)
  */
  lemma UnpipedCallSkewsReplay(cfg: Config, slots: Slots, c: Command, r: ProcessResult)
    requires Reaches(c) && NonEmpty(slots) && cfg.digest(c.(stdoutPiped := false)) == cfg.digest(c)
    requires Serves(slots, LogOf(Turns(cfg, LaggingSession(cfg, c, r))), [])
    ensures var trials := LaggingSession(cfg, c, r);
            && !CancelledWhileRecording(trials[0]) && !trials[0].c.cancelled && Reaches(trials[1].c)
            && Owed(cfg, trials[1]).Ok?
            && ReplayedAnswer(cfg, slots, trials, 1) == Err(NotPipedError(cfg, c))
  {
    var trials := LaggingSession(cfg, c, r);
    var turns := Turns(cfg, trials);
    var k := KeyOf(cfg, c);
    var first, second := turns[0].stored.value, turns[1].stored.value;
    assert turns == [Turn(k, Some(first), false), Turn(k, Some(second), true)];
    TwoTurnsServeFirst(slots, k, first, second);
    ErrorRoundTrip(NotPipedError(cfg, c), cfg.Program(c));
  }

  /** So it is with any policy of the program's own. */
  lemma PolicyRunnersSkew(p: MatchPolicy, oneShotText: string, notPipedText: string -> string,
                          slots: Slots, c: Command, r: ProcessResult)
    requires Reaches(c) && NonEmpty(slots)
    requires var cfg := PolicyConfig(p, oneShotText, notPipedText);
             Serves(slots, LogOf(Turns(cfg, LaggingSession(cfg, c, r))), [])
    ensures var cfg := PolicyConfig(p, oneShotText, notPipedText);
            ReplayedAnswer(cfg, slots, LaggingSession(cfg, c, r), 1) == Err(NotPipedError(cfg, c))
  {
    DigestIgnoresStdout(p, Digest.FNV1A, c, false);
    UnpipedCallSkewsReplay(PolicyConfig(p, oneShotText, notPipedText), slots, c, r);
  }

  /** One call cancelled while recording, then the same command run twice. */
  function LeadingSession(cfg: Config, c: Command, r1: ProcessResult, r2: ProcessResult): seq<Trial> {
    [Trial(c, Err(Cancelled(cfg.Program(c)))), Trial(c, Ok(r1)), Trial(c, Ok(r2))]
  }

  /** No call is unpiped, yet replay answers the second call with the third one's result. */
  lemma CancelledCallSkewsReplay(cfg: Config, slots: Slots, c: Command, r1: ProcessResult, r2: ProcessResult)
    requires Reaches(c) && NonEmpty(slots) && FitsMillis(Ok(r2))
    requires Serves(slots, LogOf(Turns(cfg, LeadingSession(cfg, c, r1, r2))), [])
    ensures var trials := LeadingSession(cfg, c, r1, r2);
            && (forall j :: 0 <= j < 3 ==> Reaches(trials[j].c))
            && Owed(cfg, trials[1]) == Promised(cfg, c, Ok(r1))
            && ReplayedAnswer(cfg, slots, trials, 1) == Promised(cfg, c, Ok(r2))
  {
    var trials := LeadingSession(cfg, c, r1, r2);
    var turns := Turns(cfg, trials);
    var k := KeyOf(cfg, c);
    var second, third := turns[1].stored.value, turns[2].stored.value;
    assert turns == [Turn(k, None, true), Turn(k, Some(second), true), Turn(k, Some(third), true)];
    ThreeTurnsServeThird(slots, k, second, third);
    EntryRoundTrip(cfg, c, Ok(r2));
  }

  // ---------------------------------------------------------------------------------------
  // The whole trip, run

  method RecordAll(runner: RecordRunner, trials: seq<Trial>)
    requires runner.recorded == []
    modifies runner
    ensures runner.recorded == Recording(Turns(runner.cfg, trials))
  {
    ghost var turns := Turns(runner.cfg, trials);
    var i := 0;
    assert turns[..0] == [];
    while i < |trials|
      invariant 0 <= i <= |trials|
      invariant runner.recorded == Recording(turns[..i])
    {
      assert turns[..i + 1][..i] == turns[..i];
      var _ := runner.OutputString(trials[i].c, trials[i].a);
      i := i + 1;
    }
    assert turns[..i] == turns;
  }

  /** The i-th call on the runner is the i-th turn of the session. */
  lemma ReplayStep(cfg: Config, slots: Slots, trials: seq<Trial>, i: nat)
    requires NonEmpty(slots) && i < |trials|
    ensures var turns := Turns(cfg, trials);
            Serve(ServeAll(slots, turns[..i]).1, Turn(KeyOf(cfg, trials[i].c), None, Reaches(trials[i].c)))
            == (ServeAll(slots, turns).0[i], ServeAll(slots, turns[..i + 1]).1)
  {
    var turns := Turns(cfg, trials);
    assert turns[..i + 1][..i] == turns[..i];
    ServeAllAt(slots, turns, i);
  }

  method ReplayOne(runner: ReplayRunner, ghost start: Slots, trials: seq<Trial>, i: nat) returns (answer: Answer)
    requires NonEmpty(start) && i < |trials|
    requires runner.slots == ServeAll(start, Turns(runner.cfg, trials)[..i]).1
    modifies runner
    ensures runner.slots == ServeAll(start, Turns(runner.cfg, trials)[..i + 1]).1
    ensures answer == ReplayedAnswer(runner.cfg, start, trials, i)
  {
    ReplayStep(runner.cfg, start, trials, i);
    answer := runner.OutputString(trials[i].c);
  }

  method ReplayEach(runner: ReplayRunner, trials: seq<Trial>) returns (answers: seq<Answer>)
    requires runner.Valid()
    modifies runner
    ensures |answers| == |trials|
    ensures forall i :: 0 <= i < |trials| ==> answers[i] == ReplayedAnswer(runner.cfg, old(runner.slots), trials, i)
  {
    ghost var start := runner.slots;
    answers := [];
    var i := 0;
    assert Turns(runner.cfg, trials)[..0] == [];
    while i < |trials|
      invariant 0 <= i <= |trials| && |answers| == i
      invariant runner.slots == ServeAll(start, Turns(runner.cfg, trials)[..i]).1
      invariant forall j :: 0 <= j < i ==> answers[j] == ReplayedAnswer(runner.cfg, start, trials, j)
    {
      var answer := ReplayOne(runner, start, trials, i);
      answers := answers + [answer];
      i := i + 1;
    }
  }

  /** What the slots hand the i-th call: entry min(earlier plays of its key, last) of the recorded ones. */
  function Serving(turns: seq<Turn<Key, Entry>>, i: nat): Option<Entry>
    requires i < |turns|
  {
    var all := Filter(LogOf(turns), turns[i].key);
    if all == [] then None else Some(all[Min(Plays(turns[..i], turns[i].key), |all| - 1)])
  }

  /**
    Record a session, save it, load the file, replay the session: any session. Every answer is
    determined, and every kept call is answered as owed.
  */
  method RecordThenReplay(cfg: Config, trials: seq<Trial>) returns (answers: seq<Answer>)
    requires |trials| <= USIZE_MAX
    ensures |answers| == |trials|
    ensures forall i :: 0 <= i < |trials| ==>
              answers[i] == AnswerFrom(cfg, trials[i].c, Serving(Turns(cfg, trials), i))
    ensures forall i :: 0 <= i < |trials| && Kept(cfg, trials, i) ==> answers[i] == Owed(cfg, trials[i])
  {
    ghost var turns := Turns(cfg, trials);
    forall i | 0 <= i < |turns|
      ensures Keyful(turns[i])
    {
      TurnIsKeyful(cfg, trials[i]);
    }
    RecordingByKey(turns);
    LogOfShorter(turns);
    var recorder := new RecordRunner(cfg, None);
    RecordAll(recorder, trials);
    var _ := recorder.Save(Written);
    var loaded := ReplaySlots(recorder.file.value);
    var slots := loaded.value;
    ServesNonEmpty(slots, LogOf(turns), []);
    var player := new ReplayRunner(cfg, slots);
    answers := ReplayEach(player, trials);
    forall i | 0 <= i < |trials|
      ensures answers[i] == AnswerFrom(cfg, trials[i].c, Serving(turns, i))
      ensures Kept(cfg, trials, i) ==> answers[i] == Owed(cfg, trials[i])
    {
      AnswerIsServed(cfg, slots, trials, i);
      if Kept(cfg, trials, i) {
        SessionRoundTrip(cfg, slots, trials, i);
      }
    }
  }

  lemma AnswerIsServed(cfg: Config, slots: Slots, trials: seq<Trial>, i: nat)
    requires Serves(slots, LogOf(Turns(cfg, trials)), []) && NonEmpty(slots)
    requires |LogOf(Turns(cfg, trials))| <= USIZE_MAX && i < |trials|
    ensures ReplayedAnswer(cfg, slots, trials, i) == AnswerFrom(cfg, trials[i].c, Serving(Turns(cfg, trials), i))
  {
    var turns := Turns(cfg, trials);
    if turns[i].reaches {
      ServedEntry(slots, LogOf(turns), turns, i);
      assert ServeAll(slots, turns).0[i] == Serving(turns, i);
    }
  }
}
