/**
  A recorder's save on a shared machine: the three ways a write can end, as `Recorder` has them,
  are what one call of the save protocol can leave behind.
*/
module RecorderSave {
  import opened Wrappers
  import opened SaveProtocol
  import opened SaveCall
  import CassetteEntry
  import opened Recorder

  /** Saver `s`'s file with exactly `json` is the k-th installed. */
  predicate Installed(st: State, s: SaverId, json: string, k: nat) {
    && k < |st.log| && AuthoredBy(st, st.log[k], s) && Complete(st, st.log[k])
    && st.inodes[st.log[k]].cache == st.inodes[st.log[k]].disk == json
  }

  /** What each end means: durably installed, installed whole, or no file of this saver. */
  predicate Shows(st: State, s: SaverId, json: string, end: WriteEnd) {
    match end
    case Written => exists k :: 0 <= k < st.mark && Installed(st, s, json, k)
    case Swapped => exists k :: 0 <= k < |st.log| && Installed(st, s, json, k)
    case Untouched => forall k :: 0 <= k < |st.log| ==> !AuthoredBy(st, st.log[k], s)
  }

  predicate InstalledSome(st: State, s: SaverId) {
    exists k :: 0 <= k < |st.log| && AuthoredBy(st, st.log[k], s)
  }

  function EndOf(st: State, s: SaverId, ok: bool): WriteEnd {
    if ok then Written else if InstalledSome(st, s) then Swapped else Untouched
  }

  lemma InstalledWhole(st: State, s: SaverId, json: string, k: nat)
    requires History(st) && s in st.savers && st.savers[s].json == json
    requires k < |st.log| && AuthoredBy(st, st.log[k], s)
    ensures Installed(st, s, json, k)
  {
    assert Complete(st, st.log[k]);
  }

  /** However a call returns, its end is one of the three. */
  lemma EndsAreAll(st: State, s: SaverId, json: string, verdict: Verdict)
    requires Inv(st) && s in st.savers && st.savers[s] == Saver(json, Returned(verdict))
    ensures Shows(st, s, json, EndOf(st, s, verdict.Saved?))
  {
    if verdict.Saved? {
      var k := SavedPlace(st, s);
      InstalledWhole(st, s, json, k);
    } else if InstalledSome(st, s) {
      var k :| 0 <= k < |st.log| && AuthoredBy(st, st.log[k], s);
      InstalledWhole(st, s, json, k);
    }
  }

  /** save: encode the whole log, write it as saver `s`, and note how the write ended. */
  method SaveRecorder(runner: RecordRunner, m: Machine, s: SaverId, encode: Cassette -> string)
    returns (ok: bool, end: WriteEnd)
    requires m.Valid() && s !in m.st.savers
    modifies runner, m
    ensures m.Valid() && (ok <==> end.Written?)
    ensures s in m.st.savers && (ok <==> m.st.savers[s].pc.IsSaved())
    ensures Shows(m.st, s, encode(Snapshot(old(runner.recorded))), end)
    ensures runner.State() == AfterSave(old(runner.State()), end)
  {
    var json := encode(Cassette(CASSETTE_VERSION, runner.recorded));
    ghost var before := runner.State();
    var r, inode := WriteCassette(m, s, json);
    LedMeans(m.origin, m.trace, m.st);
    EndsAreAll(m.st, s, json, Outcome(r, inode));
    end := EndOf(m.st, s, r.Ok?);
    ok := runner.Save(end);
  }
}
