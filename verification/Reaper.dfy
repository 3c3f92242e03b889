/**
  Sole ownership of detached children: handed over through a channel whose receiver may die and
  be replaced, held by one loop that polls them with a bounded back-off, and released only
  after a terminal wait.
*/
module Reaper {
  import opened Wrappers

  /** An I/O error: the operating system's code, if it came from there, and its text. */
  datatype IoError = IoError(raw: Option<int>, text: string)

  const ECHILD: int := 10

  /** Somebody else consumed the status: no later wait can succeed. */
  predicate IsAlreadyReaped(e: IoError) {
    e.raw == Some(ECHILD)
  }

  // Handing a message to the manager.

  /** A channel: whether its receiver is alive, and everything it has accepted. */
  datatype Channel<T> = Channel(isOpen: bool, accepted: seq<T>)

  /** What the world does during one attempt: the receiver dies before the send; starting a thread fails. */
  datatype Attempt = Attempt(receiverDies: bool, startError: Option<IoError>)

  datatype Tried = Sent | Closed | StartFailed(source: IoError)

  datatype Refusal<T> = Refusal(message: T, source: IoError)

  const DISCONNECTED: IoError := IoError(None, "disconnected after restart")

  /** The refusal `send_with` owes for a message, None when it must be accepted. */
  function Expected(live: bool, first: Attempt, second: Attempt): Option<IoError> {
    if !live && first.startError.Some? then first.startError
    else if !first.receiverDies then None
    else Last(second)
  }

  /** The outcome of the replacement attempt. */
  function Last(second: Attempt): Option<IoError> {
    if second.startError.Some? then second.startError
    else if second.receiverDies then Some(DISCONNECTED)
    else None
  }

  /** Where a refusal's error comes from, and when there is none. */
  lemma ExpectedMeans(live: bool, first: Attempt, second: Attempt)
    ensures !live && first.startError.Some? ==> Expected(live, first, second) == first.startError
    ensures (live || first.startError.None?) && !first.receiverDies ==> Expected(live, first, second) == None
    ensures (live || first.startError.None?) && first.receiverDies && second.startError.Some? ==>
              Expected(live, first, second) == second.startError
    ensures (live || first.startError.None?) && first.receiverDies && second.startError.None? ==>
              Expected(live, first, second) == if second.receiverDies then Some(DISCONNECTED) else None
  {
  }

  predicate LastIs<T(==)>(s: seq<T>, x: T) {
    s != [] && s[|s| - 1] == x
  }

  /** Everything any receiver ever accepted. */
  function Accepted<T>(channels: seq<Channel<T>>): multiset<T> {
    if channels == [] then multiset{}
    else Accepted(channels[..|channels| - 1]) + multiset(channels[|channels| - 1].accepted)
  }

  lemma {:induction false} AcceptedUpdate<T>(channels: seq<Channel<T>>, i: nat, c: Channel<T>, more: multiset<T>)
    requires i < |channels| && multiset(c.accepted) == multiset(channels[i].accepted) + more
    ensures Accepted(channels[i := c]) == Accepted(channels) + more
  {
    var last := |channels| - 1;
    var updated := channels[i := c];
    if i < last {
      assert updated[..last] == channels[..last][i := c];
      AcceptedUpdate(channels[..last], i, c, more);
      Swap(Accepted(channels[..last]), more, multiset(channels[last].accepted));
    } else {
      assert updated[..last] == channels[..last];
    }
  }

  lemma Swap<T>(a: multiset<T>, b: multiset<T>, c: multiset<T>)
    ensures a + b + c == a + c + b && a + (b + c) == a + b + c
  {
  }

  lemma AcceptedPush<T>(channels: seq<Channel<T>>, c: Channel<T>)
    ensures Accepted(channels + [c]) == Accepted(channels) + multiset(c.accepted)
  {
  }

  /** One attempt, on the slot and the channels: what comes of it, and both afterwards. */
  function Once<T>(sender: Option<nat>, channels: seq<Channel<T>>, message: T, world: Attempt)
    : (Tried, Option<nat>, seq<Channel<T>>)
    requires sender.Some? ==> sender.value < |channels|
  {
    if sender.None? && world.startError.Some? then (StartFailed(world.startError.value), None, channels)
    else
      var i := if sender.None? then |channels| else sender.value;
      var all := if sender.None? then channels + [Channel(true, [])] else channels;
      if world.receiverDies || !all[i].isOpen then (Closed, None, all[i := all[i].(isOpen := false)])
      else (Sent, Some(i), all[i := all[i].(accepted := all[i].accepted + [message])])
  }

  lemma ClosingAccepts<T>(channels: seq<Channel<T>>, i: nat)
    requires i < |channels|
    ensures Accepted(channels[i := channels[i].(isOpen := false)]) == Accepted(channels)
  {
    AcceptedUpdate(channels, i, channels[i].(isOpen := false), multiset{});
  }

  lemma SendingAccepts<T>(channels: seq<Channel<T>>, i: nat, message: T)
    requires i < |channels|
    ensures Accepted(channels[i := channels[i].(accepted := channels[i].accepted + [message])])
            == Accepted(channels) + multiset{message}
  {
    assert multiset(channels[i].accepted + [message]) == multiset(channels[i].accepted) + multiset{message};
    AcceptedUpdate(channels, i, channels[i].(accepted := channels[i].accepted + [message]), multiset{message});
  }

  /** An attempt that sends adds the message to what was accepted, once; any other adds nothing. */
  lemma OnceAccepts<T>(sender: Option<nat>, channels: seq<Channel<T>>, message: T, world: Attempt)
    requires sender.Some? ==> sender.value < |channels|
    ensures var (r, s, all) := Once(sender, channels, message, world);
      && Accepted(all) == (if r.Sent? then Accepted(channels) + multiset{message} else Accepted(channels))
      && (r.Sent? <==> s.Some?)
      && (r.Sent? ==> s.value < |all| && all[s.value].isOpen && LastIs(all[s.value].accepted, message))
  {
    var i := if sender.None? then |channels| else sender.value;
    var before := if sender.None? then channels + [Channel(true, [])] else channels;
    assert Accepted(before) == Accepted(channels) by {
      AcceptedPush(channels, Channel(true, []));
    }
    if world.receiverDies || !before[i].isOpen {
      ClosingAccepts(before, i);
    } else {
      SendingAccepts(before, i, message);
    }
  }

  /** A replacement attempt, if the first found its receiver gone. */
  function Again<T>(tried: Tried, sender: Option<nat>, channels: seq<Channel<T>>, message: T, second: Attempt)
    : (Option<IoError>, Option<nat>, seq<Channel<T>>)
    requires sender.Some? ==> sender.value < |channels|
  {
    match tried
    case StartFailed(source) => (Some(source), sender, channels)
    case Sent => (None, sender, channels)
    case Closed =>
      var (r, s, all) := Once(sender, channels, message, second);
      (match r case StartFailed(source) => Some(source) case Sent => None case Closed => Some(DISCONNECTED), s, all)
  }

  /** At most two attempts; the second meets an empty slot. */
  function Twice<T>(sender: Option<nat>, channels: seq<Channel<T>>, message: T, first: Attempt, second: Attempt)
    : (Option<IoError>, Option<nat>, seq<Channel<T>>)
    requires sender.Some? ==> sender.value < |channels|
  {
    var (r, s, all) := Once(sender, channels, message, first);
    Again(r, s, all, message, second)
  }

  /** The process-wide slot for the current manager's sender. */
  class Manager<T(==)> {
    var sender: Option<nat>
    // The channels made so far, alive or not, and how often a thread was started.
    var channels: seq<Channel<T>>
    var starts: nat

    ghost predicate Valid()
      reads this
    {
      sender.Some? ==> sender.value < |channels|
    }

    /** The send will find no receiver. */
    ghost predicate Dies(world: Attempt)
      reads this
      requires Valid()
    {
      world.receiverDies || (sender.Some? && !channels[sender.value].isOpen)
    }

    ghost function Owed(first: Attempt, second: Attempt): Option<IoError>
      reads this
      requires Valid()
    {
      Expected(sender.Some?, first.(receiverDies := Dies(first)), second)
    }

    constructor ()
      ensures Valid() && sender.None? && Accepted(channels) == multiset{} && starts == 0
    {
      sender, channels, starts := None, [], 0;
    }

    method StartWith(startError: Option<IoError>) returns (r: Option<IoError>)
      requires Valid()
      modifies this
      ensures Valid()
      ensures r == if old(sender).Some? then None else startError
      ensures old(sender).None? && r.None? ==>
                sender == Some(|old(channels)|) && channels == old(channels) + [Channel(true, [])]
      ensures r.None? ==> sender.Some?
      ensures r.Some? ==> channels == old(channels)
      ensures r.Some? ==> sender.None?
      ensures old(sender).Some? ==> sender == old(sender) && channels == old(channels)
      ensures starts == old(starts) + if old(sender).Some? then 0 else 1
    {
      if sender.Some? {
        return None;
      }
      starts := starts + 1;
      if startError.Some? {
        return startError;
      }
      channels := channels + [Channel(true, [])];
      sender := Some(|channels| - 1);
      r := None;
    }

    /** mpsc's send: an open receiver takes the message, a dead one leaves it with the caller. */
    method Send(message: T, receiverDies: bool) returns (delivered: bool)
      requires Valid() && sender.Some?
      modifies this`channels
      ensures Valid() && |channels| == |old(channels)|
      ensures delivered == (old(channels)[sender.value].isOpen && !receiverDies)
      ensures var c := old(channels)[sender.value];
        channels == old(channels)[sender.value :=
          if delivered then c.(accepted := c.accepted + [message]) else c.(isOpen := false)]
    {
      var i := sender.value;
      var c := channels[i];
      if receiverDies || !c.isOpen {
        channels := channels[i := c.(isOpen := false)];
        delivered := false;
      } else {
        channels := channels[i := c.(accepted := c.accepted + [message])];
        delivered := true;
      }
    }

    /** One attempt: a receiver there already or started now, and a send that drops a dead sender. */
    method TryOnce(message: T, world: Attempt) returns (r: Tried)
      requires Valid()
      modifies this
      ensures Valid()
      ensures Accepted(channels) == if r.Sent? then Accepted(old(channels)) + multiset{message} else Accepted(old(channels))
      ensures r == if old(sender).None? && world.startError.Some? then StartFailed(world.startError.value)
                   else if old(Dies(world)) then Closed
                   else Sent
      ensures (r, sender, channels) == Once(old(sender), old(channels), message, world)
      ensures r.Sent? <==> sender.Some?
      ensures r.Sent? ==> channels[sender.value].isOpen && LastIs(channels[sender.value].accepted, message)
      ensures starts == old(starts) + if old(sender).Some? then 0 else 1
    {
      OnceAccepts(sender, channels, message, world);
      var failure := StartWith(world.startError);
      if failure.Some? {
        return StartFailed(failure.value);
      }
      var delivered := Send(message, world.receiverDies);
      if delivered {
        return Sent;
      }
      sender := None;
      return Closed;
    }

    /**
      The message ends in exactly one place, after at most two starts: accepted once by a live
      receiver, or back with the caller and accepted by nobody. A sender stays installed exactly
      when it was accepted.
    */
    method SendWith(message: T, first: Attempt, second: Attempt) returns (r: Option<Refusal<T>>)
      requires Valid()
      modifies this
      ensures Valid()
      ensures Accepted(channels) == if r.None? then Accepted(old(channels)) + multiset{message} else Accepted(old(channels))
      ensures r.Some? ==> r.value.message == message
      ensures (if r.None? then None else Some(r.value.source), sender, channels)
              == Twice(old(sender), old(channels), message, first, second)
      ensures r.None? <==> sender.Some?
      ensures r.None? ==> channels[sender.value].isOpen && LastIs(channels[sender.value].accepted, message)
      ensures old(starts) <= starts <= old(starts) + if old(sender).Some? then 1 else 2
      ensures old(Owed(first, second)) == if r.None? then None else Some(r.value.source)
    {
      for attempt := 0 to 2
        invariant attempt < 2 && Valid()
        invariant attempt == 0 ==> sender == old(sender) && channels == old(channels) && starts == old(starts)
        invariant attempt == 1 ==> sender.None? && Accepted(channels) == Accepted(old(channels))
        invariant attempt == 1 ==> old(Owed(first, second)) == Last(second)
        invariant attempt == 1 ==> (Closed, sender, channels) == Once(old(sender), old(channels), message, first)
        invariant attempt == 1 ==> starts == old(starts) + if old(sender).Some? then 0 else 1
      {
        var tried := TryOnce(message, if attempt == 0 then first else second);
        match tried
        case StartFailed(source) =>
          return Some(Refusal(message, source));
        case Sent =>
          return None;
        case Closed =>
          if attempt == 1 {
            return Some(Refusal(message, DISCONNECTED));
          }
      }
    }
  }

  // Waiting for one child, and for all of them.

  type Child = nat

  /** A wait's answer: a status, nothing yet (a poll only), or an error. */
  datatype Answer = Exited | Running | Failed(error: IoError)

  /** After this answer nothing is left to wait for. */
  predicate Terminal(a: Answer) {
    a.Exited? || (a.Failed? && IsAlreadyReaped(a.error))
  }

  /** A status, or the system's code 10, no child processes; nothing else lets a child go. */
  lemma TerminalIff(a: Answer)
    ensures Terminal(a) <==> a == Exited || (a.Failed? && a.error.raw == Some(10))
  {
  }

  /** Blocking waits as the world will answer them: a child never terminal within them stays held. */
  type Waits = seq<Answer>

  datatype Waited = Reaped(firstError: Option<IoError>) | StillHeld

  /** The first error before the child was gone, or that it never went. */
  function WaitedFor(waits: Waits): Waited {
    if waits == [] then StillHeld
    else if Terminal(waits[0]) then Reaped(None)
    else
      match WaitedFor(waits[1..])
      case StillHeld => StillHeld
      case Reaped(later) => Reaped(if waits[0].Failed? then Some(waits[0].error) else later)
  }

  /** A child is let go exactly when some wait was terminal, and errors seen after that cannot exist. */
  lemma {:induction false} WaitedForMeans(waits: Waits)
    ensures WaitedFor(waits).Reaped? <==> exists i :: 0 <= i < |waits| && Terminal(waits[i])
    ensures WaitedFor(waits).Reaped? && WaitedFor(waits).firstError.Some? ==>
              !IsAlreadyReaped(WaitedFor(waits).firstError.value)
  {
    if waits != [] && !Terminal(waits[0]) {
      WaitedForMeans(waits[1..]);
      assert forall i | 0 < i < |waits| :: waits[i] == waits[1..][i - 1];
    }
  }

  /** No earlier wait was terminal or failed, and wait `i` failed with `e`. */
  predicate FirstFailure(waits: Waits, i: int, e: IoError) {
    && 0 <= i < |waits| && waits[i] == Failed(e)
    && forall j :: 0 <= j < i ==> !Terminal(waits[j]) && !waits[j].Failed?
  }

  /** The error that is kept is the first failure before the terminal wait; without one none is kept. */
  lemma {:induction false} WaitedForFirst(waits: Waits)
    ensures WaitedFor(waits).Reaped? && WaitedFor(waits).firstError.Some? ==>
              exists i :: FirstFailure(waits, i, WaitedFor(waits).firstError.value) && !Terminal(waits[i])
    ensures WaitedFor(waits) == Reaped(None) ==>
              exists i :: 0 <= i < |waits| && Terminal(waits[i]) && forall j :: 0 <= j < i ==> !waits[j].Failed?
  {
    if waits != [] {
      if Terminal(waits[0]) {
      } else if waits[0].Failed? {
        assert FirstFailure(waits, 0, waits[0].error);
      } else {
        WaitedForFirst(waits[1..]);
        assert forall j :: 0 < j < |waits| ==> waits[j] == waits[1..][j - 1];
        FirstFailureLater(waits);
      }
    }
  }

  lemma FirstFailureLater(waits: Waits)
    requires waits != [] && waits[0].Running?
    ensures forall i, e :: FirstFailure(waits[1..], i, e) ==> FirstFailure(waits, i + 1, e)
  {
    assert forall j :: 0 < j < |waits| ==> waits[j] == waits[1..][j - 1];
  }

  /** Waits until the child is gone, keeping the first error. It never returns while the child is held. */
  method WaitUntilReaped(waits: Waits) returns (r: Waited, asked: nat)
    ensures r == WaitedFor(waits)
    ensures asked <= |waits| && forall i | 0 <= i < asked - 1 :: !Terminal(waits[i])
    ensures r.Reaped? ==> asked > 0 && Terminal(waits[asked - 1])
  {
    var firstError := None;
    asked := 0;
    while asked < |waits|
      invariant asked <= |waits|
      invariant forall i | 0 <= i < asked :: !Terminal(waits[i])
      invariant WaitedFor(waits) == Preceded(firstError, WaitedFor(waits[asked..]))
    {
      var answer := waits[asked];
      assert waits[asked..][1..] == waits[asked + 1..];
      asked := asked + 1;
      if Terminal(answer) {
        return Reaped(firstError), asked;
      }
      if answer.Failed? && firstError.None? {
        firstError := Some(answer.error);
      }
    }
    return StillHeld, asked;
  }

  /** A result seen after `error` had already been kept. */
  function Preceded(error: Option<IoError>, later: Waited): Waited {
    if later.Reaped? && error.Some? then Reaped(error) else later
  }

  // The hand-over, with the caller as the last owner.

  datatype Message = Probe | Handed(child: Child)

  datatype HandoffError = Plain(source: IoError) | WithWait(source: IoError, wait: IoError)

  datatype Handoff = Kept | Refused(error: HandoffError) | Waiting

  function FailedHandoff(source: IoError, waited: Waited): Handoff {
    match waited
    case StillHeld => Waiting
    case Reaped(None) => Refused(Plain(source))
    case Reaped(Some(wait)) => Refused(WithWait(source, wait))
  }

  /**
    An error returned means the child is gone: it was given to nobody and a wait was terminal. It
    carries the hand-over's error, and the first wait's failure if there was one.
  */
  method HandOff(m: Manager<Message>, child: Child, first: Attempt, second: Attempt, waits: Waits)
    returns (r: Handoff)
    requires m.Valid()
    modifies m
    ensures m.Valid() && m.starts <= old(m.starts) + 2
    ensures Accepted(m.channels)
            == if r.Kept? then Accepted(old(m.channels)) + multiset{Handed(child)} else Accepted(old(m.channels))
    ensures (old(m.Owed(first, second)), m.sender, m.channels)
            == Twice(old(m.sender), old(m.channels), Handed(child), first, second)
    ensures r.Refused? ==> WaitedFor(waits).Reaped? && exists i :: 0 <= i < |waits| && Terminal(waits[i])
    ensures r.Refused? ==> old(m.Owed(first, second)) == Some(r.error.source)
    ensures r.Refused? && r.error.WithWait? ==> exists i :: FirstFailure(waits, i, r.error.wait)
    ensures r.Refused? && r.error.Plain? ==>
              exists i :: 0 <= i < |waits| && Terminal(waits[i]) && forall j :: 0 <= j < i ==> !waits[j].Failed?
    ensures r.Waiting? ==> forall i :: 0 <= i < |waits| ==> !Terminal(waits[i])
    ensures var refusal := old(m.Owed(first, second));
      r == if refusal.None? then Kept else FailedHandoff(refusal.value, WaitedFor(waits))
  {
    var refusal := m.SendWith(Handed(child), first, second);
    if refusal.None? {
      return Kept;
    }
    var waited, asked := WaitUntilReaped(waits);
    WaitedForMeans(waits);
    WaitedForFirst(waits);
    r := FailedHandoff(refusal.value.source, waited);
  }

  // The loop that holds the children.

  const INITIAL: nat := 10
  const MAX: nat := 1000

  function NextPollInterval(current: nat): nat {
    if 2 * current <= MAX then 2 * current else MAX
  }

  function Pow2(k: nat): nat {
    if k == 0 then 1 else 2 * Pow2(k - 1)
  }

  /** The interval after k timeouts in a row. */
  function Interval(k: nat): nat {
    if 10 * Pow2(k) <= MAX then 10 * Pow2(k) else MAX
  }

  lemma {:induction false} IntervalStep(k: nat)
    ensures Interval(k + 1) == NextPollInterval(Interval(k))
    ensures k >= 7 ==> Interval(k) == MAX
  {
    if k > 7 {
      IntervalStep(k - 1);
    } else if k == 7 {
      assert Pow2(7) == 128;
    }
  }

  /** The time k timeouts in a row take, in milliseconds. */
  function Elapsed(k: nat): nat {
    if k == 0 then 0 else Elapsed(k - 1) + Interval(k - 1)
  }

  /** Seven timeouts reach the cap; every later one takes a whole second. */
  lemma {:induction false} ElapsedClosed(k: nat)
    ensures Elapsed(k) == if k <= 7 then 10 * (Pow2(k) - 1) else 1270 + (k - 7) * 1000
  {
    assert Pow2(6) == 64 && Pow2(7) == 128;
    if k > 0 {
      ElapsedClosed(k - 1);
      IntervalStep(k - 1);
      if k < 7 {
        Pow2Grows(k - 1, 6);
      }
    }
  }

  lemma {:induction false} Pow2Grows(a: nat, b: nat)
    requires a <= b
    ensures Pow2(a) <= Pow2(b)
  {
    if a < b {
      Pow2Grows(a, b - 1);
    }
  }

  /** What the world brings a loop turn: a message, a whole interval without one, or the last sender gone. */
  datatype Event =
    | Arrives(message: Message, poll: Child -> Answer)
    | Quiet(poll: Child -> Answer)
    | HangUp(waits: Child -> Waits)

  function Brought(e: Event): multiset<Child> {
    if e.Arrives? && e.message.Handed? then multiset{e.message.child} else multiset{}
  }

  function BroughtAll(events: seq<Event>): multiset<Child> {
    if |events| == 0 then multiset{} else BroughtAll(events[..|events| - 1]) + Brought(events[|events| - 1])
  }

  /** Whether the loop has returned, is still waiting for events, or waits for a child that never goes. */
  datatype End = Awake | Returned | Blocked

  class Loop {
    var children: seq<Child>
    var pollInterval: nat

    // History: every child taken in, every child a terminal wait released, and the timeouts since
    // the interval was last reset with the time they took.
    ghost var received: multiset<Child>
    ghost var reaped: multiset<Child>
    ghost var timeouts: nat
    ghost var elapsed: nat

    ghost predicate Valid()
      reads this
    {
      && received == multiset(children) + reaped
      && pollInterval == Interval(timeouts)
      && elapsed == Elapsed(timeouts)
    }

    constructor ()
      ensures Valid() && children == [] && received == multiset{}
    {
      children, pollInterval := [], INITIAL;
      received, reaped, timeouts, elapsed := multiset{}, multiset{}, 0, 0;
    }

    /** One pass: every held child is polled once, and exactly those gone for good are let go. */
    method ReapFinished(poll: Child -> Answer) returns (ghost polled: seq<Child>)
      requires Valid()
      modifies this`children, this`reaped
      ensures Valid()
      ensures multiset(polled) == multiset(old(children))
      ensures Passed(multiset(old(children)), multiset(children), poll)
    {
      polled := [];
      var index := 0;
      ghost var gone := multiset{};
      while index < |children|
        modifies this`children
        invariant Scanned(old(children), children, index, gone, polled, poll)
        decreases |children| - index
      {
        var child := children[index];
        if Terminal(poll(child)) {
          ScanReleases(old(children), children, index, gone, polled, poll);
          children := SwapRemove(children, index);
          gone := gone + multiset{child};
        } else {
          ScanKeeps(old(children), children, index, gone, polled, poll);
          index := index + 1;
        }
        polled := polled + [child];
      }
      ScanEnds(old(children), children, gone, reaped, polled, poll);
      reaped := reaped + gone;
    }

    /** Takes a message in; a child asks for the short interval again. */
    method Receive(message: Message) returns (isChild: bool)
      requires Valid()
      modifies this`children, this`received
      ensures Valid() && isChild == message.Handed?
      ensures children == if isChild then old(children) + [message.child] else old(children)
      ensures received == old(received) + if isChild then multiset{message.child} else multiset{}
    {
      match message
      case Handed(child) =>
        children := children + [child];
        received := received + multiset{child};
        isChild := true;
      case Probe =>
        isChild := false;
    }

    method ResetInterval()
      requires Valid()
      modifies this`pollInterval, this`timeouts, this`elapsed
      ensures Valid() && pollInterval == INITIAL && timeouts == 0
    {
      pollInterval, timeouts, elapsed := INITIAL, 0, 0;
    }

    /** One timeout: the whole interval passed, a pass is made, and the next wait is longer. */
    method Tick(poll: Child -> Answer)
      requires Valid()
      modifies this`children, this`reaped, this`pollInterval, this`timeouts, this`elapsed
      ensures Valid() && timeouts == old(timeouts) + 1 && elapsed == old(elapsed) + old(pollInterval)
      ensures Passed(multiset(old(children)), multiset(children), poll)
    {
      var polled := ReapFinished(poll);
      IntervalStep(timeouts);
      elapsed := elapsed + pollInterval;
      timeouts := timeouts + 1;
      pollInterval := NextPollInterval(pollInterval);
    }

    /** The last sender is gone: every child held is waited for, one after the other. */
    method FinishAll(waits: Child -> Waits) returns (finished: bool)
      requires Valid()
      modifies this`children, this`reaped
      ensures Valid()
      ensures finished <==> forall c | c in old(children) :: WaitedFor(waits(c)).Reaped?
      ensures finished ==> children == []
    {
      ghost var before := children;
      while children != []
        invariant Valid()
        invariant |children| <= |before| && children == before[|before| - |children|..]
        invariant forall i | 0 <= i < |before| - |children| :: WaitedFor(waits(before[i])).Reaped?
        decreases |children|
      {
        var child := children[0];
        assert child == before[|before| - |children|];
        var waited, asked := WaitUntilReaped(waits(child));
        if waited.StillHeld? {
          return false;
        }
        LetGo();
      }
      return true;
    }

    /** The first child is gone; its handle is dropped. */
    method LetGo()
      requires Valid() && children != []
      modifies this`children, this`reaped
      ensures Valid() && children == old(children)[1..]
    {
      assert children == [children[0]] + children[1..];
      reaped := reaped + multiset{children[0]};
      children := children[1..];
    }

    /** One turn of the loop; it ends only with nothing held. */
    method Turn(event: Event) returns (end: End)
      requires Valid()
      modifies this
      ensures Valid()
      ensures received == old(received) + Brought(event)
      ensures end.Returned? ==> event.HangUp? && children == []
      ensures event.HangUp? ==>
                (end.Returned? <==> forall c | c in old(children) :: WaitedFor(event.waits(c)).Reaped?)
      ensures end.Blocked? ==> event.HangUp? && exists c :: c in old(children) && WaitedFor(event.waits(c)).StillHeld?
      ensures end.Awake? ==> !event.HangUp?
      ensures event.Quiet? && old(children) != [] ==>
                timeouts == old(timeouts) + 1 && elapsed == old(elapsed) + old(pollInterval)
      ensures event.Arrives? ==> Passed(multiset(old(children)) + Brought(event), multiset(children), event.poll)
      ensures event.Quiet? ==>
                if old(children) == [] then children == []
                else Passed(multiset(old(children)), multiset(children), event.poll)
      ensures !event.HangUp? && old(children) == [] ==> pollInterval == INITIAL
      ensures event.Arrives? && event.message.Handed? ==> pollInterval == INITIAL && timeouts == 0
      ensures event.Arrives? && event.message.Probe? && old(children) != [] ==> pollInterval == old(pollInterval)
    {
      if event.HangUp? {
        end := Leave(event.waits);
      } else if event.Arrives? {
        Admit(event.message);
        var polled := ReapFinished(event.poll);
        end := Awake;
      } else {
        Idle(event.poll);
        end := Awake;
      }
    }

    /** Both receives: an empty loop starts from the short interval, and so does one with a new child. */
    method Admit(message: Message)
      requires Valid()
      modifies this`children, this`received, this`pollInterval, this`timeouts, this`elapsed
      ensures Valid()
      ensures children == if message.Handed? then old(children) + [message.child] else old(children)
      ensures received == old(received) + if message.Handed? then multiset{message.child} else multiset{}
      ensures if message.Handed? || old(children) == [] then pollInterval == INITIAL && timeouts == 0
              else pollInterval == old(pollInterval) && timeouts == old(timeouts)
    {
      if children == [] {
        ResetInterval();
        var isChild := Receive(message);
      } else {
        var isChild := Receive(message);
        if isChild {
          ResetInterval();
        }
      }
    }

    /** No message: with children held a timeout, without any the blocking receive goes on. */
    method Idle(poll: Child -> Answer)
      requires Valid()
      modifies this`children, this`reaped, this`pollInterval, this`timeouts, this`elapsed
      ensures Valid()
      ensures if old(children) == [] then children == [] && pollInterval == INITIAL && timeouts == 0
              else
                && timeouts == old(timeouts) + 1 && elapsed == old(elapsed) + old(pollInterval)
                && Passed(multiset(old(children)), multiset(children), poll)
    {
      if children == [] {
        ResetInterval();
      } else {
        Tick(poll);
      }
    }

    /** The last sender is gone. */
    method Leave(waits: Child -> Waits) returns (end: End)
      requires Valid()
      modifies this`children, this`reaped, this`pollInterval, this`timeouts, this`elapsed
      ensures Valid() && !end.Awake?
      ensures end.Returned? <==> forall c | c in old(children) :: WaitedFor(waits(c)).Reaped?
      ensures end.Returned? ==> children == []
    {
      if children == [] {
        ResetInterval();
        return Returned;
      }
      var finished := FinishAll(waits);
      return if finished then Returned else Blocked;
    }

    /** One turn, and what it adds to the run so far. */
    method NextTurn(events: seq<Event>, n: nat) returns (end: End)
      requires Valid() && n < |events|
      requires received == BroughtAll(events[..n]) && Streaks(events, n, children, timeouts)
      modifies this
      ensures Valid()
      ensures received == BroughtAll(events[..n + 1]) && Streaks(events, n + 1, children, timeouts)
      ensures end.Returned? ==> children == []
      ensures !end.Awake? ==> events[n].HangUp?
    {
      ghost var held, count := children, timeouts;
      assert events[..n + 1][..n] == events[..n];
      end := Turn(events[n]);
      StreaksStep(events, n, held, count, children, timeouts);
    }

    /**
      The manager thread, over any run of events. The interval is that of the timeouts since a
      child last arrived, for as long as a child is held.
    */
    method ReapLoop(events: seq<Event>) returns (end: End, turns: nat)
      requires Valid() && received == multiset{}
      modifies this
      ensures Valid() && turns <= |events|
      ensures received == BroughtAll(events[..turns]) == multiset(children) + reaped
      ensures end.Returned? ==> children == [] && reaped == BroughtAll(events[..turns])
      ensures end.Awake? ==> turns == |events|
      ensures !end.Awake? ==> turns > 0 && events[turns - 1].HangUp?
      ensures forall from, c :: Streak(events, from, turns, c) ==>
                && c in children && timeouts == turns - from
                && pollInterval == Interval(turns - from) && elapsed == Elapsed(turns - from)
    {
      turns, end := 0, Awake;
      while turns < |events| && end.Awake?
        invariant Valid() && turns <= |events|
        invariant received == BroughtAll(events[..turns]) && Streaks(events, turns, children, timeouts)
        invariant end.Returned? ==> children == []
        invariant !end.Awake? ==> turns > 0 && events[turns - 1].HangUp?
        decreases |events| - turns
      {
        end := NextTurn(events, turns);
        turns := turns + 1;
      }
    }
  }

  /** Child `c` arrived with the event before `from`, was never found gone, and only timeouts followed. */
  ghost predicate Streak(events: seq<Event>, from: nat, upto: nat, c: Child) {
    && 0 < from <= upto <= |events|
    && events[from - 1].Arrives? && events[from - 1].message == Handed(c) && !Terminal(events[from - 1].poll(c))
    && forall j :: from <= j < upto ==> events[j].Quiet? && !Terminal(events[j].poll(c))
  }

  ghost predicate Streaks(events: seq<Event>, n: nat, children: seq<Child>, timeouts: nat) {
    forall from, c :: Streak(events, from, n, c) ==> c in children && timeouts == n - from
  }

  lemma StreaksStep(events: seq<Event>, n: nat, held: seq<Child>, count: nat, children: seq<Child>, timeouts: nat)
    requires n < |events| && Streaks(events, n, held, count)
    requires events[n].Arrives? ==> Passed(multiset(held) + Brought(events[n]), multiset(children), events[n].poll)
    requires events[n].Arrives? && events[n].message.Handed? ==> timeouts == 0
    requires events[n].Quiet? && held != [] ==>
               timeouts == count + 1 && Passed(multiset(held), multiset(children), events[n].poll)
    ensures Streaks(events, n + 1, children, timeouts)
  {
    var m := n + 1;
    forall from, c | Streak(events, from, m, c)
      ensures c in children && timeouts == m - from
    {
      if from == m {
        assert c in multiset(children);
      } else {
        assert events[n].Quiet?;
        assert Streak(events, from, n, c);
        assert c in multiset(held);
        assert c in multiset(children);
      }
    }
  }

  /** A pass keeps every child whose poll was not terminal, as often as it was held, and no other. */
  ghost predicate Passed(before: multiset<Child>, after: multiset<Child>, poll: Child -> Answer) {
    forall c: Child :: after[c] == if Terminal(poll(c)) then 0 else before[c]
  }

  /** Half way through a pass: what is held before `index` has been polled and stays. */
  ghost predicate Scanned(before: seq<Child>, children: seq<Child>, index: nat,
                          gone: multiset<Child>, polled: seq<Child>, poll: Child -> Answer)
  {
    && index <= |children|
    && multiset(children) + gone == multiset(before)
    && multiset(polled) == multiset(children[..index]) + gone
    && (forall i | 0 <= i < index :: !Terminal(poll(children[i])))
    && (forall c: Child | c in gone :: Terminal(poll(c)))
  }

  lemma ScanReleases(before: seq<Child>, children: seq<Child>, index: nat,
                     gone: multiset<Child>, polled: seq<Child>, poll: Child -> Answer)
    requires Scanned(before, children, index, gone, polled, poll)
    requires index < |children| && Terminal(poll(children[index]))
    ensures var child := children[index];
      Scanned(before, SwapRemove(children, index), index, gone + multiset{child}, polled + [child], poll)
  {
    SwapRemoveCounts(children, index);
    assert SwapRemove(children, index)[..index] == children[..index];
  }

  lemma ScanKeeps(before: seq<Child>, children: seq<Child>, index: nat,
                  gone: multiset<Child>, polled: seq<Child>, poll: Child -> Answer)
    requires Scanned(before, children, index, gone, polled, poll)
    requires index < |children| && !Terminal(poll(children[index]))
    ensures Scanned(before, children, index + 1, gone, polled + [children[index]], poll)
  {
    assert children[..index + 1] == children[..index] + [children[index]];
  }

  lemma ScanEnds(before: seq<Child>, children: seq<Child>,
                 gone: multiset<Child>, reaped: multiset<Child>, polled: seq<Child>, poll: Child -> Answer)
    requires Scanned(before, children, |children|, gone, polled, poll)
    ensures multiset(polled) == multiset(before)
    ensures multiset(before) + reaped == multiset(children) + (reaped + gone)
    ensures Passed(multiset(before), multiset(children), poll)
  {
    assert children[..|children|] == children;
    forall c: Child
      ensures multiset(children)[c] == if Terminal(poll(c)) then 0 else multiset(before)[c]
    {
      assert multiset(before)[c] == multiset(children)[c] + gone[c];
      if c in multiset(children) {
        assert c in children;
      }
    }
  }

  lemma SwapRemoveCounts(s: seq<Child>, i: nat)
    requires i < |s|
    ensures multiset(s) == multiset(SwapRemove(s, i)) + multiset{s[i]}
  {
    var last := |s| - 1;
    assert s == s[..last] + [s[last]];
    if i < last {
      assert s[..last] == s[..i] + [s[i]] + s[i + 1..last];
      assert SwapRemove(s, i) == s[..i] + [s[last]] + s[i + 1..last];
    } else {
      assert SwapRemove(s, i) == s[..last];
    }
  }
}
