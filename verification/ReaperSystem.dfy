/**
  Callers, the manager slot and every manager thread together: over any run each detached child
  has exactly one owner, from its spawn to its terminal wait.
*/
module ReaperSystem {
  import opened Wrappers
  import opened Reaper

  /** One manager thread: how many messages it took from its channel, what it holds, what it let go. */
  datatype Post = Post(taken: nat, held: multiset<Child>, reaped: multiset<Child>)

  /** `posts` goes with `channels`. `caller` and `reclaimed` are the children no channel accepted. */
  datatype State = State(
    sender: Option<nat>,
    channels: seq<Channel<Message>>,
    posts: seq<Post>,
    caller: multiset<Child>,
    reclaimed: multiset<Child>,
    born: multiset<Child>)

  datatype Step =
    | Spawn(c: Child)
    | HandIn(message: Message, first: Attempt, second: Attempt)
    | Reclaim(c: Child, waits: Waits)
    | Take(i: nat)
    | Pass(i: nat, poll: Child -> Answer, after: multiset<Child>)
    | Finish(i: nat, lastWaits: Child -> Waits)
    | Die(i: nat)

  const NEW_POST := Post(0, multiset{}, multiset{})

  predicate Fits(sender: Option<nat>, channels: seq<Channel<Message>>, posts: seq<Post>) {
    && |posts| == |channels|
    && (sender.Some? ==> sender.value < |channels|)
    && (forall i :: 0 <= i < |posts| ==> posts[i].taken <= |channels[i].accepted|)
  }

  predicate Shaped(st: State) {
    Fits(st.sender, st.channels, st.posts)
  }

  predicate Open(st: State, i: nat) {
    i < |st.channels| && i < |st.posts| && st.channels[i].isOpen
  }

  ghost predicate Enabled(st: State, e: Step) {
    Shaped(st) &&
    match e
    case Spawn(c) => st.born[c] == 0
    case HandIn(message, _, _) => message.Handed? ==> message.child in st.caller
    case Reclaim(c, waits) => c in st.caller && WaitedFor(waits).Reaped?
    case Take(i) => Open(st, i) && st.posts[i].taken < |st.channels[i].accepted|
    case Pass(i, poll, after) => Open(st, i) && Passed(st.posts[i].held, after, poll)
    case Finish(i, lastWaits) =>
      && Open(st, i) && st.sender != Some(i) && st.posts[i].taken == |st.channels[i].accepted|
      && forall c :: c in st.posts[i].held ==> WaitedFor(lastWaits(c)).Reaped?
    case Die(i) => Open(st, i)
  }

  function Carried(message: Message): multiset<Child> {
    if message.Handed? then multiset{message.child} else multiset{}
  }

  /** A hand-in starts at most two threads. */
  function Extended(posts: seq<Post>, n: nat): seq<Post> {
    if n == |posts| + 2 then posts + [NEW_POST, NEW_POST]
    else if n == |posts| + 1 then posts + [NEW_POST]
    else posts
  }

  function Close(channels: seq<Channel<Message>>, i: nat): seq<Channel<Message>>
    requires i < |channels|
  {
    channels[i := channels[i].(isOpen := false)]
  }

  /** SendWith, on the whole system; a refused child stays with its caller. */
  function AfterHandIn(st: State, message: Message, first: Attempt, second: Attempt): State
    requires Shaped(st)
  {
    var (refusal, sender, channels) := Twice(st.sender, st.channels, message, first, second);
    State(sender, channels, Extended(st.posts, |channels|),
          if refusal.None? then st.caller - Carried(message) else st.caller, st.reclaimed, st.born)
  }

  ghost function Apply(st: State, e: Step): State
    requires Enabled(st, e)
  {
    match e
    case Spawn(c) => st.(caller := st.caller + multiset{c}, born := st.born + multiset{c})
    case HandIn(message, first, second) => AfterHandIn(st, message, first, second)
    case Reclaim(c, _) => st.(caller := st.caller - multiset{c}, reclaimed := st.reclaimed + multiset{c})
    case Take(i) =>
      var p := st.posts[i];
      st.(posts := st.posts[i := p.(taken := p.taken + 1, held := p.held + Carried(st.channels[i].accepted[p.taken]))])
    case Pass(i, _, after) =>
      var p := st.posts[i];
      st.(posts := st.posts[i := p.(held := after, reaped := p.reaped + (p.held - after))])
    case Finish(i, _) =>
      var p := st.posts[i];
      st.(posts := st.posts[i := p.(held := multiset{}, reaped := p.reaped + p.held)], channels := Close(st.channels, i))
    case Die(i) => st.(channels := Close(st.channels, i))
  }

  // ---------------------------------------------------------------------------------------
  // Counting one child

  function Handings(messages: seq<Message>, c: Child): nat {
    if messages == [] then 0 else Carried(messages[0])[c] + Handings(messages[1..], c)
  }

  lemma {:induction false} HandingsPush(messages: seq<Message>, m: Message, c: Child)
    ensures Handings(messages + [m], c) == Handings(messages, c) + Carried(m)[c]
  {
    if messages != [] {
      assert (messages + [m])[1..] == messages[1..] + [m];
      HandingsPush(messages[1..], m, c);
    }
  }

  function Queue(channel: Channel<Message>, post: Post): seq<Message> {
    if post.taken <= |channel.accepted| then channel.accepted[post.taken..] else []
  }

  /** How often a thread and its channel have `c`, whether waiting, held or released. */
  function PostCount(channel: Channel<Message>, post: Post, c: Child): nat {
    Handings(Queue(channel, post), c) + post.held[c] + post.reaped[c]
  }

  function Sum(counts: seq<nat>): nat {
    if counts == [] then 0 else Sum(counts[..|counts| - 1]) + counts[|counts| - 1]
  }

  lemma {:induction false} SumUpdate(counts: seq<nat>, i: nat, n: nat)
    requires i < |counts|
    ensures Sum(counts[i := n]) + counts[i] == Sum(counts) + n
    decreases |counts|
  {
    var last := |counts| - 1;
    if i < last {
      assert counts[i := n][..last] == counts[..last][i := n];
      SumUpdate(counts[..last], i, n);
    } else {
      assert counts[i := n][..last] == counts[..last];
    }
  }

  lemma SumPush(counts: seq<nat>, n: nat)
    ensures Sum(counts + [n]) == Sum(counts) + n
  {
    assert (counts + [n])[..|counts|] == counts;
  }

  lemma {:induction false} SumCovers(counts: seq<nat>, j: nat)
    requires j < |counts|
    ensures counts[j] <= Sum(counts)
    decreases |counts|
  {
    if j < |counts| - 1 {
      SumCovers(counts[..|counts| - 1], j);
    }
  }

  lemma {:induction false} OnlyOne(counts: seq<nat>) returns (i: nat)
    requires Sum(counts) == 1
    ensures i < |counts| && counts[i] == 1 && forall j :: 0 <= j < |counts| && j != i ==> counts[j] == 0
    decreases |counts|
  {
    var last := |counts| - 1;
    if counts[last] == 0 {
      i := OnlyOne(counts[..last]);
    } else {
      i := last;
      forall j | 0 <= j < last
        ensures counts[j] == 0
      {
        SumCovers(counts[..last], j);
      }
    }
  }

  /** The counts thread by thread. */
  function Counts(channels: seq<Channel<Message>>, posts: seq<Post>, c: Child): (r: seq<nat>)
    requires |channels| == |posts|
    ensures |r| == |posts| && forall i :: 0 <= i < |posts| ==> r[i] == PostCount(channels[i], posts[i], c)
  {
    if posts == [] then [] else [PostCount(channels[0], posts[0], c)] + Counts(channels[1..], posts[1..], c)
  }

  function Total(channels: seq<Channel<Message>>, posts: seq<Post>, c: Child): nat
    requires |channels| == |posts|
  {
    Sum(Counts(channels, posts, c))
  }

  lemma TotalUpdate(channels: seq<Channel<Message>>, posts: seq<Post>, i: nat,
                    channel: Channel<Message>, post: Post, c: Child)
    requires |channels| == |posts| && i < |channels|
    ensures Total(channels[i := channel], posts[i := post], c) + PostCount(channels[i], posts[i], c)
            == Total(channels, posts, c) + PostCount(channel, post, c)
  {
    var counts := Counts(channels, posts, c);
    SumUpdate(counts, i, PostCount(channel, post, c));
    assert Counts(channels[i := channel], posts[i := post], c) == counts[i := PostCount(channel, post, c)];
  }

  lemma TotalReplace(channels: seq<Channel<Message>>, posts: seq<Post>, i: nat, channel: Channel<Message>, c: Child)
    requires |channels| == |posts| && i < |channels|
    ensures Total(channels[i := channel], posts, c) + PostCount(channels[i], posts[i], c)
            == Total(channels, posts, c) + PostCount(channel, posts[i], c)
  {
    TotalUpdate(channels, posts, i, channel, posts[i], c);
    assert posts[i := posts[i]] == posts;
  }

  lemma TotalPush(channels: seq<Channel<Message>>, posts: seq<Post>, channel: Channel<Message>, post: Post, c: Child)
    requires |channels| == |posts|
    ensures Total(channels + [channel], posts + [post], c) == Total(channels, posts, c) + PostCount(channel, post, c)
  {
    SumPush(Counts(channels, posts, c), PostCount(channel, post, c));
    assert Counts(channels + [channel], posts + [post], c) == Counts(channels, posts, c) + [PostCount(channel, post, c)];
  }

  /** Child `c`, if it was ever spawned, is somewhere once. */
  predicate Accounted(st: State, c: Child) {
    && Shaped(st)
    && st.born[c] <= 1 && st.born[c] == st.caller[c] + st.reclaimed[c] + Total(st.channels, st.posts, c)
  }

  /** The same attempt with the posts along: what the slot, the channels and the posts become. */
  lemma OnceCounts(sender: Option<nat>, channels: seq<Channel<Message>>, posts: seq<Post>,
                   message: Message, world: Attempt, c: Child)
    requires Fits(sender, channels, posts)
    ensures var (r, s, all) := Once(sender, channels, message, world);
      var known := Extended(posts, |all|);
      && |channels| <= |all| <= |channels| + 1 && Fits(s, all, known)
      && Total(all, known, c) == Total(channels, posts, c) + if r.Sent? then Carried(message)[c] else 0
  {
    if sender.Some? {
      AttemptCounts(sender.value, channels, posts, message, world, c);
    } else {
      StartCounts(channels, posts, message, world, c);
    }
  }

  /** With the slot empty: a failed start changes nothing, a new thread is one more post. */
  lemma StartCounts(channels: seq<Channel<Message>>, posts: seq<Post>, message: Message, world: Attempt, c: Child)
    requires Fits(None, channels, posts)
    ensures var (r, s, all) := Once(None, channels, message, world);
      var known := Extended(posts, |all|);
      && |channels| <= |all| <= |channels| + 1 && Fits(s, all, known)
      && Total(all, known, c) == Total(channels, posts, c) + if r.Sent? then Carried(message)[c] else 0
  {
    if world.startError.None? {
      var more, known := channels + [Channel(true, [])], posts + [NEW_POST];
      TotalPush(channels, posts, Channel(true, []), NEW_POST, c);
      AttemptCounts(|channels|, more, known, message, world, c);
      assert Once(None, channels, message, world) == Once(Some(|channels|), more, message, world);
    }
  }

  lemma AttemptCounts(i: nat, channels: seq<Channel<Message>>, posts: seq<Post>,
                      message: Message, world: Attempt, c: Child)
    requires Fits(Some(i), channels, posts)
    ensures var (r, s, all) := Once(Some(i), channels, message, world);
      && Fits(s, all, posts)
      && Total(all, posts, c) == Total(channels, posts, c) + if r.Sent? then Carried(message)[c] else 0
  {
    var (r, s, all) := Once(Some(i), channels, message, world);
    var before, after, post := channels[i], all[i], posts[i];
    CountGrows(before, after, post, message, r.Sent?, c);
    TotalReplace(channels, posts, i, after, c);
    assert all == channels[i := after];
  }

  lemma CountGrows(a: Channel<Message>, b: Channel<Message>, post: Post, message: Message, sent: bool, c: Child)
    requires post.taken <= |a.accepted| && b.accepted == if sent then a.accepted + [message] else a.accepted
    ensures PostCount(b, post, c) == PostCount(a, post, c) + if sent then Carried(message)[c] else 0
  {
    if sent {
      HandingsPush(Queue(a, post), message, c);
      assert Queue(b, post) == Queue(a, post) + [message];
    }
  }

  lemma TwiceCounts(sender: Option<nat>, channels: seq<Channel<Message>>, posts: seq<Post>,
                    message: Message, first: Attempt, second: Attempt, c: Child)
    requires Fits(sender, channels, posts)
    ensures var (refusal, s, all) := Twice(sender, channels, message, first, second);
      var known := Extended(posts, |all|);
      && |channels| <= |all| <= |channels| + 2 && Fits(s, all, known)
      && Total(all, known, c) == Total(channels, posts, c) + if refusal.None? then Carried(message)[c] else 0
  {
    OnceCounts(sender, channels, posts, message, first, c);
    var (r, s, all) := Once(sender, channels, message, first);
    AgainCounts(r, s, all, posts, message, second, c);
  }

  /** The replacement attempt, counted from the posts there were at the start. */
  lemma AgainCounts(tried: Tried, sender: Option<nat>, channels: seq<Channel<Message>>, posts: seq<Post>,
                    message: Message, second: Attempt, c: Child)
    requires |posts| <= |channels| <= |posts| + 1 && Fits(sender, channels, Extended(posts, |channels|))
    ensures var (refusal, s, all) := Again(tried, sender, channels, message, second);
      var known := Extended(posts, |all|);
      && |channels| <= |all| <= |channels| + 1 && Fits(s, all, known)
      && Total(all, known, c) == Total(channels, Extended(posts, |channels|), c)
         + if tried.Closed? && refusal.None? then Carried(message)[c] else 0
  {
    if tried.Closed? {
      var known := Extended(posts, |channels|);
      var (r, s, all) := Once(sender, channels, message, second);
      OnceCounts(sender, channels, known, message, second, c);
      ExtendedTwice(posts, |channels|, |all|);
      assert Again(tried, sender, channels, message, second).2 == all;
      assert Total(all, Extended(posts, |all|), c) == Total(channels, known, c) + if r.Sent? then Carried(message)[c] else 0;
    }
  }

  lemma ExtendedTwice(posts: seq<Post>, m: nat, n: nat)
    requires |posts| <= m <= n <= |posts| + 2
    ensures Extended(Extended(posts, m), n) == Extended(posts, n)
  {
  }

  lemma HandInKeepsCount(st: State, e: Step, c: Child)
    requires Enabled(st, e) && e.HandIn? && Accounted(st, c)
    ensures Accounted(Apply(st, e), c)
  {
    TwiceCounts(st.sender, st.channels, st.posts, e.message, e.first, e.second, c);
  }

  /** A thread's own steps move children between its places. */
  lemma ThreadKeepsCount(st: State, e: Step, c: Child)
    requires Enabled(st, e) && (e.Take? || e.Pass? || e.Finish? || e.Die?)
    ensures Shaped(Apply(st, e))
    ensures var st' := Apply(st, e);
      PostCount(st'.channels[e.i], st'.posts[e.i], c) == PostCount(st.channels[e.i], st.posts[e.i], c)
  {
    if e.Take? {
      var channel, taken := st.channels[e.i], st.posts[e.i].taken;
      assert channel.accepted[taken..][1..] == channel.accepted[taken + 1..];
    }
  }

  lemma ThreadKeepsTotal(st: State, e: Step, c: Child)
    requires Enabled(st, e) && (e.Take? || e.Pass? || e.Finish? || e.Die?)
    ensures var st' := Apply(st, e);
      && Shaped(st') && Total(st'.channels, st'.posts, c) == Total(st.channels, st.posts, c)
      && st'.caller == st.caller && st'.reclaimed == st.reclaimed && st'.born == st.born
  {
    var st' := Apply(st, e);
    ThreadKeepsCount(st, e, c);
    ThreadUpdates(st, e);
    TotalUpdate(st.channels, st.posts, e.i, st'.channels[e.i], st'.posts[e.i], c);
  }

  lemma ThreadUpdates(st: State, e: Step)
    requires Enabled(st, e) && (e.Take? || e.Pass? || e.Finish? || e.Die?)
    ensures var st' := Apply(st, e);
      && e.i < |st'.channels| == |st'.posts|
      && st'.channels == st.channels[e.i := st'.channels[e.i]] && st'.posts == st.posts[e.i := st'.posts[e.i]]
      && (st'.channels[e.i].isOpen <==> e.Take? || e.Pass?)
  {
  }

  lemma CallerKeepsCount(st: State, e: Step, c: Child)
    requires Enabled(st, e) && (e.Spawn? || e.Reclaim?) && Accounted(st, c)
    ensures Accounted(Apply(st, e), c)
  {
    assert Apply(st, e).channels == st.channels && Apply(st, e).posts == st.posts;
  }

  lemma StepKeepsCount(st: State, e: Step, c: Child)
    requires Enabled(st, e) && Accounted(st, c)
    ensures Accounted(Apply(st, e), c)
  {
    if e.HandIn? {
      HandInKeepsCount(st, e, c);
    } else if e.Spawn? || e.Reclaim? {
      CallerKeepsCount(st, e, c);
    } else {
      ThreadKeepsTotal(st, e, c);
    }
  }

  ghost predicate Runs(st: State, steps: seq<Step>)
    decreases |steps|
  {
    |steps| == 0 || (Enabled(st, steps[0]) && Runs(Apply(st, steps[0]), steps[1..]))
  }

  ghost function Final(st: State, steps: seq<Step>): State
    requires Runs(st, steps)
    decreases |steps|
  {
    if |steps| == 0 then st else Final(Apply(st, steps[0]), steps[1..])
  }

  const INIT := State(None, [], [], multiset{}, multiset{}, multiset{})

  lemma RunKeepsCount(st: State, steps: seq<Step>, c: Child)
    requires Accounted(st, c) && Runs(st, steps)
    ensures Accounted(Final(st, steps), c)
    decreases |steps|
  {
    if |steps| > 0 {
      StepKeepsCount(st, steps[0], c);
      RunKeepsCount(Apply(st, steps[0]), steps[1..], c);
    }
  }

  // ---------------------------------------------------------------------------------------
  // One owner each

  datatype Place = WithCaller | ReclaimedByCaller | InQueue(i: nat) | Held(i: nat) | ReapedBy(i: nat)

  /** How often `c` is at a place. */
  function At(st: State, c: Child, p: Place): nat
    requires Shaped(st)
  {
    match p
    case WithCaller => st.caller[c]
    case ReclaimedByCaller => st.reclaimed[c]
    case InQueue(i) => if i < |st.posts| then Handings(Queue(st.channels[i], st.posts[i]), c) else 0
    case Held(i) => if i < |st.posts| then st.posts[i].held[c] else 0
    case ReapedBy(i) => if i < |st.posts| then st.posts[i].reaped[c] else 0
  }

  lemma NoThread(channels: seq<Channel<Message>>, posts: seq<Post>, c: Child)
    requires |channels| == |posts| && Total(channels, posts, c) == 0
    ensures forall j :: 0 <= j < |posts| ==> PostCount(channels[j], posts[j], c) == 0
  {
    forall j | 0 <= j < |posts|
      ensures PostCount(channels[j], posts[j], c) == 0
    {
      SumCovers(Counts(channels, posts, c), j);
    }
  }

  /** The only thread whose count of `c` is not zero, when all of them together have it once. */
  lemma OneThread(channels: seq<Channel<Message>>, posts: seq<Post>, c: Child) returns (i: nat)
    requires |channels| == |posts| && Total(channels, posts, c) == 1
    ensures i < |posts| && PostCount(channels[i], posts[i], c) == 1
    ensures forall j :: 0 <= j < |posts| && j != i ==> PostCount(channels[j], posts[j], c) == 0
  {
    i := OnlyOne(Counts(channels, posts, c));
  }

  /** A child that some thread has is at one place there and nowhere else. */
  lemma ThreadPlace(st: State, c: Child) returns (p: Place)
    requires Shaped(st) && st.caller[c] == st.reclaimed[c] == 0 && Total(st.channels, st.posts, c) == 1
    ensures At(st, c, p) == 1
    ensures forall q :: q != p ==> At(st, c, q) == 0
  {
    var i := OneThread(st.channels, st.posts, c);
    p := if Handings(Queue(st.channels[i], st.posts[i]), c) == 1 then InQueue(i)
         else if st.posts[i].held[c] == 1 then Held(i)
         else ReapedBy(i);
    forall q: Place | q != p
      ensures At(st, c, q) == 0
    {
      if !q.WithCaller? && !q.ReclaimedByCaller? && q.i < |st.posts| {
        assert PostCount(st.channels[q.i], st.posts[q.i], c) == if q.i == i then 1 else 0;
      }
    }
  }

  lemma CallerPlace(st: State, c: Child) returns (p: Place)
    requires Shaped(st) && st.caller[c] + st.reclaimed[c] == 1 && Total(st.channels, st.posts, c) == 0
    ensures At(st, c, p) == 1
    ensures forall q :: q != p ==> At(st, c, q) == 0
  {
    NoThread(st.channels, st.posts, c);
    p := if st.caller[c] == 1 then WithCaller else ReclaimedByCaller;
    forall q: Place | q != p
      ensures At(st, c, q) == 0
    {
      if !q.WithCaller? && !q.ReclaimedByCaller? && q.i < |st.posts| {
        assert PostCount(st.channels[q.i], st.posts[q.i], c) == 0;
      }
    }
  }

  /** Every child spawned is at exactly one place: its caller, a queue, a thread, or past a terminal wait. */
  lemma OnePlace(st: State, c: Child) returns (p: Place)
    requires Accounted(st, c) && c in st.born
    ensures At(st, c, p) == 1
    ensures forall q :: q != p ==> At(st, c, q) == 0
  {
    if Total(st.channels, st.posts, c) == 0 {
      p := CallerPlace(st, c);
    } else {
      p := ThreadPlace(st, c);
    }
  }

  // ---------------------------------------------------------------------------------------
  // When a thread may die without losing a child

  /** No child waits in the channel or is in the thread's hands. */
  ghost predicate Idle(channel: Channel<Message>, post: Post) {
    forall c: Child :: Handings(Queue(channel, post), c) == 0 && post.held[c] == 0
  }

  /** A thread that is gone left no child behind. */
  ghost predicate NoneLost(channels: seq<Channel<Message>>, posts: seq<Post>)
    requires |channels| == |posts|
  {
    forall i :: 0 <= i < |posts| && !channels[i].isOpen ==> Idle(channels[i], posts[i])
  }

  /** No thread dies while it has a child, whether by itself or under a sender's nose. */
  ghost predicate Peaceful(st: State, e: Step)
    requires Enabled(st, e)
  {
    && (e.Die? ==> Idle(st.channels[e.i], st.posts[e.i]))
    && (e.HandIn? && e.first.receiverDies && st.sender.Some? ==>
          Idle(st.channels[st.sender.value], st.posts[st.sender.value]))
  }

  lemma AttemptLosesNone(i: nat, channels: seq<Channel<Message>>, posts: seq<Post>, message: Message, world: Attempt)
    requires Fits(Some(i), channels, posts) && NoneLost(channels, posts)
    requires world.receiverDies ==> Idle(channels[i], posts[i])
    ensures var (r, s, all) := Once(Some(i), channels, message, world);
      |all| == |posts| && NoneLost(all, posts)
  {
    var (r, s, all) := Once(Some(i), channels, message, world);
    assert !r.Sent? ==> Queue(all[i], posts[i]) == Queue(channels[i], posts[i]);
  }

  lemma OnceLosesNone(sender: Option<nat>, channels: seq<Channel<Message>>, posts: seq<Post>,
                      message: Message, world: Attempt)
    requires Fits(sender, channels, posts) && NoneLost(channels, posts)
    requires world.receiverDies && sender.Some? ==> Idle(channels[sender.value], posts[sender.value])
    ensures var (r, s, all) := Once(sender, channels, message, world);
      |channels| <= |all| == |Extended(posts, |all|)| && NoneLost(all, Extended(posts, |all|))
  {
    if sender.Some? {
      AttemptLosesNone(sender.value, channels, posts, message, world);
    } else if world.startError.None? {
      AttemptLosesNone(|channels|, channels + [Channel(true, [])], posts + [NEW_POST], message, world);
    }
  }

  lemma TwiceLosesNone(sender: Option<nat>, channels: seq<Channel<Message>>, posts: seq<Post>,
                       message: Message, first: Attempt, second: Attempt)
    requires Fits(sender, channels, posts) && NoneLost(channels, posts)
    requires first.receiverDies && sender.Some? ==> Idle(channels[sender.value], posts[sender.value])
    ensures var (refusal, s, all) := Twice(sender, channels, message, first, second);
      |channels| <= |all| == |Extended(posts, |all|)| && NoneLost(all, Extended(posts, |all|))
  {
    OnceLosesNone(sender, channels, posts, message, first);
    OnceCounts(sender, channels, posts, message, first, 0);
    var (r, s, all) := Once(sender, channels, message, first);
    AgainLosesNone(r, s, all, posts, message, second);
  }

  lemma AgainLosesNone(tried: Tried, sender: Option<nat>, channels: seq<Channel<Message>>, posts: seq<Post>,
                       message: Message, second: Attempt)
    requires |posts| <= |channels| <= |posts| + 1 && Fits(sender, channels, Extended(posts, |channels|))
    requires NoneLost(channels, Extended(posts, |channels|)) && (tried.Closed? ==> sender.None?)
    ensures var (refusal, s, all) := Again(tried, sender, channels, message, second);
      |channels| <= |all| == |Extended(posts, |all|)| && NoneLost(all, Extended(posts, |all|))
  {
    if tried.Closed? {
      OnceLosesNone(sender, channels, Extended(posts, |channels|), message, second);
      ExtendedTwice(posts, |channels|, |Once(sender, channels, message, second).2|);
    }
  }

  lemma ThreadLosesNone(st: State, e: Step)
    requires Enabled(st, e) && !e.HandIn? && Peaceful(st, e) && NoneLost(st.channels, st.posts)
    ensures |Apply(st, e).channels| == |Apply(st, e).posts| && NoneLost(Apply(st, e).channels, Apply(st, e).posts)
  {
    if e.Finish? || e.Die? {
      assert Queue(Apply(st, e).channels[e.i], Apply(st, e).posts[e.i]) == Queue(st.channels[e.i], st.posts[e.i]);
    }
  }

  ghost predicate PeacefulRun(st: State, steps: seq<Step>)
    requires Runs(st, steps)
    decreases |steps|
  {
    |steps| == 0 || (Peaceful(st, steps[0]) && PeacefulRun(Apply(st, steps[0]), steps[1..]))
  }

  lemma StepKeepsShape(st: State, e: Step)
    requires Enabled(st, e)
    ensures Shaped(Apply(st, e))
  {
    if e.HandIn? {
      TwiceCounts(st.sender, st.channels, st.posts, e.message, e.first, e.second, 0);
    } else if !e.Spawn? && !e.Reclaim? {
      ThreadKeepsCount(st, e, 0);
    }
  }

  lemma RunLosesNone(st: State, steps: seq<Step>)
    requires Shaped(st) && NoneLost(st.channels, st.posts) && Runs(st, steps) && PeacefulRun(st, steps)
    ensures Shaped(Final(st, steps)) && NoneLost(Final(st, steps).channels, Final(st, steps).posts)
    decreases |steps|
  {
    if |steps| > 0 {
      var e := steps[0];
      StepKeepsShape(st, e);
      if e.HandIn? {
        TwiceLosesNone(st.sender, st.channels, st.posts, e.message, e.first, e.second);
      } else {
        ThreadLosesNone(st, e);
      }
      RunLosesNone(Apply(st, e), steps[1..]);
    }
  }

  lemma OwnerRuns(st: State, c: Child, p: Place)
    requires Shaped(st) && NoneLost(st.channels, st.posts) && At(st, c, p) == 1
    ensures p.InQueue? || p.Held? ==> Open(st, p.i)
  {
  }

  /**
    Over every run from the start: a child spawned has exactly one owner, at exactly one place.
    If no thread died while it had a child, a child that is not yet past a terminal wait is with
    its caller or with a thread that is running.
  */
  lemma SoleOwner(steps: seq<Step>, c: Child) returns (p: Place)
    requires Runs(INIT, steps) && c in Final(INIT, steps).born
    ensures Shaped(Final(INIT, steps))
    ensures At(Final(INIT, steps), c, p) == 1
    ensures forall q :: q != p ==> At(Final(INIT, steps), c, q) == 0
    ensures PeacefulRun(INIT, steps) && (p.InQueue? || p.Held?) ==> Open(Final(INIT, steps), p.i)
  {
    RunKeepsCount(INIT, steps, c);
    p := OnePlace(Final(INIT, steps), c);
    if PeacefulRun(INIT, steps) {
      RunLosesNone(INIT, steps);
      OwnerRuns(Final(INIT, steps), c, p);
    }
  }

  // ---------------------------------------------------------------------------------------
  // The code takes these steps

  /** What the system records of thread `i` is what its loop holds. */
  ghost predicate Mirrors(st: State, i: nat, loop: Loop)
    reads loop
  {
    && Shaped(st) && Open(st, i) && loop.Valid()
    && st.posts[i].held == multiset(loop.children) && st.posts[i].reaped == loop.reaped
  }

  /** What a pass let go is what it no longer holds. */
  lemma PassState(st: State, i: nat, poll: Child -> Answer, after: multiset<Child>, reaped: multiset<Child>)
    requires Shaped(st) && Open(st, i) && Passed(st.posts[i].held, after, poll)
    requires st.posts[i].held + st.posts[i].reaped == after + reaped
    ensures Enabled(st, Pass(i, poll, after))
    ensures var next := Apply(st, Pass(i, poll, after));
      Shaped(next) && Open(next, i) && next.posts[i].held == after && next.posts[i].reaped == reaped
  {
    var held, was := st.posts[i].held, st.posts[i].reaped;
    forall c: Child
      ensures reaped[c] == (was + (held - after))[c]
    {
      assert (held + was)[c] == (after + reaped)[c];
    }
    assert reaped == was + (held - after);
  }

  lemma TakeState(st: State, i: nat)
    requires Enabled(st, Take(i))
    ensures var p := st.posts[i];
      var next := Apply(st, Take(i));
      && Shaped(next) && Open(next, i)
      && next.posts[i].held == p.held + Carried(st.channels[i].accepted[p.taken]) && next.posts[i].reaped == p.reaped
  {
  }

  /** A turn with a message: taken from the channel, then one pass over the children. */
  method TakeTurn(ghost st: State, i: nat, loop: Loop, message: Message, poll: Child -> Answer)
    returns (ghost next: State)
    requires Mirrors(st, i, loop)
    requires st.posts[i].taken < |st.channels[i].accepted| && message == st.channels[i].accepted[st.posts[i].taken]
    modifies loop
    ensures Enabled(st, Take(i)) && Enabled(Apply(st, Take(i)), Pass(i, poll, multiset(loop.children)))
    ensures next == Apply(Apply(st, Take(i)), Pass(i, poll, multiset(loop.children))) && Mirrors(next, i, loop)
  {
    TakeState(st, i);
    ghost var mid := Apply(st, Take(i));
    var end := loop.Turn(Arrives(message, poll));
    PassState(mid, i, poll, multiset(loop.children), loop.reaped);
    next := Apply(mid, Pass(i, poll, multiset(loop.children)));
  }

  /** A turn without one: a pass, if there is anything to poll. */
  method QuietTurn(ghost st: State, i: nat, loop: Loop, poll: Child -> Answer) returns (ghost next: State)
    requires Mirrors(st, i, loop) && loop.children != []
    modifies loop
    ensures Enabled(st, Pass(i, poll, multiset(loop.children)))
    ensures next == Apply(st, Pass(i, poll, multiset(loop.children))) && Mirrors(next, i, loop)
  {
    var end := loop.Turn(Quiet(poll));
    PassState(st, i, poll, multiset(loop.children), loop.reaped);
    next := Apply(st, Pass(i, poll, multiset(loop.children)));
  }

  /** The last turn, once every sender is gone and the channel is drained. */
  method LastTurn(ghost st: State, i: nat, loop: Loop, waits: Child -> Waits) returns (end: End, ghost next: State)
    requires Mirrors(st, i, loop) && st.sender != Some(i) && st.posts[i].taken == |st.channels[i].accepted|
    modifies loop
    ensures end.Returned? ==>
              && Enabled(st, Finish(i, waits)) && next == Apply(st, Finish(i, waits))
              && Shaped(next) && i < |next.posts| && next.posts[i].held == multiset(loop.children) == multiset{}
              && next.posts[i].reaped == loop.reaped && !Open(next, i)
  {
    ghost var all := loop.received;
    end := loop.Turn(HangUp(waits));
    next := st;
    if end.Returned? {
      assert all + multiset{} == all && multiset{} + loop.reaped == loop.reaped;
      assert all == st.posts[i].held + st.posts[i].reaped && loop.received == all;
      next := Apply(st, Finish(i, waits));
    }
  }

  /** The hand-over of a caller's child, and its own wait if nobody took it. */
  method HandOverChild(ghost st: State, m: Manager<Message>, c: Child, first: Attempt, second: Attempt, waits: Waits)
    returns (r: Handoff, ghost next: State)
    requires Shaped(st) && m.Valid() && m.sender == st.sender && m.channels == st.channels && c in st.caller
    modifies m
    ensures Enabled(st, HandIn(Handed(c), first, second))
    ensures var tried := Apply(st, HandIn(Handed(c), first, second));
      if r.Refused? then Enabled(tried, Reclaim(c, waits)) && next == Apply(tried, Reclaim(c, waits)) else next == tried
    ensures next.sender == m.sender && next.channels == m.channels
  {
    TwiceCounts(st.sender, st.channels, st.posts, Handed(c), first, second, c);
    r := HandOff(m, c, first, second, waits);
    next := Apply(st, HandIn(Handed(c), first, second));
    if r.Refused? {
      next := Apply(next, Reclaim(c, waits));
    }
  }
}
