/**
  The bounded-concurrency engine behind the batch verbs: a hand-written executor that keeps at
  most `limit` command futures live and yields each result the moment it lands.
*/
module Fanout {
  import opened Wrappers

  /** How many more polls a future answers Pending: finitely many, or for ever. */
  datatype Delay = After(n: nat) | Never

  /** A command, as far as scheduling goes: the result it will produce, and when. */
  datatype Command<T> = Command(result: T, delay: Delay)

  /** A launched command. */
  datatype Future<T> = Future(index: nat, command: Command<T>)

  datatype Poll<T> = Pending | Ready(value: T)

  /** One poll of one future, and whether it answered Ready. */
  datatype Event = Event(index: nat, ready: bool)

  function Indices<T>(fs: seq<Future<T>>): (r: seq<nat>)
    ensures |r| == |fs| && forall i :: 0 <= i < |r| ==> r[i] == fs[i].index
  {
    seq(|fs|, i requires 0 <= i < |fs| => fs[i].index)
  }

  /** The polls a future still owes before it is ready. */
  function Left(d: Delay): nat {
    if d.After? then d.n else 0
  }

  function Work<T>(fs: seq<Future<T>>): nat {
    if fs == [] then 0 else Work(fs[..|fs| - 1]) + Left(fs[|fs| - 1].command.delay)
  }

  function QueueWork<T>(queue: seq<(nat, Command<T>)>): nat {
    if queue == [] then 0 else Left(queue[0].1.delay) + QueueWork(queue[1..])
  }

  lemma {:induction false} WorkUpdate<T>(fs: seq<Future<T>>, i: nat, f: Future<T>)
    requires i < |fs|
    ensures Work(fs[i := f]) == Work(fs) - Left(fs[i].command.delay) + Left(f.command.delay)
    decreases |fs|
  {
    var last := |fs| - 1;
    if i < last {
      WorkUpdate(fs[..last], i, f);
      assert fs[i := f][..last] == fs[..last][i := f];
    } else {
      assert fs[i := f][..last] == fs[..last];
    }
  }

  /** What polling a future once leaves of it. */
  function Polled(d: Delay): Delay
    requires d != After(0)
  {
    if d.After? then After(d.n - 1) else Never
  }

  /** The indices from `a` up to but not including `b`. */
  function Span(a: nat, b: nat): (r: seq<nat>)
    requires a <= b
    ensures |r| == b - a && forall i :: 0 <= i < |r| ==> r[i] == a + i
  {
    if a == b then [] else Span(a, b - 1) + [b - 1]
  }

  /** One Pending answer from each of the futures, in order. */
  function Declined(indices: seq<nat>): (r: seq<Event>)
    ensures |r| == |indices| && forall i :: 0 <= i < |r| ==> r[i] == Event(indices[i], false)
  {
    seq(|indices|, i requires 0 <= i < |indices| => Event(indices[i], false))
  }

  /** The live futures before `index` were polled once each, in order, and declined; then it was ready. */
  ghost predicate PolledUpTo(live: seq<nat>, index: nat, before: seq<Event>, after: seq<Event>) {
    exists n :: 0 <= n < |live| && live[n] == index && after == before + Declined(live[..n]) + [Event(index, true)]
  }

  predicate Finite<T>(c: Command<T>) {
    c.delay.After?
  }

  predicate Distinct(s: seq<nat>) {
    forall i, j :: 0 <= i < j < |s| ==> s[i] != s[j]
  }

  function Below(n: nat): (r: set<nat>)
    ensures |r| == n && forall k: nat :: k in r <==> k < n
  {
    if n == 0 then {} else Below(n - 1) + {n - 1}
  }

  function Elements(s: seq<nat>): (r: set<nat>)
    ensures forall k :: k in r <==> k in s
  {
    if s == [] then {} else Elements(s[..|s| - 1]) + {s[|s| - 1]}
  }

  lemma {:induction false} DistinctSize(s: seq<nat>)
    requires Distinct(s)
    ensures |Elements(s)| == |s|
    decreases |s|
  {
    if s != [] {
      var front, last := s[..|s| - 1], s[|s| - 1];
      assert forall i :: 0 <= i < |front| ==> front[i] == s[i] != last;
      DistinctSize(front);
      assert last !in Elements(front);
    }
  }

  /** n distinct indices below n are all of them. */
  lemma DistinctCover(s: seq<nat>, n: nat)
    requires Distinct(s) && |s| == n && forall i :: 0 <= i < n ==> s[i] < n
    ensures forall k: nat :: k < n ==> k in s
  {
    DistinctSize(s);
    SubsetOfSameSize(Elements(s), Below(n));
  }

  lemma SubsetOfSameSize(a: set<nat>, b: set<nat>)
    requires a <= b && |a| == |b|
    ensures a == b
  {
    assert b == a + (b - a);
  }

  // ---------------------------------------------------------------------------------------
  // The engine's invariant, part by part

  /** The queue is the untouched rest of the input, in order. */
  predicate Queued<T(==)>(pending: seq<(nat, Command<T>)>, input: seq<Command<T>>, launched: nat) {
    && launched + |pending| == |input|
    && forall i :: 0 <= i < |pending| ==> pending[i] == (launched + i, input[launched + i])
  }

  /** Live futures are launched commands, each keeping its own result. */
  predicate Live<T(==)>(active: seq<Future<T>>, input: seq<Command<T>>, launched: nat) {
    forall i :: 0 <= i < |active| ==>
      && active[i].index < launched <= |input|
      && active[i].command.result == input[active[i].index].result
      && (Finite(active[i].command) <==> Finite(input[active[i].index]))
  }

  /** Every launched command is live or yielded, never both, never twice. */
  predicate Partitioned(live: seq<nat>, yielded: seq<nat>, launched: nat) {
    && Distinct(live) && Distinct(yielded)
    && (forall i :: 0 <= i < |yielded| ==> yielded[i] < launched)
    && (forall i, j :: 0 <= i < |yielded| && 0 <= j < |live| ==> yielded[i] != live[j])
    && |live| + |yielded| == launched
  }

  /** A future that answered Ready is yielded, and was never polled again. */
  predicate Traced(trace: seq<Event>, yielded: seq<nat>, launched: nat) {
    && (forall p, q :: 0 <= p < q < |trace| && trace[p].ready ==> trace[q].index != trace[p].index)
    && (forall p :: 0 <= p < |trace| && trace[p].ready ==> trace[p].index in yielded)
    && (forall p :: 0 <= p < |trace| ==> trace[p].index < launched)
  }

  lemma TracedDecline(trace: seq<Event>, yielded: seq<nat>, launched: nat, index: nat)
    requires Traced(trace, yielded, launched) && index < launched && index !in yielded
    ensures Traced(trace + [Event(index, false)], yielded, launched)
  {
  }

  class Engine<T> {
    // The engine's own fields.
    var pending: seq<(nat, Command<T>)>
    var active: seq<Future<T>>
    const limit: nat
    const total: nat

    // History: the input, what was launched and yielded, and every poll made.
    ghost const input: seq<Command<T>>
    ghost var launched: nat
    ghost var yielded: seq<nat>
    ghost var trace: seq<Event>

    ghost predicate Valid()
      reads this
    {
      && Queued(pending, input, launched) && total == |input|
      && Live(active, input, launched) && 1 <= limit && |active| <= limit
      && Partitioned(Indices(active), yielded, launched)
      && Traced(trace, yielded, launched)
    }

    /** Fanout::new: index-tag everything, clamp the cap to at least one. */
    constructor (commands: seq<Command<T>>, concurrency: nat)
      ensures Valid() && input == commands && total == |commands|
      ensures limit == if concurrency == 0 then 1 else concurrency
      ensures launched == 0 && yielded == [] && active == [] && trace == []
    {
      pending := seq(|commands|, i requires 0 <= i < |commands| => (i, commands[i]));
      active := [];
      limit := if concurrency == 0 then 1 else concurrency;
      total := |commands|;
      input := commands;
      launched, yielded, trace := 0, [], [];
    }

    /**
      Conservation, at any moment of any run: every command is queued, live or yielded, in
      exactly one of the three ways; what was launched is a prefix of the input, at most `limit`
      ahead of what was yielded; and a finished future was polled Ready once and then no more.
    */
    lemma Conservation(index: nat)
      requires Valid() && index < total
      ensures index >= launched <==> exists i :: 0 <= i < |pending| && pending[i].0 == index
      ensures index < launched <==> index in Indices(active) || index in yielded
      ensures !(index in Indices(active) && index in yielded)
      ensures launched <= |yielded| + limit && |active| <= limit
      ensures forall p, q :: 0 <= p < q < |trace| && trace[p] == Event(index, true) ==> trace[q].index != index
    {
      if index >= launched {
        assert pending[index - launched].0 == index;
      } else {
        var all := Indices(active) + yielded;
        forall i, j | 0 <= i < j < |all|
          ensures all[i] != all[j]
        {
          if i < |active| <= j {
            assert all[j] == yielded[j - |active|] != active[i].index;
          }
        }
        DistinctCover(all, launched);
        assert index in all;
      }
    }

    /** Every command becomes ready after finitely many polls. */
    ghost predicate AllFinite() {
      forall i :: 0 <= i < |input| ==> Finite(input[i])
    }

    /** The polls still owed by everything not yet yielded. */
    ghost function TotalWork(): nat
      reads this
    {
      Work(active) + QueueWork(pending)
    }

    /** Give the front of the queue a slot. */
    method Launch()
      requires Valid() && |active| < limit && pending != []
      modifies `pending, `active, `launched
      ensures Valid() && launched == old(launched) + 1 && pending == old(pending)[1..]
      ensures |active| == |old(active)| + 1 && old(active) <= active && active[|active| - 1].index == old(launched)
      ensures TotalWork() == old(TotalWork())
    {
      var (index, command) := pending[0];
      var future := Future(index, command);
      assert (active + [future])[..|active|] == active;
      pending := pending[1..];
      active := active + [future];
      launched := launched + 1;
    }

    /** Hand every waiting command a slot, front to back, while one is free. */
    method TopUp()
      requires Valid()
      modifies `pending, `active, `launched
      ensures Valid()
      ensures |active| == limit || pending == []
      ensures old(active) <= active
      ensures launched >= old(launched) && Indices(active) == Indices(old(active)) + Span(old(launched), launched)
      ensures TotalWork() == old(TotalWork())
    {
      while |active| < limit && pending != []
        invariant Valid() && old(active) <= active && |active| == |old(active)| + launched - old(launched)
        invariant forall i :: |old(active)| <= i < |active| ==> active[i].index == old(launched) + i - |old(active)|
        invariant TotalWork() == old(TotalWork())
        decreases |pending|
      {
        Launch();
      }
    }

    /** Poll the i-th live future, which answers Pending. */
    method PollPending(i: nat)
      requires Valid() && i < |active| && active[i].command.delay != After(0)
      modifies `active, `trace
      ensures Valid()
      ensures trace == old(trace) + [Event(old(active)[i].index, false)]
      ensures |active| == |old(active)| && Indices(active) == Indices(old(active))
      ensures forall k :: 0 <= k < |active| && k != i ==> active[k] == old(active)[k]
      ensures active[i].command == old(active)[i].command.(delay := Polled(old(active)[i].command.delay))
      ensures AllFinite() ==> Work(active) + 1 == Work(old(active))
    {
      var f := active[i];
      var g := f.(command := f.command.(delay := Polled(f.command.delay)));
      WorkUpdate(active, i, g);
      assert Indices(active)[i] == f.index;
      TracedDecline(trace, yielded, launched, f.index);
      active := active[i := g];
      trace := trace + [Event(f.index, false)];
    }

    /** Take the i-th live future out and yield its result. */
    method Yield(i: nat) returns (done: (nat, T))
      requires Valid() && i < |active| && active[i].command.delay == After(0)
      modifies `active, `trace, `yielded
      ensures Valid()
      ensures done.0 == old(active)[i].index && done.0 < total && done.1 == input[done.0].result
      ensures trace == old(trace) + [Event(done.0, true)]
      ensures yielded == old(yielded) + [done.0] && done.0 !in old(yielded)
      ensures active == SwapRemove(old(active), i)
    {
      var f := active[i];
      done := (f.index, f.command.result);
      active := SwapRemove(active, i);
      trace := trace + [Event(f.index, true)];
      yielded := yielded + [f.index];
      assert forall k :: 0 <= k < |old(yielded)| ==> yielded[k] == old(yielded)[k];
    }

    /** Poll live futures in order up to the first ready one. */
    method PollLive() returns (r: Option<(nat, T)>)
      requires Valid()
      modifies `active, `trace, `yielded
      ensures Valid()
      ensures r.None? ==>
                && Indices(active) == Indices(old(active)) && yielded == old(yielded)
                && trace == old(trace) + Declined(Indices(active))
                && (AllFinite() ==> Work(active) + |active| == Work(old(active)))
      ensures r.Some? ==>
                && r.value.0 < total && r.value.1 == input[r.value.0].result
                && r.value.0 !in old(yielded) && yielded == old(yielded) + [r.value.0]
                && PolledUpTo(Indices(old(active)), r.value.0, old(trace), trace)
    {
      ghost var live := Indices(active);
      var i := 0;
      while i < |active|
        invariant 0 <= i <= |active| && Valid() && Indices(active) == live
        invariant trace == old(trace) + Declined(live[..i]) && yielded == old(yielded)
        invariant AllFinite() ==> Work(active) + i == Work(old(active))
        decreases |active| - i
      {
        if active[i].command.delay == After(0) {
          assert live[i] == active[i].index == old(active)[i].index;
          var done := Yield(i);
          assert trace == old(trace) + Declined(live[..i]) + [Event(live[i], true)];
          return Some(done);
        }
        assert Declined(live[..i + 1]) == Declined(live[..i]) + [Event(live[i], false)];
        PollPending(i);
        i := i + 1;
      }
      assert live[..i] == live;
      r := None;
    }

    /**
      Stream::poll_next.  `live` is what holds a slot after topping up.  Pending: every live future
      was polled exactly once, in order, and declined, and no free slot is left unused.
      Ready(Some): the polls went in order up to the first ready future, whose own result is
      yielded.  Ready(None): all results were yielded.
    */
    method PollNext() returns (r: Poll<Option<(nat, T)>>)
      requires Valid()
      modifies this
      ensures Valid() && launched >= old(launched)
      ensures r.Pending? ==>
                && active != [] && (|active| == limit || pending == [])
                && Indices(active) == Indices(old(active)) + Span(old(launched), launched)
                && trace == old(trace) + Declined(Indices(active)) && yielded == old(yielded)
                && (AllFinite() ==> TotalWork() + |active| == old(TotalWork()))
      ensures r == Ready(None) ==> pending == [] && |yielded| == total && trace == old(trace) && yielded == old(yielded)
      ensures r.Ready? && r.value.Some? ==>
                var (index, result) := r.value.value;
                && index < total && result == input[index].result
                && index !in old(yielded) && yielded == old(yielded) + [index]
                && PolledUpTo(Indices(old(active)) + Span(old(launched), launched), index, old(trace), trace)
    {
      TopUp();
      var done := PollLive();
      if done.Some? {
        return Ready(done);
      }
      r := if active == [] && pending == [] then Ready(None) else Pending;
    }
  }

  /**
    collect_in_order: drive the engine to exhaustion and put each result in its input slot.
    Terminates because every call yields a result or uses up a poll of some live future.
  */
  method CollectInOrder<T>(fanout: Engine<T>) returns (results: seq<T>)
    requires fanout.Valid() && fanout.AllFinite() && fanout.yielded == []
    modifies fanout
    ensures |results| == |fanout.input|
    ensures forall i :: 0 <= i < |results| ==> results[i] == fanout.input[i].result
  {
    var slots: seq<Option<T>> := seq(fanout.total, _ => None);
    var running := true;
    while running
      invariant fanout.Valid() && |slots| == fanout.total
      invariant forall i :: 0 <= i < |slots| ==> slots[i] == if i in fanout.yielded then Some(fanout.input[i].result) else None
      invariant !running ==> |fanout.yielded| == fanout.total
      decreases fanout.total - |fanout.yielded|, fanout.TotalWork(), running
    {
      ghost var before := fanout.yielded;
      var next := fanout.PollNext();
      match next {
        case Pending =>
        case Ready(None) => running := false;
        case Ready(Some((index, result))) =>
          assert slots[index] == None;
          slots := slots[index := Some(result)];
      }
    }
    DistinctCover(fanout.yielded, fanout.total);
    results := seq(|slots|, i requires 0 <= i < |slots| && slots[i].Some? => slots[i].value);
  }
}
