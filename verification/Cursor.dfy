/**
  Order-then-repeat-last consumption of a keyed log, whatever the keys and entries are.

  A log is split by key into slots; each slot hands out its entries in order and then repeats
  the last one.  A turn is one call: the key it looks up, the entry recording it left behind (if
  any), and whether its replay gets as far as the slots.
*/
module Cursor {
  import opened Wrappers

  const USIZE_MAX: nat := 0xffff_ffff_ffff_ffff

  datatype Keyed<K, E> = Keyed(key: K, entry: E)

  /** One key's entries in capture order, and how many calls it has answered. */
  datatype Slot<E> = Slot(entries: seq<E>, next: nat)

  datatype Turn<K, E> = Turn(key: K, stored: Option<E>, reaches: bool)

  function Min(a: nat, b: nat): nat {
    if a <= b then a else b
  }

  /** ReplaySlot::play: in order while they last, then the last one; the cursor saturates. */
  function Play<E>(slot: Slot<E>): (E, Slot<E>)
    requires slot.entries != []
  {
    (slot.entries[Min(slot.next, |slot.entries| - 1)], slot.(next := Min(slot.next + 1, USIZE_MAX)))
  }

  /** The entries under key `k`, in order. */
  function Filter<K(==), E>(log: seq<Keyed<K, E>>, k: K): (r: seq<E>)
    ensures |r| <= |log|
  {
    if log == [] then []
    else
      var last := log[|log| - 1];
      Filter(log[..|log| - 1], k) + if last.key == k then [last.entry] else []
  }

  lemma FilterPush<K, E>(log: seq<Keyed<K, E>>, e: Keyed<K, E>, k: K)
    ensures Filter(log + [e], k) == Filter(log, k) + if e.key == k then [e.entry] else []
  {
  }

  lemma {:induction false} FilterAppend<K, E>(a: seq<Keyed<K, E>>, b: seq<Keyed<K, E>>, k: K)
    ensures Filter(a + b, k) == Filter(a, k) + Filter(b, k)
    decreases |b|
  {
    if b == [] {
      assert a + b == a;
    } else {
      var front, last := b[..|b| - 1], b[|b| - 1];
      FilterAppend(a, front, k);
      FilterPush(a + front, last, k);
      assert a + b == (a + front) + [last];
    }
  }

  predicate NonEmpty<K, E>(slots: map<K, Slot<E>>) {
    forall k :: k in slots ==> slots[k].entries != []
  }

  /** `slots` holds exactly the entries of `log` by key, after the calls of `turns`. */
  ghost predicate Serves<K(!new), E>(slots: map<K, Slot<E>>, log: seq<Keyed<K, E>>, turns: seq<Turn<K, E>>) {
    forall k :: (k in slots <==> Filter(log, k) != [])
                && (k in slots ==> slots[k] == Slot(Filter(log, k), Min(Plays(turns, k), USIZE_MAX)))
  }

  // ---------------------------------------------------------------------------------------
  // Recording and replaying a run of turns

  /** The log the turns record. */
  function LogOf<K, E>(turns: seq<Turn<K, E>>): seq<Keyed<K, E>> {
    if turns == [] then []
    else
      var last := turns[|turns| - 1];
      LogOf(turns[..|turns| - 1]) + match last.stored case Some(e) => [Keyed(last.key, e)] case None => []
  }

  /** How many turns are answered from slot `k`. */
  function Plays<K(==), E>(turns: seq<Turn<K, E>>, k: K): nat {
    if turns == [] then 0
    else
      var last := turns[|turns| - 1];
      Plays(turns[..|turns| - 1], k) + if last.reaches && last.key == k then 1 else 0
  }

  /** How many turns left an entry under key `k`. */
  function Stores<K(==), E>(turns: seq<Turn<K, E>>, k: K): nat {
    |Filter(LogOf(turns), k)|
  }

  /** One turn on replay: the entry served, if any, and the slots after it. */
  function Serve<K, E>(slots: map<K, Slot<E>>, turn: Turn<K, E>): (r: (Option<E>, map<K, Slot<E>>))
    requires NonEmpty(slots)
    ensures NonEmpty(r.1)
  {
    if !turn.reaches || turn.key !in slots then (None, slots)
    else
      var (entry, slot) := Play(slots[turn.key]);
      (Some(entry), slots[turn.key := slot])
  }

  function ServeAll<K, E>(slots: map<K, Slot<E>>, turns: seq<Turn<K, E>>): (r: (seq<Option<E>>, map<K, Slot<E>>))
    requires NonEmpty(slots)
    ensures |r.0| == |turns| && NonEmpty(r.1)
  {
    if turns == [] then ([], slots)
    else
      var (served, mid) := ServeAll(slots, turns[..|turns| - 1]);
      var (entry, end) := Serve(mid, turns[|turns| - 1]);
      (served + [entry], end)
  }

  lemma ServesNonEmpty<K(!new), E>(slots: map<K, Slot<E>>, log: seq<Keyed<K, E>>, turns: seq<Turn<K, E>>)
    requires Serves(slots, log, turns)
    ensures NonEmpty(slots)
  {
  }

  /** Under any interleaving of keys a slot is the log filtered by key, its cursor the calls so far. */
  lemma {:induction false} CursorCountsPlays<K(!new), E>(slots: map<K, Slot<E>>, log: seq<Keyed<K, E>>, turns: seq<Turn<K, E>>)
    requires Serves(slots, log, []) && NonEmpty(slots)
    ensures Serves(ServeAll(slots, turns).1, log, turns)
    decreases |turns|
  {
    if turns != [] {
      CursorCountsPlays(slots, log, turns[..|turns| - 1]);
    }
  }

  /** What a longer run serves the i-th turn is what the run up to it serves. */
  lemma {:induction false} ServeAllAt<K, E>(slots: map<K, Slot<E>>, turns: seq<Turn<K, E>>, i: nat)
    requires NonEmpty(slots) && i < |turns|
    ensures ServeAll(slots, turns).0[i] == Serve(ServeAll(slots, turns[..i]).1, turns[i]).0
    decreases |turns|
  {
    var front := turns[..|turns| - 1];
    if i < |front| {
      ServeAllAt(slots, front, i);
      assert front[..i] == turns[..i];
    } else {
      assert front == turns[..i];
    }
  }

  /** What the slots hand a turn after `turns`. */
  lemma ServeAfter<K(!new), E>(slots: map<K, Slot<E>>, log: seq<Keyed<K, E>>, turns: seq<Turn<K, E>>, turn: Turn<K, E>)
    requires Serves(slots, log, turns) && NonEmpty(slots) && |log| <= USIZE_MAX && turn.reaches
    ensures var all := Filter(log, turn.key);
            Serve(slots, turn).0 == if all == [] then None else Some(all[Min(Plays(turns, turn.key), |all| - 1)])
  {
  }

  /** The i-th turn is served entry min(earlier plays of its key, last). */
  lemma ServedEntry<K(!new), E>(slots: map<K, Slot<E>>, log: seq<Keyed<K, E>>, turns: seq<Turn<K, E>>, i: nat)
    requires Serves(slots, log, []) && NonEmpty(slots) && |log| <= USIZE_MAX
    requires i < |turns| && turns[i].reaches
    ensures var all := Filter(log, turns[i].key);
            ServeAll(slots, turns).0[i] ==
            if all == [] then None else Some(all[Min(Plays(turns[..i], turns[i].key), |all| - 1)])
  {
    ServeAllAt(slots, turns, i);
    CursorCountsPlays(slots, log, turns[..i]);
    ServeAfter(ServeAll(slots, turns[..i]).1, log, turns[..i], turns[i]);
  }

  lemma {:induction false} LogOfShorter<K, E>(turns: seq<Turn<K, E>>)
    ensures |LogOf(turns)| <= |turns|
    decreases |turns|
  {
    if turns != [] {
      LogOfShorter(turns[..|turns| - 1]);
    }
  }

  lemma LogOfPush<K, E>(turns: seq<Turn<K, E>>, i: nat)
    requires i < |turns|
    ensures LogOf(turns[..i + 1]) ==
            LogOf(turns[..i]) + match turns[i].stored case Some(e) => [Keyed(turns[i].key, e)] case None => []
  {
    assert turns[..i + 1][..i] == turns[..i];
  }

  lemma {:induction false} LogOfPrefix<K, E>(turns: seq<Turn<K, E>>, i: nat)
    requires i <= |turns|
    ensures LogOf(turns[..i]) <= LogOf(turns)
    decreases |turns| - i
  {
    if i == |turns| {
      assert turns[..i] == turns;
    } else {
      LogOfPush(turns, i);
      LogOfPrefix(turns, i + 1);
    }
  }

  /** A turn's own entry sits in its slot behind the earlier entries of its key. */
  lemma OwnEntryAt<K, E>(turns: seq<Turn<K, E>>, i: nat)
    requires i < |turns| && turns[i].stored.Some?
    ensures var k := turns[i].key;
            var own := Stores(turns[..i], k);
            own < Stores(turns, k) && Filter(LogOf(turns), k)[own] == turns[i].stored.value
  {
    var k, e := turns[i].key, turns[i].stored.value;
    LogOfPush(turns, i);
    FilterPush(LogOf(turns[..i]), Keyed(k, e), k);
    LogOfPrefix(turns, i + 1);
    FilterPrefix(LogOf(turns[..i + 1]), LogOf(turns), k);
  }

  lemma FilterPrefix<K, E>(a: seq<Keyed<K, E>>, log: seq<Keyed<K, E>>, k: K)
    requires a <= log
    ensures Filter(a, k) <= Filter(log, k)
  {
    FilterAppend(a, log[|a|..], k);
    assert log == a + log[|a|..];
  }

  // ---------------------------------------------------------------------------------------
  // When a turn is served its own entry

  /** How many turns on `k` were recorded but stop before the slot on replay: they hold the cursor back. */
  function Behind<K(==), E>(turns: seq<Turn<K, E>>, k: K): nat {
    if turns == [] then 0
    else
      var last := turns[|turns| - 1];
      Behind(turns[..|turns| - 1], k) + if last.stored.Some? && !last.reaches && last.key == k then 1 else 0
  }

  /** How many turns on `k` reach the slot on replay but were not recorded: they push the cursor on. */
  function Ahead<K(==), E>(turns: seq<Turn<K, E>>, k: K): nat {
    if turns == [] then 0
    else
      var last := turns[|turns| - 1];
      Ahead(turns[..|turns| - 1], k) + if last.stored.None? && last.reaches && last.key == k then 1 else 0
  }

  lemma {:induction false} PlaysVersusStores<K, E>(turns: seq<Turn<K, E>>, k: K)
    ensures Plays(turns, k) + Behind(turns, k) == Stores(turns, k) + Ahead(turns, k)
    decreases |turns|
  {
    if turns != [] {
      var front, last := turns[..|turns| - 1], turns[|turns| - 1];
      PlaysVersusStores(front, k);
      match last.stored
      case Some(e) => FilterPush(LogOf(front), Keyed(last.key, e), k);
      case None => assert LogOf(turns) == LogOf(front);
    }
  }

  /** Nothing after turn `i - 1` was recorded under `k`. */
  predicate NoMore<K(==), E>(turns: seq<Turn<K, E>>, i: nat, k: K) {
    forall j :: i <= j < |turns| ==> !(turns[j].stored.Some? && turns[j].key == k)
  }

  lemma {:induction false} LaterStores<K, E>(turns: seq<Turn<K, E>>, i: nat, k: K)
    requires i <= |turns|
    ensures Stores(turns[..i], k) <= Stores(turns, k)
    ensures Stores(turns[..i], k) == Stores(turns, k) <==> NoMore(turns, i, k)
    decreases |turns| - i
  {
    if i == |turns| {
      assert turns[..i] == turns;
    } else {
      LaterStores(turns, i + 1, k);
      StoresPush(turns, i, k);
      var here := turns[i].stored.Some? && turns[i].key == k;
      assert NoMore(turns, i, k) <==> !here && NoMore(turns, i + 1, k);
    }
  }

  lemma StoresPush<K, E>(turns: seq<Turn<K, E>>, i: nat, k: K)
    requires i < |turns|
    ensures Stores(turns[..i + 1], k) ==
            Stores(turns[..i], k) + if turns[i].stored.Some? && turns[i].key == k then 1 else 0
  {
    LogOfPush(turns, i);
    match turns[i].stored
    case Some(e) => FilterPush(LogOf(turns[..i]), Keyed(turns[i].key, e), k);
    case None => assert LogOf(turns[..i + 1]) == LogOf(turns[..i]);
  }

  /** A key has entries exactly when some turn left one under it. */
  lemma StoredIffNonEmpty<K, E>(turns: seq<Turn<K, E>>, k: K)
    ensures Filter(LogOf(turns), k) != [] <==> exists j :: 0 <= j < |turns| && turns[j].stored.Some? && turns[j].key == k
  {
    LaterStores(turns, 0, k);
    assert turns[..0] == [];
    assert NoMore(turns, 0, k) <==> !exists j :: 0 <= j < |turns| && turns[j].stored.Some? && turns[j].key == k;
  }

  /** Where the i-th turn's own entry sits in its slot. */
  function OwnIndex<K(==), E>(turns: seq<Turn<K, E>>, i: nat): nat
    requires i < |turns|
  {
    Stores(turns[..i], turns[i].key)
  }

  /** Which entry of its slot the i-th turn is served on replay, the slot not being empty. */
  function ServedIndex<K(==), E>(turns: seq<Turn<K, E>>, i: nat): nat
    requires i < |turns| && Stores(turns, turns[i].key) > 0
  {
    Min(Plays(turns[..i], turns[i].key), Stores(turns, turns[i].key) - 1)
  }

  /**
    The cursor is where it should be, or it has run past the end of a slot whose last entry is
    the turn's own.
  */
  predicate InStep<K(==), E>(turns: seq<Turn<K, E>>, i: nat)
    requires i < |turns|
  {
    var k := turns[i].key;
    || Behind(turns[..i], k) == Ahead(turns[..i], k)
    || (Behind(turns[..i], k) < Ahead(turns[..i], k) && NoMore(turns, i + 1, k))
  }

  /** The entry at the i-th turn's own place is the one it left; it is served from that place exactly when in step. */
  lemma OwnIndexServedIff<K, E>(turns: seq<Turn<K, E>>, i: nat)
    requires i < |turns| && turns[i].stored.Some?
    ensures var all := Filter(LogOf(turns), turns[i].key);
            && OwnIndex(turns, i) < |all| && Some(all[OwnIndex(turns, i)]) == turns[i].stored
            && (ServedIndex(turns, i) == OwnIndex(turns, i) <==> InStep(turns, i))
  {
    var k := turns[i].key;
    OwnEntryAt(turns, i);
    PlaysVersusStores(turns[..i], k);
    StoresPush(turns, i, k);
    LaterStores(turns, i + 1, k);
  }

  /**
    Replaying the log a run recorded, whatever the run: a call that was recorded and reaches the
    slots is served the entry at `ServedIndex`, which is the place of its own entry if and only
    if the earlier calls on its key leave it in step.
  */
  lemma OwnEntryServed<K(!new), E>(slots: map<K, Slot<E>>, turns: seq<Turn<K, E>>, i: nat)
    requires Serves(slots, LogOf(turns), []) && NonEmpty(slots) && |LogOf(turns)| <= USIZE_MAX
    requires i < |turns| && turns[i].reaches && turns[i].stored.Some?
    ensures var all := Filter(LogOf(turns), turns[i].key);
            && OwnIndex(turns, i) < |all| && Some(all[OwnIndex(turns, i)]) == turns[i].stored
            && ServeAll(slots, turns).0[i] == Some(all[ServedIndex(turns, i)])
            && (ServedIndex(turns, i) == OwnIndex(turns, i) <==> InStep(turns, i))
  {
    OwnIndexServedIff(turns, i);
    ServedEntry(slots, LogOf(turns), turns, i);
  }

  /** Replaying the log a run recorded serves every call in step its own entry. */
  lemma RunServesOwnEntries<K(!new), E>(slots: map<K, Slot<E>>, turns: seq<Turn<K, E>>, i: nat)
    requires Serves(slots, LogOf(turns), []) && NonEmpty(slots) && |LogOf(turns)| <= USIZE_MAX
    requires i < |turns| && turns[i].reaches && turns[i].stored.Some? && InStep(turns, i)
    ensures ServeAll(slots, turns).0[i] == turns[i].stored
  {
    OwnEntryServed(slots, turns, i);
  }

  /** The smallest lag: the second call on a key is served the first one's entry. */
  lemma TwoTurnsServeFirst<K(!new), E>(slots: map<K, Slot<E>>, k: K, first: E, second: E)
    requires var turns := [Turn(k, Some(first), false), Turn(k, Some(second), true)];
             NonEmpty(slots) && Serves(slots, LogOf(turns), [])
    ensures ServeAll(slots, [Turn(k, Some(first), false), Turn(k, Some(second), true)]).0[1] == Some(first)
  {
    var a, b := Turn(k, Some(first), false), Turn(k, Some(second), true);
    var turns := [a, b];
    assert turns[..1] == [a] && [a][..0] == [] && turns[..2] == turns;
    LogOfPush(turns, 0);
    LogOfPush(turns, 1);
    FilterPush(LogOf([a]), Keyed(k, second), k);
    FilterPush(LogOf<K, E>([]), Keyed(k, first), k);
    assert Filter(LogOf(turns), k) == [first, second];
    assert Plays(turns[..1], k) == Plays(turns[..0], k) == 0;
    ServedEntry(slots, LogOf(turns), turns, 1);
  }

  lemma FilterTwo<K, E>(k: K, x: E, y: E)
    ensures Filter([Keyed(k, x), Keyed(k, y)], k) == [x, y]
  {
    FilterPush<K, E>([], Keyed(k, x), k);
    FilterPush([Keyed(k, x)], Keyed(k, y), k);
    assert [] + [Keyed(k, x)] == [Keyed(k, x)] && [Keyed(k, x)] + [Keyed(k, y)] == [Keyed(k, x), Keyed(k, y)];
  }

  lemma LeadingLog<K, E>(k: K, second: E, third: E)
    ensures var turns := [Turn(k, None, true), Turn(k, Some(second), true), Turn(k, Some(third), true)];
            && LogOf(turns) == [Keyed(k, second), Keyed(k, third)]
            && turns[..1] == [Turn(k, None, true)] && Plays(turns[..1], k) == 1
  {
    var a, b, c := Turn(k, None, true), Turn(k, Some(second), true), Turn(k, Some(third), true);
    var turns := [a, b, c];
    assert turns[..1] == [a] && turns[..2] == [a, b] && turns[..3] == turns && turns[..0] == [] && [a][..0] == [];
    LogOfPush(turns, 0);
    LogOfPush(turns, 1);
    LogOfPush(turns, 2);
  }

  /** The smallest lead: a call that left no entry uses up the next call's. */
  lemma ThreeTurnsServeThird<K(!new), E>(slots: map<K, Slot<E>>, k: K, second: E, third: E)
    requires var turns := [Turn(k, None, true), Turn(k, Some(second), true), Turn(k, Some(third), true)];
             NonEmpty(slots) && Serves(slots, LogOf(turns), [])
    ensures ServeAll(slots, [Turn(k, None, true), Turn(k, Some(second), true), Turn(k, Some(third), true)]).0[1]
            == Some(third)
  {
    var turns := [Turn(k, None, true), Turn(k, Some(second), true), Turn(k, Some(third), true)];
    LeadingLog(k, second, third);
    FilterTwo(k, second, third);
    ServedEntry(slots, LogOf(turns), turns, 1);
  }
}
