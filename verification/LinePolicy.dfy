/**
  Keeping lines under a line cap and a byte cap. Each mode is proved equal to a maximal prefix
  or suffix of everything pushed.
*/
module LinePolicy {
  import opened Wrappers
  import opened OutputPolicy

  /** A line without its terminator, as UTF-8 bytes. */
  type Line = Bytes

  function Sum(lines: seq<Line>): nat {
    if lines == [] then 0 else Sum(lines[..|lines| - 1]) + |lines[|lines| - 1]|
  }

  predicate Capped(policy: Policy) {
    policy.maxLines.Some? || policy.maxBytes.Some?
  }

  /** Every ceiling holds, with one line of the byte cap charged to each line. */
  predicate FitsSize(count: nat, bytes: nat, policy: Policy) {
    && (policy.maxLines.Some? ==> count <= policy.maxLines.value)
    && (policy.maxBytes.Some? ==> bytes <= policy.maxBytes.value && count <= policy.maxBytes.value)
  }

  predicate Fits(lines: seq<Line>, policy: Policy) {
    FitsSize(|lines|, Sum(lines), policy)
  }

  ghost predicate LongestSuffix(kept: seq<Line>, input: seq<Line>, policy: Policy) {
    && |kept| <= |input|
    && kept == input[|input| - |kept|..]
    && Fits(kept, policy)
    && forall i | 0 <= i < |input| - |kept| :: !Fits(input[i..], policy)
  }

  ghost predicate LongestPrefix(kept: seq<Line>, input: seq<Line>, policy: Policy) {
    && |kept| <= |input|
    && kept == input[..|kept|]
    && Fits(kept, policy)
    && forall i | |kept| < i <= |input| :: !Fits(input[..i], policy)
  }

  /** Error mode without a ceiling tolerates no output at all. */
  predicate ZeroTolerance(policy: Policy) {
    policy.overflow.Error? && !Capped(policy)
  }

  /** What `input` must leave behind, in each mode. */
  ghost predicate Retains(lines: seq<Line>, input: seq<Line>, policy: Policy) {
    if policy.overflow.DropOldest? then LongestSuffix(lines, input, policy)
    else if ZeroTolerance(policy) then lines == []
    else LongestPrefix(lines, input, policy)
  }

  predicate Overflows(input: seq<Line>, policy: Policy) {
    policy.overflow.Error? && if Capped(policy) then !Fits(input, policy) else input != []
  }

  predicate Seals(input: seq<Line>, policy: Policy) {
    policy.overflow.DropNewest? && !Fits(input, policy)
  }

  /** The state every mode must be in once `input` has been pushed. */
  ghost predicate Reached(policy: Policy, input: seq<Line>,
                          lines: seq<Line>, dropped: nat, overflowed: bool, isSealed: bool)
  {
    && Retains(lines, input, policy)
    && overflowed == Overflows(input, policy)
    && isSealed == Seals(input, policy)
    && |lines| <= |input|
    && dropped <= |input| - |lines|
    && (!policy.overflow.DropOldest? ==> dropped == |input| - |lines|)
    && (dropped == 0 <==> lines == input)
  }

  lemma {:induction false} SumAppend(a: seq<Line>, b: seq<Line>)
    ensures Sum(a + b) == Sum(a) + Sum(b)
  {
    if b == [] {
      assert a + b == a;
    } else {
      var rest := b[..|b| - 1];
      assert (a + b)[..|a + b| - 1] == a + rest;
      SumAppend(a, rest);
    }
  }

  lemma SumPush(lines: seq<Line>, line: Line)
    ensures Sum(lines + [line]) == Sum(lines) + |line|
  {
  }

  /** Dropping lines from either end never breaks a ceiling. */
  lemma FitsParts(a: seq<Line>, b: seq<Line>, policy: Policy)
    requires Fits(a + b, policy)
    ensures Fits(a, policy) && Fits(b, policy)
  {
    SumAppend(a, b);
  }

  lemma PrefixPush(kept: seq<Line>, input: seq<Line>, line: Line, policy: Policy)
    requires LongestPrefix(kept, input, policy)
    ensures Fits(input, policy) <==> kept == input
    ensures Fits(input + [line], policy) ==> kept == input
    ensures kept == input && Fits(input + [line], policy) ==> LongestPrefix(kept + [line], input + [line], policy)
    ensures !Fits(input + [line], policy) ==> LongestPrefix(kept, input + [line], policy)
  {
    var grown := input + [line];
    assert grown[..|input|] == input && grown[..|grown|] == grown;
    assert input[..|input|] == input;
    forall i | 0 <= i <= |input| ensures grown[..i] == input[..i] {
    }
    if Fits(grown, policy) {
      FitsParts(input, [line], policy);
    }
  }

  lemma SuffixPush(kept: seq<Line>, input: seq<Line>, line: Line, policy: Policy)
    requires LongestSuffix(kept, input, policy)
    ensures var grown := input + [line];
      && kept + [line] == grown[|input| - |kept|..]
      && forall i | 0 <= i < |input| - |kept| :: !Fits(grown[i..], policy)
  {
    var grown := input + [line];
    forall i | 0 <= i < |input| - |kept| ensures !Fits(grown[i..], policy) {
      assert grown[i..] == input[i..] + [line];
      if Fits(grown[i..], policy) {
        FitsParts(input[i..], [line], policy);
      }
    }
  }

  /** The longest suffix of one more line is the old one and the line, or shorter. */
  lemma OldestKeeps(policy: Policy, input: seq<Line>, line: Line, before: seq<Line>, dropped: nat, after: seq<Line>)
    requires policy.overflow.DropOldest? && Reached(policy, input, before, dropped, false, false)
    requires LongestSuffix(after, input + [line], policy)
    ensures after == before + [line] ==> Reached(policy, input + [line], after, dropped, false, false)
    ensures |after| <= |before| ==> Reached(policy, input + [line], after, dropped + 1, false, false)
  {
  }

  class Lines {
    const policy: Policy
    var lines: seq<Line>
    var count: nat
    var seenBytes: nat
    var dropped: nat
    var overflowed: bool
    var isSealed: bool

    /** Everything pushed so far. */
    ghost var input: seq<Line>

    ghost predicate Valid()
      reads this
    {
      && count == |input|
      && seenBytes == Sum(input)
      && Reached(policy, input, lines, dropped, overflowed, isSealed)
    }

    constructor (policy: Policy)
      ensures Valid() && this.policy == policy && input == []
    {
      this.policy := policy;
      lines, count, seenBytes, dropped, overflowed, isSealed := [], 0, 0, 0, false, false;
      input := [];
    }

    /** Counts the line whatever becomes of it. `dropped` counts pushes that lost a line, once each. */
    method Push(line: Line)
      requires Valid()
      modifies this
      ensures Valid() && input == old(input) + [line]
      ensures dropped == old(dropped) + if lines == old(lines) + [line] then 0 else 1
    {
      count := count + 1;
      seenBytes := seenBytes + |line|;
      SumPush(input, line);
      match policy.overflow
      case Error => PushError(line);
      case DropOldest => PushOldest(line);
      case DropNewest => PushNewest(line);
    }

    /** The state in which each arm of `Push` starts: the line is counted and nothing else done. */
    ghost predicate Counted(line: Line)
      reads this
    {
      && count == |input| + 1
      && seenBytes == Sum(input + [line])
      && Reached(policy, input, lines, dropped, overflowed, isSealed)
    }

    method PushError(line: Line)
      requires Counted(line) && policy.overflow.Error?
      modifies this
      ensures Valid() && input == old(input) + [line]
      ensures dropped == old(dropped) + if lines == old(lines) + [line] then 0 else 1
    {
      if Capped(policy) {
        PrefixPush(lines, input, line, policy);
      }
      input := input + [line];
      var over := match (policy.maxLines, policy.maxBytes)
        case (None, None) => true
        case (maxLines, maxBytes) =>
          || (maxLines.Some? && count > maxLines.value)
          || (maxBytes.Some? && (seenBytes > maxBytes.value || count > maxBytes.value));
      if over {
        overflowed := true;
        dropped := dropped + 1;
      } else {
        lines := lines + [line];
      }
    }

    method PushOldest(line: Line)
      requires Counted(line) && policy.overflow.DropOldest?
      modifies this
      ensures Valid() && input == old(input) + [line]
      ensures dropped == old(dropped) + if lines == old(lines) + [line] then 0 else 1
    {
      ghost var before := lines;
      lines := lines + [line];
      var evicted := Enlist(line, before);
      OldestKeeps(policy, old(input), line, before, dropped, lines);
      if evicted {
        dropped := dropped + 1;
      }
    }

    /** The line joins; the front makes room. */
    method Enlist(line: Line, ghost before: seq<Line>) returns (evicted: bool)
      requires LongestSuffix(before, input, policy) && lines == before + [line]
      modifies this`input, this`lines
      ensures input == old(input) + [line] && LongestSuffix(lines, input, policy)
      ensures if evicted then |lines| <= |before| else lines == before + [line]
    {
      SuffixPush(before, input, line, policy);
      input := input + [line];
      evicted := Evict();
    }

    /** Drops from the front until every ceiling holds. */
    method Evict() returns (evicted: bool)
      requires |lines| <= |input| && lines == input[|input| - |lines|..]
      requires forall i | 0 <= i < |input| - |lines| :: !Fits(input[i..], policy)
      modifies this`lines
      ensures LongestSuffix(lines, input, policy)
      ensures if evicted then |lines| < |old(lines)| else lines == old(lines)
    {
      evicted := false;
      while !Fits(lines, policy)
        invariant |lines| <= |input| && lines == input[|input| - |lines|..]
        invariant forall i | 0 <= i < |input| - |lines| :: !Fits(input[i..], policy)
        invariant if evicted then |lines| < |old(lines)| else lines == old(lines)
        decreases |lines|
      {
        lines := lines[1..];
        evicted := true;
      }
    }

    method PushNewest(line: Line)
      requires Counted(line) && policy.overflow.DropNewest?
      modifies this
      ensures Valid() && input == old(input) + [line]
      ensures dropped == old(dropped) + if lines == old(lines) + [line] then 0 else 1
    {
      PrefixPush(lines, input, line, policy);
      SumPush(lines, line);
      input := input + [line];
      var bytes := Sum(lines);
      var fits :=
        && (policy.maxLines.None? || |lines| < policy.maxLines.value)
        && (policy.maxBytes.None? || (bytes + |line| <= policy.maxBytes.value && |lines| < policy.maxBytes.value));
      if !isSealed && fits {
        lines := lines + [line];
      } else {
        isSealed := true;
        dropped := dropped + 1;
      }
    }
  }

  /** The specifications determine what is kept. */
  lemma LongestIsUnique(a: seq<Line>, b: seq<Line>, input: seq<Line>, policy: Policy)
    ensures LongestSuffix(a, input, policy) && LongestSuffix(b, input, policy) ==> a == b
    ensures LongestPrefix(a, input, policy) && LongestPrefix(b, input, policy) ==> a == b
  {
  }

  /** Nothing is lost exactly when the whole input fits, so the ceilings cost only what exceeds them. */
  lemma KeepsAllIff(lines: seq<Line>, input: seq<Line>, policy: Policy)
    requires Retains(lines, input, policy) && !ZeroTolerance(policy)
    ensures lines == input <==> Fits(input, policy)
  {
    assert input[..|input|] == input && input[0..] == input;
  }

  /**
    Fail-loud keeps the head that drop-newest keeps, and trips exactly when drop-newest seals,
    if and only if some ceiling is set or nothing was pushed.
  */
  lemma ErrorMatchesNewestIff(fail: Policy, input: seq<Line>,
                              lines: seq<Line>, dropped: nat, overflowed: bool,
                              head: seq<Line>, headDropped: nat, isSealed: bool)
    requires fail.overflow.Error?
    requires Reached(fail, input, lines, dropped, overflowed, false)
    requires Reached(fail.(overflow := DropNewest), input, head, headDropped, false, isSealed)
    ensures lines == head && overflowed == isSealed <==> Capped(fail) || input == []
  {
  }

  /** A whole capture: the state after any input, in any mode. */
  method PushAll(input: seq<Line>, policy: Policy)
    returns (lines: seq<Line>, dropped: nat, overflowed: bool, isSealed: bool)
    ensures Reached(policy, input, lines, dropped, overflowed, isSealed)
  {
    var kept := new Lines(policy);
    for i := 0 to |input|
      invariant fresh(kept) && kept.Valid() && kept.policy == policy
      invariant kept.input == input[..i]
    {
      kept.Push(input[i]);
    }
    assert input[..|input|] == input;
    lines, dropped, overflowed, isSealed := kept.lines, kept.dropped, kept.overflowed, kept.isSealed;
  }
}
