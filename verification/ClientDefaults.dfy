/**
  A client fills its defaults into a command: only the gaps, and each resolver only when its
  value is used.
*/
module ClientDefaults {
  import opened Wrappers
  import opened Environment

  datatype Timeout = Unset | After(millis: nat) | Unbounded

  /** The parts of a command the defaults touch. */
  datatype Settings = Settings(
    ops: seq<Op>,
    clear: bool,
    inherit: Option<seq<Name>>,
    timeout: Timeout,
    cancel: Option<nat>,
    retry: Option<nat>)

  /** A registered `default_env_fn`: the variable and which resolver computes it. */
  datatype Dynamic = Dynamic(name: Name, resolver: nat)

  /** The value a resolver gives the n-th time any resolver runs. */
  type Answers = (nat, nat) -> Bytes

  predicate Isolated(p: Platform, s: Settings, name: Name) {
    s.clear || (s.inherit.Some? && Listed(p, s.inherit.value, name))
  }

  /** has_env_override: the command has taken control of `name`. */
  predicate HasEnvOverride(p: Platform, s: Settings, name: Name) {
    Isolated(p, s, name) || exists i :: 0 <= i < |s.ops| && KeyEq(p, s.ops[i].name, name)
  }

  lemma OverrideMeans(p: Platform, s: Settings, name: Name)
    ensures HasEnvOverride(p, s, name) <==> Isolated(p, s, name) || LastOp(p, s.ops, name).Some?
    ensures Isolated(p, s, name) <==>
              s.clear || (s.inherit.Some? && exists i :: 0 <= i < |s.inherit.value| && KeyEq(p, s.inherit.value[i], name))
  {
    UntouchedByNone(p, s.ops, name);
  }

  predicate DistinctOps(p: Platform, ops: seq<Op>) {
    forall i, j :: 0 <= i < j < |ops| ==> !KeyEq(p, ops[i].name, ops[j].name)
  }

  predicate DistinctDynamics(p: Platform, fns: seq<Dynamic>) {
    forall i, j :: 0 <= i < j < |fns| ==> !KeyEq(p, fns[i].name, fns[j].name)
  }

  // ---------------------------------------------------------------------------------------
  // Filling, as functions of the command and the client

  /** Push each static default whose key nobody controls yet. */
  function FillStatic(p: Platform, s: Settings, defaults: seq<Op>): Settings {
    if defaults == [] then s
    else
      var front, last := defaults[..|defaults| - 1], defaults[|defaults| - 1];
      var filled := FillStatic(p, s, front);
      if HasEnvOverride(p, filled, last.name) then filled else filled.(ops := filled.ops + [last])
  }

  /** Run each resolver whose key nobody controls yet; also returns the resolvers that ran. */
  function FillDynamic(p: Platform, s: Settings, fns: seq<Dynamic>, answers: Answers, ran: nat): (Settings, seq<nat>) {
    if fns == [] then (s, [])
    else
      var front, last := fns[..|fns| - 1], fns[|fns| - 1];
      var (filled, log) := FillDynamic(p, s, front, answers, ran);
      if HasEnvOverride(p, filled, last.name) then (filled, log)
      else (filled.(ops := filled.ops + [Op(last.name, Some(answers(last.resolver, ran + |log|)))]), log + [last.resolver])
  }

  /** One more resolver. */
  lemma FillDynamicTake(p: Platform, s: Settings, fns: seq<Dynamic>, answers: Answers, ran: nat, i: nat)
    requires i < |fns|
    ensures var (filled, log) := FillDynamic(p, s, fns[..i], answers, ran);
            FillDynamic(p, s, fns[..i + 1], answers, ran) ==
            if HasEnvOverride(p, filled, fns[i].name) then (filled, log)
            else (filled.(ops := filled.ops + [Op(fns[i].name, Some(answers(fns[i].resolver, ran + |log|)))]),
                  log + [fns[i].resolver])
  {
    assert fns[..i + 1][..i] == fns[..i];
  }

  datatype Defaults = Defaults(timeout: Option<nat>, envs: seq<Op>, envFns: seq<Dynamic>, cancel: Option<nat>,
                               retry: Option<nat>)

  function FillLimits(s: Settings, d: Defaults): Settings {
    s.(timeout := if s.timeout.Unset? && d.timeout.Some? then After(d.timeout.value) else s.timeout,
       cancel := if s.cancel.None? then d.cancel else s.cancel)
  }

  function FillRetry(s: Settings, d: Defaults): Settings {
    s.(retry := if s.retry.None? then d.retry else s.retry)
  }

  /** The defaulted command and the resolvers that ran. */
  function Applied(p: Platform, d: Defaults, s: Settings, answers: Answers, ran: nat): (Settings, seq<nat>) {
    var (filled, log) := FillDynamic(p, FillStatic(p, FillLimits(s, d), d.envs), d.envFns, answers, ran);
    (FillRetry(filled, d), log)
  }

  predicate Proper(p: Platform, d: Defaults) {
    DistinctOps(p, d.envs) && DistinctDynamics(p, d.envFns)
  }

  // ---------------------------------------------------------------------------------------
  // Who decides a variable

  /** The command and the static defaults, in the documented order of precedence. */
  function SettledOp(p: Platform, s: Settings, defaults: seq<Op>, name: Name): Option<Option<Bytes>> {
    if LastOp(p, s.ops, name).Some? then LastOp(p, s.ops, name)
    else if Isolated(p, s, name) then None
    else LastOp(p, defaults, name)
  }

  /** A resolver's value is used when neither the command nor a static default decides. */
  predicate Wanted(p: Platform, s: Settings, defaults: seq<Op>, name: Name) {
    !Isolated(p, s, name) && SettledOp(p, s, defaults, name).None?
  }

  lemma WantedIff(p: Platform, s: Settings, defaults: seq<Op>, name: Name)
    ensures Wanted(p, s, defaults, name) <==>
              && LastOp(p, s.ops, name).None? && LastOp(p, defaults, name).None? && !s.clear
              && (s.inherit.Some? ==> forall i :: 0 <= i < |s.inherit.value| ==> !KeyEq(p, s.inherit.value[i], name))
  {
  }

  /** The resolvers whose value is used, in registration order. */
  function WantedRuns(p: Platform, s: Settings, defaults: seq<Op>, fns: seq<Dynamic>): seq<nat> {
    if fns == [] then []
    else
      var front, last := fns[..|fns| - 1], fns[|fns| - 1];
      WantedRuns(p, s, defaults, front) + if Wanted(p, s, defaults, last.name) then [last.resolver] else []
  }

  lemma LastOpPush(p: Platform, ops: seq<Op>, o: Op, name: Name)
    ensures LastOp(p, ops + [o], name) == if KeyEq(p, o.name, name) then Some(o.value) else LastOp(p, ops, name)
  {
  }

  /** Static defaults fill exactly the gaps. */
  lemma {:induction false} StaticDecides(p: Platform, s: Settings, defaults: seq<Op>, name: Name)
    requires DistinctOps(p, defaults)
    ensures var filled := FillStatic(p, s, defaults);
            && filled == s.(ops := filled.ops)
            && LastOp(p, filled.ops, name) == SettledOp(p, s, defaults, name)
    decreases |defaults|
  {
    if defaults != [] {
      var front, last := defaults[..|defaults| - 1], defaults[|defaults| - 1];
      var filled := FillStatic(p, s, front);
      StaticDecides(p, s, front, name);
      StaticDecides(p, s, front, last.name);
      OverrideMeans(p, filled, last.name);
      LastOpPush(p, filled.ops, last, name);
      assert LastOp(p, front, last.name).None? by {
        UntouchedByNone(p, front, last.name);
      }
      LastOpKeyEq(p, s.ops, last.name, name);
      IsolatedKeyEq(p, s, last.name, name);
    }
  }

  lemma {:induction false} LastOpKeyEq(p: Platform, ops: seq<Op>, a: Name, b: Name)
    ensures KeyEq(p, a, b) ==> LastOp(p, ops, a) == LastOp(p, ops, b)
    decreases |ops|
  {
    if ops != [] {
      LastOpKeyEq(p, ops[..|ops| - 1], a, b);
    }
  }

  lemma IsolatedSame(p: Platform, a: Settings, b: Settings, name: Name)
    requires a.clear == b.clear && a.inherit == b.inherit
    ensures Isolated(p, a, name) <==> Isolated(p, b, name)
  {
  }

  lemma IsolatedKeyEq(p: Platform, s: Settings, a: Name, b: Name)
    ensures KeyEq(p, a, b) ==> (Isolated(p, s, a) <==> Isolated(p, s, b))
  {
  }

  /** The resolvers that run are exactly those whose value is used, once each, in order. */
  lemma {:induction false} DynamicRuns(p: Platform, s: Settings, defaults: seq<Op>, fns: seq<Dynamic>,
                                       answers: Answers, ran: nat, name: Name)
    requires DistinctOps(p, defaults) && DistinctDynamics(p, fns)
    ensures var (filled, log) := FillDynamic(p, FillStatic(p, s, defaults), fns, answers, ran);
            && log == WantedRuns(p, s, defaults, fns)
            && filled == s.(ops := filled.ops)
            && ((forall j :: 0 <= j < |fns| ==> !KeyEq(p, fns[j].name, name)) ==>
                  LastOp(p, filled.ops, name) == SettledOp(p, s, defaults, name))
    decreases |fns|
  {
    StaticDecides(p, s, defaults, name);
    if fns != [] {
      var front, last := fns[..|fns| - 1], fns[|fns| - 1];
      DynamicRuns(p, s, defaults, front, answers, ran, name);
      DynamicRuns(p, s, defaults, front, answers, ran, last.name);
      var (filled, log) := FillDynamic(p, FillStatic(p, s, defaults), front, answers, ran);
      OverrideMeans(p, filled, last.name);
      IsolatedSame(p, filled, s, last.name);
      DynamicStep(p, FillStatic(p, s, defaults), fns, answers, ran, name);
      assert forall j :: 0 <= j < |front| ==> front[j] == fns[j];
    }
  }

  /** What the resolver at `j` contributes: its value if wanted, else nothing. */
  function DynamicOp(p: Platform, s: Settings, defaults: seq<Op>, fns: seq<Dynamic>, answers: Answers, ran: nat, j: nat)
    : Option<Option<Bytes>>
    requires j < |fns|
  {
    if Wanted(p, s, defaults, fns[j].name)
    then Some(Some(answers(fns[j].resolver, ran + |WantedRuns(p, s, defaults, fns[..j])|)))
    else SettledOp(p, s, defaults, fns[j].name)
  }

  /** What one more resolver does to the last operation on `name`. */
  lemma DynamicStep(p: Platform, s: Settings, fns: seq<Dynamic>, answers: Answers, ran: nat, name: Name)
    requires fns != []
    ensures var front, last := fns[..|fns| - 1], fns[|fns| - 1];
            var (filled, log) := FillDynamic(p, s, front, answers, ran);
            LastOp(p, FillDynamic(p, s, fns, answers, ran).0.ops, name) ==
            if KeyEq(p, last.name, name) && !HasEnvOverride(p, filled, last.name)
            then Some(Some(answers(last.resolver, ran + |log|)))
            else LastOp(p, filled.ops, name)
  {
  }

  lemma DistinctFront(p: Platform, fns: seq<Dynamic>)
    requires DistinctDynamics(p, fns) && fns != []
    ensures DistinctDynamics(p, fns[..|fns| - 1])
    ensures forall k :: 0 <= k < |fns| - 1 ==> !KeyEq(p, fns[k].name, fns[|fns| - 1].name)
    ensures forall k :: 0 <= k < |fns| - 1 ==> fns[..|fns| - 1][k] == fns[k]
  {
  }

  /** A later resolver leaves an earlier one's variable alone. */
  lemma EarlierDynamicStands(p: Platform, s: Settings, fns: seq<Dynamic>, answers: Answers, ran: nat, j: nat)
    requires DistinctDynamics(p, fns) && j < |fns| - 1
    ensures LastOp(p, FillDynamic(p, s, fns, answers, ran).0.ops, fns[j].name)
            == LastOp(p, FillDynamic(p, s, fns[..|fns| - 1], answers, ran).0.ops, fns[j].name)
  {
  }

  lemma DynamicOpFront(p: Platform, s: Settings, defaults: seq<Op>, fns: seq<Dynamic>, answers: Answers, ran: nat, j: nat)
    requires j < |fns| - 1
    ensures DynamicOp(p, s, defaults, fns, answers, ran, j)
            == DynamicOp(p, s, defaults, fns[..|fns| - 1], answers, ran, j)
  {
    assert fns[..|fns| - 1][..j] == fns[..j];
  }

  /** Whether the last resolver runs, and what it finds when it does. */
  lemma BeforeLastDynamic(p: Platform, s: Settings, defaults: seq<Op>, fns: seq<Dynamic>, answers: Answers, ran: nat)
    requires DistinctOps(p, defaults) && DistinctDynamics(p, fns) && fns != []
    ensures var front, name := fns[..|fns| - 1], fns[|fns| - 1].name;
            var (filled, log) := FillDynamic(p, FillStatic(p, s, defaults), front, answers, ran);
            && log == WantedRuns(p, s, defaults, front)
            && LastOp(p, filled.ops, name) == SettledOp(p, s, defaults, name)
            && (HasEnvOverride(p, filled, name) <==> !Wanted(p, s, defaults, name))
  {
    var front, last := fns[..|fns| - 1], fns[|fns| - 1];
    DistinctFront(p, fns);
    DynamicRuns(p, s, defaults, front, answers, ran, last.name);
    OverrideMeans(p, FillDynamic(p, FillStatic(p, s, defaults), front, answers, ran).0, last.name);
  }

  /** The last resolver decides its own variable. */
  lemma LastDynamicDecides(p: Platform, s: Settings, defaults: seq<Op>, fns: seq<Dynamic>, answers: Answers, ran: nat)
    requires DistinctOps(p, defaults) && DistinctDynamics(p, fns) && fns != []
    ensures LastOp(p, FillDynamic(p, FillStatic(p, s, defaults), fns, answers, ran).0.ops, fns[|fns| - 1].name)
            == DynamicOp(p, s, defaults, fns, answers, ran, |fns| - 1)
  {
    BeforeLastDynamic(p, s, defaults, fns, answers, ran);
    DynamicStep(p, FillStatic(p, s, defaults), fns, answers, ran, fns[|fns| - 1].name);
  }

  lemma {:induction false} DynamicDecides(p: Platform, s: Settings, defaults: seq<Op>, fns: seq<Dynamic>,
                                          answers: Answers, ran: nat, j: nat)
    requires DistinctOps(p, defaults) && DistinctDynamics(p, fns) && j < |fns|
    ensures LastOp(p, FillDynamic(p, FillStatic(p, s, defaults), fns, answers, ran).0.ops, fns[j].name)
            == DynamicOp(p, s, defaults, fns, answers, ran, j)
    decreases |fns|
  {
    if j == |fns| - 1 {
      LastDynamicDecides(p, s, defaults, fns, answers, ran);
    } else {
      var front := fns[..|fns| - 1];
      DistinctFront(p, fns);
      DynamicDecides(p, s, defaults, front, answers, ran, j);
      DynamicOpFront(p, s, defaults, fns, answers, ran, j);
      EarlierDynamicStands(p, FillStatic(p, s, defaults), fns, answers, ran, j);
    }
  }

  /** Every key the client could fill is under control afterwards. */
  lemma {:induction false} StaticCovers(p: Platform, s: Settings, defaults: seq<Op>, i: nat)
    requires i < |defaults|
    ensures HasEnvOverride(p, FillStatic(p, s, defaults), defaults[i].name)
    decreases |defaults|
  {
    var front, last := defaults[..|defaults| - 1], defaults[|defaults| - 1];
    var filled, all := FillStatic(p, s, front), FillStatic(p, s, defaults);
    if i < |front| {
      StaticCovers(p, s, front, i);
      OverridesGrow(p, filled, all, front[i].name);
    } else if all != filled {
      assert KeyEq(p, all.ops[|filled.ops|].name, last.name);
    }
  }

  lemma OverridesGrow(p: Platform, a: Settings, b: Settings, name: Name)
    requires a.ops <= b.ops && b.clear == a.clear && b.inherit == a.inherit && HasEnvOverride(p, a, name)
    ensures HasEnvOverride(p, b, name)
  {
  }

  lemma {:induction false} DynamicGrows(p: Platform, s: Settings, fns: seq<Dynamic>, answers: Answers, ran: nat)
    ensures var filled := FillDynamic(p, s, fns, answers, ran).0;
            s.ops <= filled.ops && filled == s.(ops := filled.ops)
    decreases |fns|
  {
    if fns != [] {
      DynamicGrows(p, s, fns[..|fns| - 1], answers, ran);
    }
  }

  lemma {:induction false} DynamicCovers(p: Platform, s: Settings, fns: seq<Dynamic>, answers: Answers, ran: nat, j: nat)
    requires j < |fns|
    ensures HasEnvOverride(p, FillDynamic(p, s, fns, answers, ran).0, fns[j].name)
    decreases |fns|
  {
    var front, last := fns[..|fns| - 1], fns[|fns| - 1];
    var filled, all := FillDynamic(p, s, front, answers, ran).0, FillDynamic(p, s, fns, answers, ran).0;
    if j < |front| {
      DynamicCovers(p, s, front, answers, ran, j);
      OverridesGrow(p, filled, all, front[j].name);
    } else if all != filled {
      assert KeyEq(p, all.ops[|filled.ops|].name, last.name);
    }
  }

  /** With every key under control there is nothing left to fill and no resolver to run. */
  lemma {:induction false} NothingToFill(p: Platform, s: Settings, defaults: seq<Op>, fns: seq<Dynamic>,
                                         answers: Answers, ran: nat)
    requires forall i :: 0 <= i < |defaults| ==> HasEnvOverride(p, s, defaults[i].name)
    requires forall j :: 0 <= j < |fns| ==> HasEnvOverride(p, s, fns[j].name)
    ensures FillStatic(p, s, defaults) == s && FillDynamic(p, s, fns, answers, ran) == (s, [])
    decreases |defaults| + |fns|
  {
    if defaults != [] {
      NothingToFill(p, s, defaults[..|defaults| - 1], [], answers, ran);
    }
    if fns != [] {
      NothingToFill(p, s, [], fns[..|fns| - 1], answers, ran);
    }
  }

  /** Where the resolver for `name` is registered. */
  function ResolverIndex(p: Platform, fns: seq<Dynamic>, name: Name): (r: Option<nat>)
    ensures r.Some? ==> r.value < |fns| && KeyEq(p, fns[r.value].name, name)
  {
    if fns == [] then None
    else if KeyEq(p, fns[|fns| - 1].name, name) then Some(|fns| - 1)
    else ResolverIndex(p, fns[..|fns| - 1], name)
  }

  lemma {:induction false} NoResolver(p: Platform, fns: seq<Dynamic>, name: Name)
    requires ResolverIndex(p, fns, name).None?
    ensures forall j :: 0 <= j < |fns| ==> !KeyEq(p, fns[j].name, name)
    decreases |fns|
  {
    if fns != [] {
      NoResolver(p, fns[..|fns| - 1], name);
      assert forall j :: 0 <= j < |fns| - 1 ==> fns[..|fns| - 1][j] == fns[j];
    }
  }

  /** Applying the defaults again changes nothing and runs no resolver, whatever it would answer. */
  lemma ApplyTwice(p: Platform, d: Defaults, s: Settings, answers: Answers, ran: nat, answers': Answers, ran': nat)
    ensures var once := Applied(p, d, s, answers, ran).0;
            Applied(p, d, once, answers', ran') == (once, [])
  {
    var start := FillLimits(s, d);
    var filled := FillStatic(p, start, d.envs);
    var once := Applied(p, d, s, answers, ran).0;
    DynamicGrows(p, filled, d.envFns, answers, ran);
    StaticKeepsScalars(p, start, d.envs);
    assert FillLimits(once, d) == once && FillRetry(once, d) == once;
    forall i | 0 <= i < |d.envs|
      ensures HasEnvOverride(p, once, d.envs[i].name)
    {
      StaticCovers(p, start, d.envs, i);
      OverridesGrow(p, filled, once, d.envs[i].name);
    }
    forall j | 0 <= j < |d.envFns|
      ensures HasEnvOverride(p, once, d.envFns[j].name)
    {
      DynamicCovers(p, filled, d.envFns, answers, ran, j);
      OverridesGrow(p, FillDynamic(p, filled, d.envFns, answers, ran).0, once, d.envFns[j].name);
    }
    NothingToFill(p, once, d.envs, d.envFns, answers', ran');
  }

  /**
    After the defaults, every variable is decided by the command's own last operation, else its
    isolation, else the static default, else its resolver; and the resolvers that ran are
    exactly those whose value is used.
  */
  lemma AppliedPrecedence(p: Platform, d: Defaults, s: Settings, answers: Answers, ran: nat, name: Name)
    requires Proper(p, d)
    ensures Applied(p, d, s, answers, ran).1 == WantedRuns(p, s, d.envs, d.envFns)
    ensures var ops := Applied(p, d, s, answers, ran).0.ops;
            LastOp(p, ops, name) ==
            match ResolverIndex(p, d.envFns, name)
            case Some(j) => DynamicOp(p, s, d.envs, d.envFns, answers, ran, j)
            case None => SettledOp(p, s, d.envs, name)
  {
    var start := FillLimits(s, d);
    DynamicRuns(p, start, d.envs, d.envFns, answers, ran, name);
    SameEnvironment(p, start, s, d.envs, d.envFns);
    match ResolverIndex(p, d.envFns, name)
    case None =>
      NoResolver(p, d.envFns, name);
      SameSettled(p, start, s, d.envs, name);
    case Some(j) =>
      DynamicDecides(p, start, d.envs, d.envFns, answers, ran, j);
      SameDynamicOp(p, start, s, d.envs, d.envFns, answers, ran, j);
      LastOpKeyEq(p, Applied(p, d, s, answers, ran).0.ops, d.envFns[j].name, name);
  }

  /** Only gaps are filled: field by field, what the command set stays. */
  lemma AppliedFields(p: Platform, d: Defaults, s: Settings, answers: Answers, ran: nat)
    ensures var r := Applied(p, d, s, answers, ran).0;
            && (s.timeout != Unset ==> r.timeout == s.timeout)
            && (s.timeout == Unset && d.timeout.Some? ==> r.timeout == After(d.timeout.value))
            && (s.timeout == Unset && d.timeout.None? ==> r.timeout == Unset)
            && (s.cancel.Some? ==> r.cancel == s.cancel) && (s.cancel.None? ==> r.cancel == d.cancel)
            && (s.retry.Some? ==> r.retry == s.retry) && (s.retry.None? ==> r.retry == d.retry)
            && r.clear == s.clear && r.inherit == s.inherit && s.ops <= r.ops
  {
    var start := FillLimits(s, d);
    StaticKeepsScalars(p, start, d.envs);
    StaticGrows(p, start, d.envs);
    DynamicGrows(p, FillStatic(p, start, d.envs), d.envFns, answers, ran);
  }

  lemma {:induction false} StaticGrows(p: Platform, s: Settings, defaults: seq<Op>)
    ensures s.ops <= FillStatic(p, s, defaults).ops
    decreases |defaults|
  {
    if defaults != [] {
      StaticGrows(p, s, defaults[..|defaults| - 1]);
    }
  }

  /**
    Who decides `name`, first match first: the command's own last operation; nobody, if the
    command cleared everything or inherits it; the client's static default; its resolver's value,
    if it has one; nobody.
  */
  lemma DecidedBy(p: Platform, d: Defaults, s: Settings, answers: Answers, ran: nat, name: Name)
    requires Proper(p, d)
    ensures var decided := LastOp(p, Applied(p, d, s, answers, ran).0.ops, name);
            if LastOp(p, s.ops, name).Some? then decided == LastOp(p, s.ops, name)
            else if s.clear then decided == None
            else if s.inherit.Some? && exists i :: 0 <= i < |s.inherit.value| && KeyEq(p, s.inherit.value[i], name)
            then decided == None
            else if LastOp(p, d.envs, name).Some? then decided == LastOp(p, d.envs, name)
            else if ResolverFor(p, d.envFns, name).Some? then
              exists n :: decided == Some(Some(answers(ResolverFor(p, d.envFns, name).value, n)))
            else decided == None
  {
    AppliedPrecedence(p, d, s, answers, ran, name);
    ResolverForIs(p, d.envFns, name);
    if ResolverIndex(p, d.envFns, name).Some? {
      var j := ResolverIndex(p, d.envFns, name).value;
      LastOpKeyEq(p, s.ops, d.envFns[j].name, name);
      LastOpKeyEq(p, d.envs, d.envFns[j].name, name);
      IsolatedKeyEq(p, s, d.envFns[j].name, name);
    }
  }

  lemma {:induction false} ResolverForIs(p: Platform, fns: seq<Dynamic>, name: Name)
    ensures ResolverFor(p, fns, name).Some? <==> ResolverIndex(p, fns, name).Some?
    ensures ResolverIndex(p, fns, name).Some? ==>
              ResolverFor(p, fns, name) == Some(fns[ResolverIndex(p, fns, name).value].resolver)
    decreases |fns|
  {
    if fns != [] {
      ResolverForIs(p, fns[..|fns| - 1], name);
    }
  }

  lemma SameDynamicOp(p: Platform, a: Settings, b: Settings, defaults: seq<Op>, fns: seq<Dynamic>, answers: Answers,
                      ran: nat, j: nat)
    requires a.ops == b.ops && a.clear == b.clear && a.inherit == b.inherit && j < |fns|
    ensures DynamicOp(p, a, defaults, fns, answers, ran, j) == DynamicOp(p, b, defaults, fns, answers, ran, j)
  {
    SameEnvironment(p, a, b, defaults, fns[..j]);
    SameSettled(p, a, b, defaults, fns[j].name);
  }

  lemma SameSettled(p: Platform, a: Settings, b: Settings, defaults: seq<Op>, name: Name)
    requires a.ops == b.ops && a.clear == b.clear && a.inherit == b.inherit
    ensures SettledOp(p, a, defaults, name) == SettledOp(p, b, defaults, name)
    ensures Wanted(p, a, defaults, name) <==> Wanted(p, b, defaults, name)
  {
  }

  lemma {:induction false} SameEnvironment(p: Platform, a: Settings, b: Settings, defaults: seq<Op>, fns: seq<Dynamic>)
    requires a.ops == b.ops && a.clear == b.clear && a.inherit == b.inherit
    ensures WantedRuns(p, a, defaults, fns) == WantedRuns(p, b, defaults, fns)
    decreases |fns|
  {
    if fns != [] {
      SameEnvironment(p, a, b, defaults, fns[..|fns| - 1]);
    }
  }

  lemma {:induction false} StaticKeepsScalars(p: Platform, s: Settings, defaults: seq<Op>)
    ensures FillStatic(p, s, defaults) == s.(ops := FillStatic(p, s, defaults).ops)
    decreases |defaults|
  {
    if defaults != [] {
      StaticKeepsScalars(p, s, defaults[..|defaults| - 1]);
    }
  }

  // ---------------------------------------------------------------------------------------
  // The code

  class Command {
    var settings: Settings

    constructor (settings: Settings)
      ensures this.settings == settings
    {
      this.settings := settings;
    }

    /** Command::env / env_remove. */
    method SetEnv(name: Name, value: Option<Bytes>)
      modifies this
      ensures settings == old(settings).(ops := old(settings).ops + [Op(name, value)])
    {
      settings := settings.(ops := settings.ops + [Op(name, value)]);
    }
  }

  /** Where resolvers run; `log` is every run so far, in order. */
  class Resolvers {
    const answers: Answers
    var log: seq<nat>

    constructor (answers: Answers)
      ensures this.answers == answers && log == []
    {
      this.answers := answers;
      log := [];
    }

    method Run(resolver: nat) returns (value: Bytes)
      modifies this
      ensures log == old(log) + [resolver] && value == answers(resolver, |old(log)|)
    {
      value := answers(resolver, |log|);
      log := log + [resolver];
    }
  }

  /** Dropping the operations on one key (Vec::retain). */
  function WithoutOps(p: Platform, ops: seq<Op>, name: Name): seq<Op> {
    if ops == [] then []
    else
      var last := ops[|ops| - 1];
      WithoutOps(p, ops[..|ops| - 1], name) + if KeyEq(p, last.name, name) then [] else [last]
  }

  lemma {:induction false} WithoutOpsDrops(p: Platform, ops: seq<Op>, name: Name, other: Name)
    ensures LastOp(p, WithoutOps(p, ops, name), other) == if KeyEq(p, name, other) then None else LastOp(p, ops, other)
    decreases |ops|
  {
    if ops != [] {
      var front, last := ops[..|ops| - 1], ops[|ops| - 1];
      WithoutOpsDrops(p, front, name, other);
      if !KeyEq(p, last.name, name) {
        var kept := WithoutOps(p, front, name);
        assert (kept + [last])[..|kept|] == kept;
      } else {
        assert WithoutOps(p, ops, name) == WithoutOps(p, front, name);
      }
    }
  }

  lemma {:induction false} WithoutOpsDistinct(p: Platform, ops: seq<Op>, name: Name)
    requires DistinctOps(p, ops)
    ensures DistinctOps(p, WithoutOps(p, ops, name))
    ensures forall o :: o in WithoutOps(p, ops, name) ==> o in ops && !KeyEq(p, o.name, name)
    decreases |ops|
  {
    if ops != [] {
      var front, last := ops[..|ops| - 1], ops[|ops| - 1];
      WithoutOpsDistinct(p, front, name);
      var kept := WithoutOps(p, front, name);
      forall i | 0 <= i < |kept|
        ensures !KeyEq(p, kept[i].name, last.name)
      {
        assert kept[i] in front;
      }
    }
  }

  /** The resolver registered last for `name`, if any. */
  function ResolverFor(p: Platform, fns: seq<Dynamic>, name: Name): Option<nat> {
    if fns == [] then None
    else if KeyEq(p, fns[|fns| - 1].name, name) then Some(fns[|fns| - 1].resolver)
    else ResolverFor(p, fns[..|fns| - 1], name)
  }

  function WithoutDynamics(p: Platform, fns: seq<Dynamic>, name: Name): seq<Dynamic> {
    if fns == [] then []
    else
      var last := fns[|fns| - 1];
      WithoutDynamics(p, fns[..|fns| - 1], name) + if KeyEq(p, last.name, name) then [] else [last]
  }

  lemma {:induction false} WithoutDynamicsDrops(p: Platform, fns: seq<Dynamic>, name: Name, other: Name)
    ensures ResolverFor(p, WithoutDynamics(p, fns, name), other) ==
            if KeyEq(p, name, other) then None else ResolverFor(p, fns, other)
    decreases |fns|
  {
    if fns != [] {
      var front, last := fns[..|fns| - 1], fns[|fns| - 1];
      WithoutDynamicsDrops(p, front, name, other);
      if !KeyEq(p, last.name, name) {
        var kept := WithoutDynamics(p, front, name);
        assert (kept + [last])[..|kept|] == kept;
      } else {
        assert WithoutDynamics(p, fns, name) == WithoutDynamics(p, front, name);
      }
    }
  }

  lemma {:induction false} WithoutDynamicsDistinct(p: Platform, fns: seq<Dynamic>, name: Name)
    requires DistinctDynamics(p, fns)
    ensures DistinctDynamics(p, WithoutDynamics(p, fns, name))
    ensures forall d :: d in WithoutDynamics(p, fns, name) ==> d in fns && !KeyEq(p, d.name, name)
    decreases |fns|
  {
    if fns != [] {
      var front, last := fns[..|fns| - 1], fns[|fns| - 1];
      WithoutDynamicsDistinct(p, front, name);
      var kept := WithoutDynamics(p, front, name);
      forall i | 0 <= i < |kept|
        ensures !KeyEq(p, kept[i].name, last.name)
      {
        assert kept[i] in front;
      }
    }
  }

  class CliClient {
    const platform: Platform
    var timeout: Option<nat>
    var envs: seq<Op>
    var envFns: seq<Dynamic>
    var cancel: Option<nat>
    var retry: Option<nat>

    ghost predicate Valid()
      reads this
    {
      DistinctOps(platform, envs) && DistinctDynamics(platform, envFns)
    }

    constructor (platform: Platform)
      ensures Valid() && this.platform == platform
      ensures envs == [] && envFns == [] && timeout == None && cancel == None && retry == None
    {
      this.platform := platform;
      timeout, envs, envFns, cancel, retry := None, [], [], None, None;
    }

    /** default_env (Some) and default_env_remove (None): the last registration of a key wins. */
    method DefaultEnv(name: Name, value: Option<Bytes>)
      requires Valid()
      modifies `envs
      ensures Valid()
      ensures forall other :: LastOp(platform, envs, other) ==
                if KeyEq(platform, name, other) then Some(value) else LastOp(platform, old(envs), other)
    {
      ghost var before := envs;
      WithoutOpsDistinct(platform, envs, name);
      envs := WithoutOps(platform, envs, name);
      ghost var kept := envs;
      envs := envs + [Op(name, value)];
      assert envs[..|kept|] == kept;
      forall other
        ensures LastOp(platform, envs, other) ==
                if KeyEq(platform, name, other) then Some(value) else LastOp(platform, before, other)
      {
        WithoutOpsDrops(platform, before, name, other);
      }
    }

    /** default_env_fn: the last registration of a key wins, among resolvers. */
    method DefaultEnvFn(name: Name, resolver: nat)
      requires Valid()
      modifies `envFns
      ensures Valid()
      ensures forall other :: ResolverFor(platform, envFns, other) ==
                if KeyEq(platform, name, other) then Some(resolver) else ResolverFor(platform, old(envFns), other)
    {
      ghost var before := envFns;
      WithoutDynamicsDistinct(platform, envFns, name);
      envFns := WithoutDynamics(platform, envFns, name);
      ghost var kept := envFns;
      envFns := envFns + [Dynamic(name, resolver)];
      assert envFns[..|kept|] == kept;
      forall other
        ensures ResolverFor(platform, envFns, other) ==
                if KeyEq(platform, name, other) then Some(resolver) else ResolverFor(platform, before, other)
      {
        WithoutDynamicsDrops(platform, before, name, other);
      }
    }

    ghost function Registered(): Defaults
      reads this
    {
      Defaults(timeout, envs, envFns, cancel, retry)
    }

    /** fill_default_envs: push each static default whose key the command does not control. */
    method FillDefaultEnvs(command: Command)
      modifies command
      ensures command.settings == FillStatic(platform, old(command.settings), envs)
    {
      var i := 0;
      while i < |envs|
        invariant 0 <= i <= |envs|
        invariant command.settings == FillStatic(platform, old(command.settings), envs[..i])
      {
        assert envs[..i + 1][..i] == envs[..i];
        if !HasEnvOverride(platform, command.settings, envs[i].name) {
          command.SetEnv(envs[i].name, envs[i].value);
        }
        i := i + 1;
      }
      assert envs[..i] == envs;
    }

    /** The resolvers, each only where the key is still absent. */
    method FillEnvFns(command: Command, resolvers: Resolvers)
      modifies command, resolvers
      ensures var (filled, log) :=
                FillDynamic(platform, old(command.settings), envFns, resolvers.answers, |old(resolvers.log)|);
              command.settings == filled && resolvers.log == old(resolvers.log) + log
    {
      ghost var ran := |resolvers.log|;
      var i := 0;
      while i < |envFns|
        invariant 0 <= i <= |envFns|
        invariant command.settings
                  == FillDynamic(platform, old(command.settings), envFns[..i], resolvers.answers, ran).0
        invariant resolvers.log == old(resolvers.log)
                  + FillDynamic(platform, old(command.settings), envFns[..i], resolvers.answers, ran).1
      {
        FillDynamicTake(platform, old(command.settings), envFns, resolvers.answers, ran, i);
        if !HasEnvOverride(platform, command.settings, envFns[i].name) {
          var value := resolvers.Run(envFns[i].resolver);
          command.SetEnv(envFns[i].name, Some(value));
        }
        i := i + 1;
      }
      assert envFns[..i] == envFns;
    }

    /** apply_defaults. */
    method ApplyDefaults(command: Command, resolvers: Resolvers)
      modifies command, resolvers
      ensures var (filled, log) :=
                Applied(platform, Registered(), old(command.settings), resolvers.answers, |old(resolvers.log)|);
              command.settings == filled && resolvers.log == old(resolvers.log) + log
    {
      if command.settings.timeout.Unset? && timeout.Some? {
        command.settings := command.settings.(timeout := After(timeout.value));
      }
      if command.settings.cancel.None? && cancel.Some? {
        command.settings := command.settings.(cancel := cancel);
      }
      ghost var start := command.settings;
      FillDefaultEnvs(command);
      FillEnvFns(command, resolvers);
      if command.settings.retry.None? {
        command.settings := command.settings.(retry := retry);
      }
    }
  }
}
