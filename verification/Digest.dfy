/**
  The opt-in match-policy digest: FNV-1a over a delimiter-based serialization in which no field
  carries its length.  The module writes the serialization as the source streams it into the
  hasher, and a decoder that recovers every field from the bytes alone.
*/
module Digest {
  import opened Wrappers

  /** A 64-bit hasher: a seed and a way to mix one byte in.  No proof looks inside. */
  datatype Hash = Hash(seed: bv64, mix: (bv64, Byte) -> bv64)

  /** The one the program uses: FNV-1a. */
  const FNV1A := Hash(0xcbf2_9ce4_8422_2325, (h: bv64, b: Byte) => (h ^ (b as bv64)) * 0x0000_0100_0000_01b3)

  function Mixed(hash: Hash, h: bv64, bytes: Bytes): bv64
    decreases |bytes|
  {
    if bytes == [] then h else Mixed(hash, hash.mix(h, bytes[0]), bytes[1..])
  }

  /** Mixing piece by piece is mixing the concatenation. */
  lemma {:induction false} MixedAppend(hash: Hash, h: bv64, a: Bytes, b: Bytes)
    ensures Mixed(hash, h, a + b) == Mixed(hash, Mixed(hash, h, a), b)
    decreases |a|
  {
    if a == [] {
      assert a + b == b;
    } else {
      assert (a + b)[1..] == a[1..] + b;
      MixedAppend(hash, hash.mix(h, a[0]), a[1..], b);
    }
  }

  class Hasher {
    const hash: Hash
    var state: bv64
    ghost var fed: Bytes

    ghost predicate Valid()
      reads this
    {
      state == Mixed(hash, hash.seed, fed)
    }

    constructor (hash: Hash)
      ensures Valid() && fed == [] && this.hash == hash
    {
      this.hash := hash;
      state, fed := hash.seed, [];
    }

    method Mix(bytes: Bytes)
      requires Valid()
      modifies this
      ensures Valid() && fed == old(fed) + bytes
    {
      MixedAppend(hash, hash.seed, fed, bytes);
      var i := 0;
      while i < |bytes|
        invariant 0 <= i <= |bytes|
        invariant Mixed(hash, state, bytes[i..]) == Mixed(hash, old(state), bytes)
        invariant fed == old(fed)
      {
        assert bytes[i..][1..] == bytes[i + 1..];
        state := hash.mix(state, bytes[i]);
        i := i + 1;
      }
      fed := fed + bytes;
    }

    method Finish() returns (digest: bv64)
      requires Valid()
      ensures digest == Mixed(hash, hash.seed, fed)
    {
      digest := state;
    }
  }

  // ---------------------------------------------------------------------------------------
  // The serialization

  const NUL: Byte := 0
  const CWD_WORD: Bytes := [0x63, 0x77, 0x64]
  const ENV_WORD: Bytes := [0x65, 0x6e, 0x76]
  const CWD_TAG: Bytes := CWD_WORD + [NUL]
  const ENV_TAG: Bytes := ENV_WORD + [NUL]

  /** What the command does to one selected variable. */
  datatype Effect = Untouched | Removed | Set(value: Bytes)

  datatype Selected = Selected(name: Bytes, effect: Effect)

  /** What the policy looks at: the working directory (if keyed) and the selected variables. */
  datatype Shape = Shape(matchCwd: bool, cwd: Option<Bytes>, envs: seq<Selected>)

  function CwdField(cwd: Option<Bytes>): Bytes {
    match cwd
    case Some(dir) => [1] + dir
    case None => [0]
  }

  function EffectField(e: Effect): Bytes {
    match e
    case Set(value) => [1] + value
    case Removed => [2]
    case Untouched => [0]
  }

  function EnvFields(envs: seq<Selected>): Bytes {
    if envs == [] then []
    else EnvField(envs[0]) + EnvFields(envs[1..])
  }

  /** Every byte the hasher is fed, in order; None when the policy is empty. */
  function Stream(s: Shape): Option<Bytes> {
    if !s.matchCwd && s.envs == [] then None
    else Some((if s.matchCwd then CWD_TAG + CwdField(s.cwd) else []) + EnvFields(s.envs))
  }

  /** One variable's fields. */
  function EnvField(e: Selected): Bytes {
    ENV_TAG + e.name + [NUL] + EffectField(e.effect)
  }

  /** The bytes in order, field by field; committed cassettes hold digests of exactly these. */
  lemma StreamLayout(cwd: Option<Bytes>, envs: seq<Selected>, e: Selected)
    ensures exists tag, env ::
              && Spells(tag, "cwd") && Spells(env, "env")
              && Stream(Shape(false, None, [])) == None
              && Stream(Shape(true, cwd, [])) == Some(tag + [0] + if cwd.Some? then [1] + cwd.value else [0])
              && Stream(Shape(true, cwd, envs)) == Some(Stream(Shape(true, cwd, [])).value + EnvFields(envs))
              && Stream(Shape(false, None, [e] + envs)) == Some(EnvFields([e] + envs))
              && EnvFields([e] + envs) == env + [0] + e.name + [0] + (
                   match e.effect case Set(value) => [1] + value case Removed => [2] case Untouched => [0]
                 ) + EnvFields(envs)
  {
    assert Spells(CWD_WORD, "cwd") && Spells(ENV_WORD, "env");
    assert ([e] + envs)[1..] == envs;
    assert CWD_TAG + CwdField(cwd) + [] == CWD_TAG + CwdField(cwd);
    assert EnvFields([]) == [];
    assert [] + EnvFields([e] + envs) == EnvFields([e] + envs);
  }

  /** FNV-1a: the published offset basis and prime. */
  lemma FnvConstants()
    ensures FNV1A.seed == 0xcbf2_9ce4_8422_2325 && FNV1A.mix(0, 1) == 0x0000_0100_0000_01b3
  {
  }

  /** The exclusive or comes before the product. */
  lemma FnvOrder()
    ensures FNV1A.mix(1, 1) == 0
  {
  }

  method MixCwd(h: Hasher, cwd: Option<Bytes>)
    requires h.Valid()
    modifies h
    ensures h.Valid() && h.fed == old(h.fed) + CWD_TAG + CwdField(cwd)
  {
    h.Mix(CWD_TAG);
    match cwd {
      case Some(dir) =>
        h.Mix([1]);
        h.Mix(dir);
      case None =>
        h.Mix([0]);
    }
  }

  lemma EnvFieldParts(fed: Bytes, e: Selected)
    ensures fed + ENV_TAG + e.name + [NUL] + EffectField(e.effect) == fed + EnvField(e)
  {
  }

  method MixEffect(h: Hasher, e: Effect)
    requires h.Valid()
    modifies h
    ensures h.Valid() && h.fed == old(h.fed) + EffectField(e)
  {
    match e {
      case Set(value) =>
        h.Mix([1]);
        h.Mix(value);
      case Removed =>
        h.Mix([2]);
      case Untouched =>
        h.Mix([0]);
    }
  }

  method MixEnv(h: Hasher, e: Selected)
    requires h.Valid()
    modifies h
    ensures h.Valid() && h.fed == old(h.fed) + EnvField(e)
  {
    h.Mix(ENV_TAG);
    h.Mix(e.name);
    h.Mix([NUL]);
    MixEffect(h, e.effect);
    EnvFieldParts(old(h.fed), e);
  }

  lemma EnvFieldsStep(fed: Bytes, envs: seq<Selected>, i: nat)
    requires i < |envs|
    ensures fed + EnvFields(envs[i..]) == fed + EnvField(envs[i]) + EnvFields(envs[i + 1..])
  {
  }

  method MixEnvs(h: Hasher, envs: seq<Selected>)
    requires h.Valid()
    modifies h
    ensures h.Valid() && h.fed == old(h.fed) + EnvFields(envs)
  {
    var i := 0;
    while i < |envs|
      invariant 0 <= i <= |envs|
      invariant h.Valid() && h.fed + EnvFields(envs[i..]) == old(h.fed) + EnvFields(envs)
    {
      EnvFieldsStep(h.fed, envs, i);
      MixEnv(h, envs[i]);
      i := i + 1;
    }
  }

  /** digest_of: each field is streamed into the hasher as it comes. */
  method DigestOf(hash: Hash, s: Shape) returns (digest: Option<bv64>)
    ensures digest == Digested(hash, s)
  {
    if !s.matchCwd && s.envs == [] {
      return None;
    }
    var h := new Hasher(hash);
    if s.matchCwd {
      MixCwd(h, s.cwd);
    }
    MixEnvs(h, s.envs);
    assert h.fed == Stream(s).value;
    var sum := h.Finish();
    digest := Some(sum);
  }

  function Digested(hash: Hash, s: Shape): Option<bv64> {
    match Stream(s)
    case None => None
    case Some(bytes) => Some(Mixed(hash, hash.seed, bytes))
  }

  // ---------------------------------------------------------------------------------------
  // The decoder

  /** Bytes before the first NUL, or all of them. */
  function ToNul(b: Bytes): (n: nat)
    ensures n <= |b|
    ensures forall k :: 0 <= k < n ==> b[k] != NUL
    ensures n < |b| ==> b[n] == NUL
  {
    if b == [] || b[0] == NUL then 0 else 1 + ToNul(b[1..])
  }

  /**
    A value runs to the end of the stream, or to the `env` just before the next NUL.  Returns
    the value and what follows it.
  */
  function TakeValue(b: Bytes): (Bytes, Bytes) {
    var n := ToNul(b);
    if n == |b| then (b, [])
    else if n < 3 then (b[..n], b[n..])
    else (b[..n - 3], b[n - 3..])
  }

  function TakeEffect(b: Bytes): (Effect, Bytes)
    requires b != []
  {
    if b[0] == 1 then
      var (value, next) := TakeValue(b[1..]);
      (Set(value), next)
    else (if b[0] == 2 then Removed else Untouched, b[1..])
  }

  /** Reads `env NUL name NUL effect`. */
  function TakeEnv(b: Bytes): (r: Option<(Selected, Bytes)>)
    ensures r.Some? ==> |r.value.1| < |b|
  {
    if |b| <= |ENV_TAG| then None
    else
      var named := b[|ENV_TAG|..];
      var n := ToNul(named);
      if n + 1 >= |named| then None
      else
        var (effect, next) := TakeEffect(named[n + 1..]);
        Some((Selected(named[..n], effect), next))
  }

  function DecodeEnvs(b: Bytes): seq<Selected>
    decreases |b|
  {
    match TakeEnv(b)
    case None => []
    case Some((env, next)) => [env] + DecodeEnvs(next)
  }

  function TakeCwd(b: Bytes): (Option<Bytes>, Bytes)
    requires b != []
  {
    if b[0] == 1 then
      var (dir, next) := TakeValue(b[1..]);
      (Some(dir), next)
    else (None, b[1..])
  }

  function Decode(stream: Option<Bytes>): Shape {
    match stream
    case None => Shape(false, None, [])
    case Some(b) =>
      if CWD_TAG < b then
        var (cwd, next) := TakeCwd(b[|CWD_TAG|..]);
        Shape(true, cwd, DecodeEnvs(next))
      else Shape(false, None, DecodeEnvs(b))
  }

  predicate NulFree(b: Bytes) {
    forall k :: 0 <= k < |b| ==> b[k] != NUL
  }

  predicate CleanEnv(e: Selected) {
    NulFree(e.name) && (e.effect.Set? ==> NulFree(e.effect.value))
  }

  predicate Clean(s: Shape) {
    && (s.cwd.Some? ==> NulFree(s.cwd.value))
    && (forall k :: 0 <= k < |s.envs| ==> CleanEnv(s.envs[k]))
    && (!s.matchCwd ==> s.cwd.None?)
  }

  lemma ToNulOf(a: Bytes, b: Bytes)
    requires NulFree(a)
    ensures b == [] ==> ToNul(a + b) == |a|
    ensures b != [] && b[0] == NUL ==> ToNul(a + b) == |a|
  {
    var n := ToNul(a + b);
    assert forall k :: 0 <= k < |a| ==> (a + b)[k] == a[k];
    assert b != [] ==> (a + b)[|a|] == b[0];
  }

  /** What may follow a value: the end, or the next variable's tag. */
  predicate Boundary(next: Bytes) {
    next == [] || ENV_TAG <= next
  }

  lemma EnvFieldsBoundary(envs: seq<Selected>)
    ensures Boundary(EnvFields(envs))
  {
  }

  lemma TakeValueOf(value: Bytes, next: Bytes)
    requires NulFree(value) && Boundary(next)
    ensures TakeValue(value + next) == (value, next)
  {
    var b := value + next;
    if next == [] {
      ToNulOf(value, []);
      assert value + [] == value;
      assert b == value;
    } else {
      assert next == ENV_WORD + next[3..];
      assert b == (value + ENV_WORD) + next[3..];
      ToNulOf(value + ENV_WORD, next[3..]);
      assert b[..|value|] == value && b[|value|..] == next;
    }
  }

  lemma TakeEnvOf(e: Selected, next: Bytes)
    requires CleanEnv(e) && Boundary(next)
    ensures TakeEnv(EnvField(e) + next) == Some((e, next))
  {
    var rest := EffectField(e.effect) + next;
    assert EnvField(e) + next == ENV_TAG + (e.name + ([NUL] + rest));
    SplitTag(e.name + ([NUL] + rest));
    SplitName(e.name, rest);
    TakeEffectOf(e.effect, next);
  }

  lemma SplitTag(named: Bytes)
    ensures |ENV_TAG + named| == |ENV_TAG| + |named| && (ENV_TAG + named)[|ENV_TAG|..] == named
  {
  }

  lemma SplitName(name: Bytes, rest: Bytes)
    requires NulFree(name)
    ensures var named := name + ([NUL] + rest);
      |named| == |name| + 1 + |rest| && ToNul(named) == |name| && named[..|name|] == name && named[|name| + 1..] == rest
  {
    ToNulOf(name, [NUL] + rest);
  }

  lemma TakeEffectOf(e: Effect, next: Bytes)
    requires (e.Set? ==> NulFree(e.value)) && Boundary(next)
    ensures TakeEffect(EffectField(e) + next) == (e, next)
  {
    var b := EffectField(e) + next;
    if e.Set? {
      assert b[1..] == e.value + next;
      TakeValueOf(e.value, next);
    } else {
      assert b[1..] == next;
    }
  }

  lemma {:induction false} DecodeEnvsOf(envs: seq<Selected>)
    requires forall k :: 0 <= k < |envs| ==> CleanEnv(envs[k])
    ensures DecodeEnvs(EnvFields(envs)) == envs
    decreases |envs|
  {
    if envs != [] {
      EnvFieldsBoundary(envs[1..]);
      TakeEnvOf(envs[0], EnvFields(envs[1..]));
      DecodeEnvsOf(envs[1..]);
      assert [envs[0]] + envs[1..] == envs;
    }
  }

  lemma TakeCwdOf(cwd: Option<Bytes>, next: Bytes)
    requires (cwd.Some? ==> NulFree(cwd.value)) && Boundary(next)
    ensures TakeCwd(CwdField(cwd) + next) == (cwd, next)
  {
    var b := CwdField(cwd) + next;
    if cwd.Some? {
      assert b[1..] == cwd.value + next;
      TakeValueOf(cwd.value, next);
    } else {
      assert b[1..] == next;
    }
  }

  lemma DecodeKeyedCwd(cwd: Option<Bytes>, next: Bytes)
    requires (cwd.Some? ==> NulFree(cwd.value)) && Boundary(next)
    ensures Decode(Some(CWD_TAG + CwdField(cwd) + next)) == Shape(true, cwd, DecodeEnvs(next))
  {
    var b := CWD_TAG + CwdField(cwd) + next;
    assert b[|CWD_TAG|..] == CwdField(cwd) + next;
    TakeCwdOf(cwd, next);
  }

  lemma DecodeEnvsOnly(next: Bytes)
    requires Boundary(next)
    ensures Decode(Some([] + next)) == Shape(false, None, DecodeEnvs(next))
  {
    assert [] + next == next;
    if next != [] {
      assert next[0] == ENV_TAG[0];
    }
  }

  /** The bytes fed to the hasher determine everything the policy looks at. */
  lemma DecodeStream(s: Shape)
    requires Clean(s)
    ensures Decode(Stream(s)) == s
  {
    EnvFieldsBoundary(s.envs);
    DecodeEnvsOf(s.envs);
    if s.matchCwd {
      DecodeKeyedCwd(s.cwd, EnvFields(s.envs));
    } else {
      DecodeEnvsOnly(EnvFields(s.envs));
    }
  }

  /** Two invocations feed the hasher the same bytes exactly when the policy cannot tell them apart. */
  lemma StreamsDetermineShapes(a: Shape, b: Shape)
    requires Clean(a) && Clean(b)
    ensures Stream(a) == Stream(b) <==> a == b
  {
    DecodeStream(a);
    DecodeStream(b);
    assert a == b ==> Stream(a) == Stream(b);
  }

  /** Whatever the bytes, what the decoder reads holds no NUL. */
  lemma {:induction false} DecodedEnvsClean(b: Bytes)
    ensures forall k :: 0 <= k < |DecodeEnvs(b)| ==> CleanEnv(DecodeEnvs(b)[k])
    decreases |b|
  {
    match TakeEnv(b)
    case None =>
    case Some((env, next)) =>
      TakeEnvClean(b);
      DecodedEnvsClean(next);
      assert DecodeEnvs(b) == [env] + DecodeEnvs(next);
  }

  lemma TakeEnvClean(b: Bytes)
    ensures TakeEnv(b).Some? ==> CleanEnv(TakeEnv(b).value.0)
  {
  }

  lemma DecodeIsClean(stream: Option<Bytes>)
    ensures Clean(Decode(stream))
  {
    if stream.Some? {
      var b := stream.value;
      DecodedEnvsClean(b);
      if CWD_TAG < b {
        DecodedEnvsClean(TakeCwd(b[|CWD_TAG|..]).1);
      }
    }
  }

  /** A shape is read back from its own bytes if and only if it holds no NUL. */
  lemma DecodesIff(s: Shape)
    ensures Decode(Stream(s)) == s <==> Clean(s)
  {
    DecodeIsClean(Stream(s));
    if Clean(s) {
      DecodeStream(s);
    }
  }

  /**
    A shape shares its bytes with another one that could reach a spawn if and only if it holds a
    NUL and its bytes are those of the shape they decode to.
  */
  lemma SharesIff(s: Shape)
    ensures (exists t :: Clean(t) && t != s && Stream(t) == Stream(s))
            <==> !Clean(s) && Stream(Decode(Stream(s))) == Stream(s)
  {
    var read := Decode(Stream(s));
    DecodeIsClean(Stream(s));
    DecodesIff(s);
    forall t | Clean(t) && t != s && Stream(t) == Stream(s)
      ensures t == read
    {
      DecodeStream(t);
    }
    if Stream(read) == Stream(s) && read != s {
      assert Clean(read);
    }
  }

  /**
    A NUL in the working directory: two different policies (cwd alone; cwd and a variable X)
    feed the hasher the same bytes and so share one digest.
  */
  lemma NulBreaksDecoding() returns (a: Shape, b: Shape)
    ensures a != b && a.matchCwd && b.matchCwd && |a.envs| != |b.envs|
    ensures !Clean(a) && Clean(b)
    ensures Stream(a) == Stream(b)
  {
    var env := Selected([0x58], Untouched);
    b := Shape(true, Some([0x2f]), [env]);
    a := Shape(true, Some([0x2f] + EnvFields([env])), []);
    assert EnvFields([env]) == EnvField(env) + [];
    assert a.cwd.value[4] == EnvField(env)[3] == NUL;
    assert CwdField(a.cwd) == CwdField(b.cwd) + EnvFields([env]);
    assert CWD_TAG + CwdField(a.cwd) + [] == CWD_TAG + CwdField(b.cwd) + EnvFields([env]);
  }

  /** The bytes that begin variable X set to a value. */
  const SET_X: Bytes := ENV_TAG + [0x58, NUL, 1]

  /** Both have cwd and X: `/` and `y SET_X z`; `/ SET_X y` and `z`. */
  const VALUE_HOLDS_FIELD := Shape(true, Some([0x2f]), [Selected([0x58], Set([0x79] + SET_X + [0x7a]))])
  const CWD_HOLDS_FIELD := Shape(true, Some([0x2f] + SET_X + [0x79]), [Selected([0x58], Set([0x7a]))])

  /** One policy, and both the working directory and the selected value differ: the same bytes. */
  lemma NulBreaksOnePolicy()
    ensures VALUE_HOLDS_FIELD.cwd != CWD_HOLDS_FIELD.cwd
    ensures VALUE_HOLDS_FIELD.envs[0].name == CWD_HOLDS_FIELD.envs[0].name
    ensures VALUE_HOLDS_FIELD.envs[0].effect != CWD_HOLDS_FIELD.envs[0].effect
    ensures Stream(VALUE_HOLDS_FIELD) == Stream(CWD_HOLDS_FIELD)
  {
    var a, b := VALUE_HOLDS_FIELD, CWD_HOLDS_FIELD;
    assert |a.cwd.value| != |b.cwd.value| && |a.envs[0].effect.value| != |b.envs[0].effect.value|;
    SetXStream([0x2f], [0x79] + SET_X + [0x7a]);
    SetXStream([0x2f] + SET_X + [0x79], [0x7a]);
    assert [0x2f] + SET_X + ([0x79] + SET_X + [0x7a]) == ([0x2f] + SET_X + [0x79]) + SET_X + [0x7a];
  }

  lemma SetXStream(cwd: Bytes, value: Bytes)
    ensures Stream(Shape(true, Some(cwd), [Selected([0x58], Set(value))])) == Some(CWD_TAG + [1] + (cwd + SET_X + value))
  {
    var env := Selected([0x58], Set(value));
    assert EnvFields([env]) == EnvField(env) + [];
    assert EnvField(env) == SET_X + value;
    assert CWD_TAG + ([1] + cwd) + (SET_X + value + []) == CWD_TAG + [1] + (cwd + SET_X + value);
  }
}
