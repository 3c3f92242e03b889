/**
  The child's environment as a command builds it, and the three places that derive part of it
  again: the PATH used to resolve a program, the block handed to a raw Windows PTY spawn, and
  the test whether the command moves PATH at all.
*/
module Environment {
  import opened Wrappers

  datatype Platform = Unix | Windows

  /** A variable name: UTF-8 text, or bytes that decode to nothing. */
  datatype Name = Utf8(text: Bytes) | Opaque(raw: Bytes)

  /** One `env` (Some) or `env_remove` (None). */
  datatype Op = Op(name: Name, value: Option<Bytes>)

  datatype Pty = Pty(cols: nat, rows: nat)

  /** The environment part of a command. */
  datatype Spec = Spec(ops: seq<Op>, clear: bool, inherit: Option<seq<Name>>, pty: Option<Pty>)

  datatype Var = Var(name: Name, value: Bytes)

  /** An environment: variables as spelled, indexed by canonical name. */
  type Block = map<Name, Var>

  function Upper(b: Byte): Byte {
    if 0x61 <= b <= 0x7a then b - 0x20 else b
  }

  function Folded(text: Bytes): (r: Bytes)
    ensures |r| == |text|
    ensures text != [] ==> r[0] == Upper(text[0])
  {
    if text == [] then [] else [Upper(text[0])] + Folded(text[1..])
  }

  /** windows_env_key: ASCII case is folded on Windows, nothing else is. */
  function Canon(p: Platform, name: Name): Name {
    if p.Windows? && name.Utf8? then Utf8(Folded(name.text)) else name
  }

  predicate KeyEq(p: Platform, a: Name, b: Name) {
    Canon(p, a) == Canon(p, b)
  }

  /** The same byte, or the two cases of one ASCII letter. */
  predicate SameLetter(a: Byte, b: Byte) {
    || a == b
    || (0x41 <= a <= 0x5a && b as int == a as int + 0x20)
    || (0x41 <= b <= 0x5a && a as int == b as int + 0x20)
  }

  lemma {:induction false} FoldedAgreeIff(a: Bytes, b: Bytes)
    ensures Folded(a) == Folded(b) <==> |a| == |b| && forall i :: 0 <= i < |a| ==> SameLetter(a[i], b[i])
  {
    if a != [] && b != [] {
      FoldedAgreeIff(a[1..], b[1..]);
      assert Upper(a[0]) == Upper(b[0]) <==> SameLetter(a[0], b[0]);
      assert Folded(a) == Folded(b) <==> Upper(a[0]) == Upper(b[0]) && Folded(a[1..]) == Folded(b[1..]) by {
        assert Folded(a)[1..] == Folded(a[1..]) && Folded(b)[1..] == Folded(b[1..]);
      }
      assert forall i :: 0 < i < |a| ==> a[i] == a[1..][i - 1];
      assert forall i :: 0 < i < |b| ==> b[i] == b[1..][i - 1];
    }
  }

  /**
    On Unix a name is itself only. On Windows text names are equal up to the case of ASCII
    letters; a name that is no text equals only itself, and never a text.
  */
  lemma KeyEqIff(a: Name, b: Name)
    ensures KeyEq(Unix, a, b) <==> a == b
    ensures KeyEq(Windows, a, b) <==>
              if a.Utf8? && b.Utf8? then
                |a.text| == |b.text| && forall i :: 0 <= i < |a.text| ==> SameLetter(a.text[i], b.text[i])
              else a == b
  {
    if a.Utf8? && b.Utf8? {
      FoldedAgreeIff(a.text, b.text);
    }
  }

  predicate Listed(p: Platform, names: seq<Name>, name: Name) {
    exists i :: 0 <= i < |names| && KeyEq(p, names[i], name)
  }

  /** Every variable sits under its own canonical name. */
  predicate WellKeyed(p: Platform, block: Block) {
    forall k :: k in block ==> Canon(p, block[k].name) == k
  }

  /** std::env::var_os, and what the child reads. */
  function Get(p: Platform, block: Block, name: Name): Option<Bytes> {
    if Canon(p, name) in block then Some(block[Canon(p, name)].value) else None
  }

  function Put(p: Platform, block: Block, name: Name, value: Bytes): Block {
    block[Canon(p, name) := Var(name, value)]
  }

  // ---------------------------------------------------------------------------------------
  // What the child is promised, name by name

  /** The last operation on `name`: None if untouched, Some(None) if removed. */
  function LastOp(p: Platform, ops: seq<Op>, name: Name): Option<Option<Bytes>> {
    if ops == [] then None
    else
      var last := ops[|ops| - 1];
      if KeyEq(p, last.name, name) then Some(last.value) else LastOp(p, ops[..|ops| - 1], name)
  }

  function Digits(n: nat): Bytes {
    if n < 10 then [0x30 + n as Byte] else Digits(n / 10) + [0x30 + (n % 10) as Byte]
  }

  const TERM := Utf8([0x54, 0x45, 0x52, 0x4d])
  const COLUMNS := Utf8([0x43, 0x4f, 0x4c, 0x55, 0x4d, 0x4e, 0x53])
  const LINES := Utf8([0x4c, 0x49, 0x4e, 0x45, 0x53])
  const PATH := Utf8([0x50, 0x41, 0x54, 0x48])
  const XTERM: Bytes := [0x78, 0x74, 0x65, 0x72, 0x6d, 0x2d, 0x32, 0x35, 0x36, 0x63, 0x6f, 0x6c, 0x6f, 0x72]

  /** The identity a terminal launch seeds before the command's own operations. */
  function PtyOps(p: Platform, pty: Option<Pty>): seq<Op> {
    match pty
    case None => []
    case Some(size) =>
      (if p.Unix? then [Op(TERM, Some(XTERM))] else [])
      + [Op(COLUMNS, Some(Digits(size.cols))), Op(LINES, Some(Digits(size.rows)))]
  }

  /** spawn_env_ops: terminal identity first, explicit operations after it. */
  function SpawnOps(p: Platform, s: Spec): seq<Op> {
    PtyOps(p, s.pty) + s.ops
  }

  predicate CleanSlate(s: Spec) {
    s.clear || s.inherit.Some?
  }

  /** What the child has before any operation. */
  function Inherited(p: Platform, parent: Block, s: Spec, name: Name): Option<Bytes> {
    if !CleanSlate(s) then Get(p, parent, name)
    else if s.inherit.Some? && Listed(p, s.inherit.value, name) then Get(p, parent, name)
    else None
  }

  /** The value of `name` in the child: the last operation wins, else what was inherited. */
  function ChildValue(p: Platform, parent: Block, s: Spec, name: Name): Option<Bytes> {
    match LastOp(p, SpawnOps(p, s), name)
    case Some(v) => v
    case None => Inherited(p, parent, s, name)
  }

  /** `block` is exactly the child's environment. */
  ghost predicate IsChildEnv(p: Platform, parent: Block, s: Spec, block: Block) {
    && WellKeyed(p, block)
    && forall name :: Get(p, block, name) == ChildValue(p, parent, s, name)
  }

  // ---------------------------------------------------------------------------------------
  // Facts about the pieces

  /** The last operation on a name is the one that no later operation on it follows. */
  lemma {:induction false} LastOpIs(p: Platform, ops: seq<Op>, name: Name, i: nat)
    requires i < |ops| && KeyEq(p, ops[i].name, name)
    requires forall j :: i < j < |ops| ==> !KeyEq(p, ops[j].name, name)
    ensures LastOp(p, ops, name) == Some(ops[i].value)
    decreases |ops|
  {
    if i < |ops| - 1 {
      LastOpIs(p, ops[..|ops| - 1], name, i);
    }
  }

  function Number(digits: Bytes): nat {
    if digits == [] then 0
    else 10 * Number(digits[..|digits| - 1]) + if digits[|digits| - 1] >= 0x30 then digits[|digits| - 1] as nat - 0x30 else 0
  }

  /** Decimal digits without a leading zero. */
  lemma {:induction false} DigitsRead(n: nat)
    ensures Number(Digits(n)) == n
    ensures Digits(n) != [] && forall i :: 0 <= i < |Digits(n)| ==> 0x30 <= Digits(n)[i] <= 0x39
    ensures Digits(n)[0] == 0x30 <==> n == 0
  {
    if n >= 10 {
      DigitsRead(n / 10);
      assert Digits(n)[..|Digits(n)| - 1] == Digits(n / 10);
    }
  }

  lemma {:induction false} LastOpAppend(p: Platform, a: seq<Op>, b: seq<Op>, name: Name)
    ensures LastOp(p, a + b, name) ==
            match LastOp(p, b, name) case Some(v) => Some(v) case None => LastOp(p, a, name)
    decreases |b|
  {
    if b == [] {
      assert a + b == a;
    } else {
      assert (a + b)[..|a + b| - 1] == a + b[..|b| - 1];
      LastOpAppend(p, a, b[..|b| - 1], name);
    }
  }

  lemma LastOpTake(p: Platform, ops: seq<Op>, i: nat, name: Name)
    requires i < |ops|
    ensures LastOp(p, ops[..i + 1], name) ==
            if KeyEq(p, ops[i].name, name) then Some(ops[i].value) else LastOp(p, ops[..i], name)
  {
    assert ops[..i + 1][..i] == ops[..i];
  }

  /** The terminal's own variables never concern PATH. */
  lemma PtyOpsSparePath(p: Platform, pty: Option<Pty>)
    ensures LastOp(p, PtyOps(p, pty), PATH) == None
  {
    KeyEqIff(LINES, PATH);
    KeyEqIff(COLUMNS, PATH);
    KeyEqIff(TERM, PATH);
    assert LINES.text[0] == 0x4c && COLUMNS.text[0] == 0x43 && TERM.text[0] == 0x54 && PATH.text[0] == 0x50;
    if pty.Some? {
      PtyOpOn(p, pty.value, PATH);
    }
  }

  lemma {:induction false} UntouchedByNone(p: Platform, ops: seq<Op>, name: Name)
    ensures LastOp(p, ops, name) == None <==> forall i :: 0 <= i < |ops| ==> !KeyEq(p, ops[i].name, name)
    decreases |ops|
  {
    if ops != [] {
      var front := ops[..|ops| - 1];
      UntouchedByNone(p, front, name);
      assert forall i :: 0 <= i < |front| ==> front[i] == ops[i];
    }
  }

  lemma Spelled()
    ensures Spells(TERM.text, "TERM") && Spells(COLUMNS.text, "COLUMNS")
    ensures Spells(LINES.text, "LINES") && Spells(PATH.text, "PATH")
    ensures Spells(XTERM, "xterm-256color")
  {
  }

  /** The command's own operations decide, whatever terminal it asks for. */
  lemma OwnOpsDecide(p: Platform, parent: Block, s: Spec, name: Name)
    requires LastOp(p, s.ops, name).Some?
    ensures ChildValue(p, parent, s, name) == LastOp(p, s.ops, name).value
  {
    LastOpAppend(p, PtyOps(p, s.pty), s.ops, name);
  }

  /** The last operation on `name` among the terminal's own. */
  lemma PtyOpOn(p: Platform, size: Pty, name: Name)
    ensures LastOp(p, PtyOps(p, Some(size)), name) ==
              if KeyEq(p, LINES, name) then Some(Some(Digits(size.rows)))
              else if KeyEq(p, COLUMNS, name) then Some(Some(Digits(size.cols)))
              else if p.Unix? && KeyEq(p, TERM, name) then Some(Some(XTERM))
              else None
  {
    var first := if p.Unix? then [Op(TERM, Some(XTERM))] else [];
    var columns, lines := Op(COLUMNS, Some(Digits(size.cols))), Op(LINES, Some(Digits(size.rows)));
    assert first + [columns, lines] == first + [columns] + [lines];
    LastOpAppend(p, first + [columns], [lines], name);
    LastOpAppend(p, first, [columns], name);
    LastOpOne(p, lines, name);
    LastOpOne(p, columns, name);
    if p.Unix? {
      LastOpOne(p, first[0], name);
    }
  }

  lemma LastOpOne(p: Platform, o: Op, name: Name)
    ensures LastOp(p, [o], name) == if KeyEq(p, o.name, name) then Some(o.value) else None
  {
    assert [o][..0] == [];
  }

  /** The three names differ, however they are compared. */
  lemma PtyNamesDiffer(p: Platform)
    ensures !KeyEq(p, LINES, COLUMNS) && !KeyEq(p, LINES, TERM) && !KeyEq(p, COLUMNS, TERM)
  {
    KeyEqIff(LINES, COLUMNS);
    KeyEqIff(LINES, TERM);
    KeyEqIff(COLUMNS, TERM);
    assert |LINES.text| == 5 && |COLUMNS.text| == 7 && |TERM.text| == 4;
  }

  /**
    A terminal's child that sets none of them itself sees the size in decimal, on Unix the
    terminal's name too, and every other variable as without a terminal.
  */
  lemma PtyChildSees(p: Platform, parent: Block, s: Spec, name: Name)
    requires s.pty.Some? && LastOp(p, s.ops, name) == None
    ensures KeyEq(p, COLUMNS, name) ==>
              ChildValue(p, parent, s, name).Some? && Number(ChildValue(p, parent, s, name).value) == s.pty.value.cols
    ensures KeyEq(p, LINES, name) ==>
              ChildValue(p, parent, s, name).Some? && Number(ChildValue(p, parent, s, name).value) == s.pty.value.rows
    ensures p.Unix? && name == TERM ==> ChildValue(p, parent, s, name) == Some(XTERM)
    ensures !KeyEq(p, COLUMNS, name) && !KeyEq(p, LINES, name)
            && (p.Unix? ==> name != TERM) ==>
              ChildValue(p, parent, s, name) == ChildValue(p, parent, s.(pty := None), name)
  {
    var size := s.pty.value;
    PtyChildValue(p, parent, s, name);
    PtyNamesDiffer(p);
    PtyOpOn(p, size, name);
    DigitsRead(size.cols);
    DigitsRead(size.rows);
  }

  /** Without an own operation the terminal's decides, and without that what is inherited. */
  lemma PtyChildValue(p: Platform, parent: Block, s: Spec, name: Name)
    requires LastOp(p, s.ops, name) == None
    ensures ChildValue(p, parent, s, name) ==
              match LastOp(p, PtyOps(p, s.pty), name) case Some(v) => v case None => Inherited(p, parent, s, name)
    ensures ChildValue(p, parent, s.(pty := None), name) == Inherited(p, parent, s, name)
  {
    LastOpAppend(p, PtyOps(p, s.pty), s.ops, name);
    assert [] + s.ops == s.ops;
    assert CleanSlate(s.(pty := None)) == CleanSlate(s);
  }

  // ---------------------------------------------------------------------------------------
  // The three derivations, as the code runs them

  /** Applying operations in order to a block that already denotes `base`. */
  method ApplyOps(p: Platform, start: Block, ops: seq<Op>) returns (block: Block)
    requires WellKeyed(p, start)
    ensures WellKeyed(p, block)
    ensures forall name :: Get(p, block, name) ==
              match LastOp(p, ops, name) case Some(v) => v case None => Get(p, start, name)
  {
    block := start;
    var i := 0;
    while i < |ops|
      invariant 0 <= i <= |ops| && WellKeyed(p, block)
      invariant forall name :: Get(p, block, name) ==
                  match LastOp(p, ops[..i], name) case Some(v) => v case None => Get(p, start, name)
    {
      forall name {
        LastOpTake(p, ops, i, name);
      }
      match ops[i].value {
        case Some(v) => block := Put(p, block, ops[i].name, v);
        case None => block := block - {Canon(p, ops[i].name)};
      }
      i := i + 1;
    }
    assert ops[..i] == ops;
  }

  /** Copying the allow-listed variables from the parent into an empty block. */
  method CopyListed(p: Platform, parent: Block, names: seq<Name>) returns (block: Block)
    ensures WellKeyed(p, block)
    ensures forall name :: Get(p, block, name) == if Listed(p, names, name) then Get(p, parent, name) else None
  {
    block := map[];
    var i := 0;
    while i < |names|
      invariant 0 <= i <= |names| && WellKeyed(p, block)
      invariant forall name :: Get(p, block, name) == if Listed(p, names[..i], name) then Get(p, parent, name) else None
    {
      forall name
        ensures Listed(p, names[..i + 1], name) <==> Listed(p, names[..i], name) || KeyEq(p, names[i], name)
      {
        ListedTake(p, names, i, name);
      }
      var value := Get(p, parent, names[i]);
      if value.Some? {
        block := Put(p, block, names[i], value.value);
      }
      i := i + 1;
    }
    assert names[..i] == names;
  }

  lemma ListedTake(p: Platform, names: seq<Name>, i: nat, name: Name)
    requires i < |names|
    ensures Listed(p, names[..i + 1], name) <==> Listed(p, names[..i], name) || KeyEq(p, names[i], name)
  {
  }

  /** The environment build_tokio gives the child. */
  method BuildTokioEnv(p: Platform, parent: Block, s: Spec) returns (block: Block)
    requires WellKeyed(p, parent)
    ensures IsChildEnv(p, parent, s, block)
  {
    block := if CleanSlate(s) then map[] else parent;
    if s.inherit.Some? {
      block := CopyListed(p, parent, s.inherit.value);
    }
    block := ApplyOps(p, block, SpawnOps(p, s));
  }

  /** effective_path_value: the PATH a bare program name is resolved against. */
  method EffectivePathValue(p: Platform, parent: Block, s: Spec) returns (value: Option<Bytes>)
    ensures value == ChildValue(p, parent, s, PATH)
  {
    value := if !CleanSlate(s) then Get(p, parent, PATH)
             else if s.inherit.Some? && Listed(p, s.inherit.value, PATH) then Get(p, parent, PATH)
             else None;
    var i := 0;
    while i < |s.ops|
      invariant 0 <= i <= |s.ops|
      invariant value == match LastOp(p, s.ops[..i], PATH)
                         case Some(v) => v
                         case None => Inherited(p, parent, s, PATH)
    {
      LastOpTake(p, s.ops, i, PATH);
      if KeyEq(p, s.ops[i].name, PATH) {
        value := s.ops[i].value;
      }
      i := i + 1;
    }
    assert s.ops[..i] == s.ops;
    LastOpAppend(p, PtyOps(p, s.pty), s.ops, PATH);
    PtyOpsSparePath(p, s.pty);
  }

  /** resolved_pty_env: None stands for "inherit unchanged". */
  method ResolvedPtyEnv(p: Platform, parent: Block, s: Spec) returns (env: Option<Block>)
    requires WellKeyed(p, parent)
    ensures IsChildEnv(p, parent, s, if env.Some? then env.value else parent)
    ensures env.None? <==> !CleanSlate(s) && SpawnOps(p, s) == []
  {
    var ops := SpawnOps(p, s);
    if !s.clear && s.inherit.None? && ops == [] {
      return None;
    }
    var block: Block := map[];
    if !s.clear && s.inherit.None? {
      block := parent;
    }
    if s.inherit.Some? {
      block := CopyListed(p, parent, s.inherit.value);
    }
    block := ApplyOps(p, block, ops);
    env := Some(block);
  }

  /** customizes_path. */
  predicate CustomizesPath(p: Platform, s: Spec) {
    s.clear || s.inherit.Some? || exists i :: 0 <= i < |s.ops| && KeyEq(p, s.ops[i].name, PATH)
  }

  /** PATH is customised by a clean slate or by an operation on it, and by nothing else. */
  lemma CustomizesPathIff(p: Platform, s: Spec)
    ensures CustomizesPath(p, s) <==> s.clear || s.inherit.Some? || LastOp(p, s.ops, PATH).Some?
  {
    UntouchedByNone(p, s.ops, PATH);
  }

  /**
    What a child without operations of its own has: with an allow-list the parent's value of the
    names on it, cleared or not; cleared without one, nothing; otherwise what the parent has.
  */
  lemma InheritedIs(p: Platform, parent: Block, s: Spec, name: Name)
    requires s.ops == [] && s.pty.None?
    ensures s.inherit.Some? && (exists i :: 0 <= i < |s.inherit.value| && KeyEq(p, s.inherit.value[i], name)) ==>
              ChildValue(p, parent, s, name) == Get(p, parent, name)
    ensures s.inherit.Some? && (forall i :: 0 <= i < |s.inherit.value| ==> !KeyEq(p, s.inherit.value[i], name)) ==>
              ChildValue(p, parent, s, name) == None
    ensures s.inherit.None? && s.clear ==> ChildValue(p, parent, s, name) == None
    ensures s.inherit.None? && !s.clear ==> ChildValue(p, parent, s, name) == Get(p, parent, name)
  {
    assert SpawnOps(p, s) == [];
  }

  /**
    The two ways of finding the child's PATH agree with the child's actual environment: the
    derived value when the command customizes PATH, the process's own otherwise.
  */
  lemma PathSourceIsChildPath(p: Platform, parent: Block, s: Spec, block: Block)
    requires IsChildEnv(p, parent, s, block)
    ensures Get(p, block, PATH) ==
            if CustomizesPath(p, s) then ChildValue(p, parent, s, PATH) else Get(p, parent, PATH)
  {
    if !CustomizesPath(p, s) {
      UntouchedByNone(p, s.ops, PATH);
      LastOpAppend(p, PtyOps(p, s.pty), s.ops, PATH);
      PtyOpsSparePath(p, s.pty);
    }
  }

  /** A child environment is determined: two correct derivations agree on every variable. */
  lemma ChildEnvIsUnique(p: Platform, parent: Block, s: Spec, a: Block, b: Block)
    requires IsChildEnv(p, parent, s, a) && IsChildEnv(p, parent, s, b)
    ensures a.Keys == b.Keys
    ensures forall k :: k in a ==> a[k].value == b[k].value && KeyEq(p, a[k].name, b[k].name)
  {
    forall k | k in a || k in b
      ensures k in a && k in b && a[k].value == b[k].value
    {
      var name := if k in a then a[k].name else b[k].name;
      assert Get(p, a, name) == Get(p, b, name);
    }
  }
}
