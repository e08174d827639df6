/**
 Code driven by a type: the marker procs of compiler/ccgtrav.nim, which visit the
 garbage-collected references in a value, and the reset code of
 compiler/ccgreset.nim, which clears it. Both walk the same types; `mode` tells
 them apart. Destructor-based sequences are off.
 */
module TypeCode {
  import opened Basics
  import CaseCode

  // ---------- types ----------

  datatype Type =
    | Wrapper(t: Type)                       // generic instances, aliases, distinct, sink, owned ...
    | ArrayOf(n: nat, elem: Type)
    | Object(base: Option<Type>, rec: Record)
    | Tuple(items: seq<Type>)
    | Ref
    | SeqOf
    | StringOf(hasAsgn: bool)
    | Closure
    | PlainProc
    | Ordinal                                // integers, enums, bool, char
    | Pointer                                // ptr, pointer, cstring, var, lent
    | Opaque                                 // floats, sets, ranges, everything else

  datatype Record =
    | NoRecord
    | RecList(items: seq<Record>)
    | RecCase(disc: nat, discType: Type, sels: seq<CaseCode.Branch>, bodies: seq<Record>)
    | RecField(id: nat, typ: Type)
    | VoidField

  // ---------- places in a value ----------

  /** A C accessor, one step at a time: `.Sup`, `.name`, `.Field3`, `[7]`, `[i]`, `.ClE_0`, `.ClP_0`. */
  datatype Step = Sup | Fld(id: nat) | Item(k: nat) | Idx(i: nat) | Var(v: nat) | ClE | ClP

  type Path = seq<Step>
  type Env = map<nat, nat>
  type Mem = map<Path, int>

  function EvalStep(s: Step, env: Env): Step {
    if s.Var? then Idx(if s.v in env then env[s.v] else 0) else s
  }

  /** The place an accessor denotes for given loop variables. */
  function Eval(acc: Path, env: Env): (r: Path)
    ensures |r| == |acc| && forall i | 0 <= i < |r| :: r[i] == EvalStep(acc[i], env)
  {
    seq(|acc|, i requires 0 <= i < |acc| => EvalStep(acc[i], env))
  }

  function Read(mem: Mem, p: Path): int {
    if p in mem then mem[p] else 0
  }

  // ---------- the emitted code ----------

  datatype Stmt =
    | Visit(acc: Path)                       // nimGCvisit
    | Put(acc: Path)                         // unsureAsgnRef(..., NIM_NIL); x = NIM_NIL; x = 0;
    | For(v: nat, n: nat, body: seq<Stmt>)
    | Switch(acc: Path, arms: seq<CaseCode.Arm>, bodies: seq<Block>)

  datatype Block = Block(code: seq<Stmt>)

  datatype State = State(mem: Mem, visits: seq<Path>)

  function Exec(code: seq<Stmt>, env: Env, s: State): State
    decreases code, 0
  {
    if code == [] then s else Exec(code[1..], env, ExecOne(code[0], env, s))
  }

  function ExecOne(st: Stmt, env: Env, s: State): State
    decreases st
  {
    match st
    case Visit(acc) => State(s.mem, s.visits + [Eval(acc, env)])
    case Put(acc) => State(s.mem[Eval(acc, env) := 0], s.visits)
    case For(v, n, body) => Loop(body, v, 0, n, env, s)
    case Switch(acc, arms, bodies) =>
      var hit := CaseCode.SwitchTo(arms, CaseCode.Ord(Read(s.mem, Eval(acc, env))));
      if hit.Some? && hit.value < |bodies| then ExecBlock(bodies[hit.value], env, s) else s
  }

  function ExecBlock(b: Block, env: Env, s: State): State
    decreases b
  {
    Exec(b.code, env, s)
  }

  function Loop(body: seq<Stmt>, v: nat, i: nat, n: nat, env: Env, s: State): State
    decreases body, 1, n - i
  {
    if i >= n then s else Loop(body, v, i + 1, n, env, Exec(body, env[v := i], s))
  }

  lemma {:induction false} ExecConcat(a: seq<Stmt>, b: seq<Stmt>, env: Env, s: State)
    ensures Exec(a + b, env, s) == Exec(b, env, Exec(a, env, s))
    decreases |a|
  {
    if a == [] {
      assert a + b == b;
    } else {
      assert (a + b)[0] == a[0] && (a + b)[1..] == a[1..] + b;
      ExecConcat(a[1..], b, env, ExecOne(a[0], env, s));
    }
  }

  lemma ExecSingle(st: Stmt, env: Env, s: State)
    ensures Exec([st], env, s) == ExecOne(st, env, s)
  {
    assert [st][1..] == [];
  }

  // ---------- the generators ----------

  datatype Mode = Traverse | Reset

  /** Emitted code, and the counter that names loop variables. */
  datatype Gen = Gen(code: seq<Stmt>, vars: nat)
  datatype GenArms = GenArms(bodies: seq<Block>, vars: nat)

  function LeafCode(mode: Mode, t: Type, acc: Path): seq<Stmt> {
    match mode
    case Traverse =>
      if t.Ref? || t.SeqOf? || (t.StringOf? && !t.hasAsgn) then [Visit(acc)]
      else if t.Closure? then [Visit(acc + [ClE])]
      else []
    case Reset =>
      if t.Closure? then [Put(acc + [ClE]), Put(acc + [ClP])]
      else if t.Opaque? then []
      else [Put(acc)]
  }

  /** `genTraverseProc` and `specializeResetT`; `rangeCase`: the C compiler has case ranges. */
  function GenType(mode: Mode, rangeCase: bool, t: Type, acc: Path, n: nat): (g: Gen)
    ensures g.vars >= n
    decreases t, 0
  {
    match t
    case Wrapper(u) => GenType(mode, rangeCase, u, acc, n)
    case ArrayOf(len, elem) =>
      var g := GenType(mode, rangeCase, elem, acc + [Var(n)], n + 1);
      if mode.Traverse? && g.code == [] then Gen([], g.vars) else Gen([For(n, len, g.code)], g.vars)
    case Object(base, rec) =>
      var gb := if base.Some? then GenType(mode, rangeCase, base.value, acc + [Sup], n) else Gen([], n);
      var gr := GenRecord(mode, rangeCase, rec, acc, gb.vars);
      Gen(gb.code + gr.code, gr.vars)
    case Tuple(items) => GenItems(mode, rangeCase, items, 0, acc, n)
    case _ => Gen(LeafCode(mode, t, acc), n)
  }

  function GenItems(mode: Mode, rangeCase: bool, ts: seq<Type>, k: nat, acc: Path, n: nat): (g: Gen)
    ensures g.vars >= n
    decreases ts, 1
  {
    if ts == [] then Gen([], n)
    else
      var g := GenType(mode, rangeCase, ts[0], acc + [Item(k)], n);
      var gs := GenItems(mode, rangeCase, ts[1..], k + 1, acc, g.vars);
      Gen(g.code + gs.code, gs.vars)
  }

  /** The record nodes: `genTraverseProc` and `specializeResetN` */
  function GenRecord(mode: Mode, rangeCase: bool, r: Record, acc: Path, n: nat): (g: Gen)
    ensures g.vars >= n
    decreases r, 0
  {
    match r
    case NoRecord => Gen([], n)
    case RecList(items) => GenRecords(mode, rangeCase, items, acc, n)
    case RecCase(disc, discType, sels, bodies) =>
      var ga := GenBranches(mode, rangeCase, bodies, acc, n);
      var sw := Switch(acc + [Fld(disc)], CaseCode.Arms(sels, 0, |sels|, rangeCase), ga.bodies);
      if mode.Traverse? then Gen([sw], ga.vars)
      else
        var gd := GenType(mode, rangeCase, discType, acc + [Fld(disc)], ga.vars);
        Gen([sw] + gd.code, gd.vars)
    case RecField(id, typ) => GenType(mode, rangeCase, typ, acc + [Fld(id)], n)
    case VoidField => Gen([], n)
  }

  function GenRecords(mode: Mode, rangeCase: bool, rs: seq<Record>, acc: Path, n: nat): (g: Gen)
    ensures g.vars >= n
    decreases rs, 1
  {
    if rs == [] then Gen([], n)
    else
      var g := GenRecord(mode, rangeCase, rs[0], acc, n);
      var gs := GenRecords(mode, rangeCase, rs[1..], acc, g.vars);
      Gen(g.code + gs.code, gs.vars)
  }

  function GenBranches(mode: Mode, rangeCase: bool, bs: seq<Record>, acc: Path, n: nat): (g: GenArms)
    ensures g.vars >= n && |g.bodies| == |bs|
    decreases bs, 1
  {
    if bs == [] then GenArms([], n)
    else
      var g := GenRecord(mode, rangeCase, bs[0], acc, n);
      var gs := GenBranches(mode, rangeCase, bs[1..], acc, g.vars);
      GenArms([Block(g.code)] + gs.bodies, gs.vars)
  }

  // ---------- what a value of a type consists of ----------

  /** A place that is handled; `traced`: it holds a reference the garbage collector follows. */
  datatype Cell = Cell(path: Path, traced: bool)

  function LeafCells(mode: Mode, t: Type, p: Path): seq<Cell> {
    match t
    case Ref => [Cell(p, true)]
    case SeqOf => [Cell(p, true)]
    case StringOf(hasAsgn) => if mode.Traverse? && hasAsgn then [] else [Cell(p, !hasAsgn)]
    case Closure => if mode.Traverse? then [Cell(p + [ClE], true)] else [Cell(p + [ClE], true), Cell(p + [ClP], false)]
    case PlainProc => if mode.Traverse? then [] else [Cell(p, false)]
    case Ordinal => if mode.Traverse? then [] else [Cell(p, false)]
    case Pointer => if mode.Traverse? then [] else [Cell(p, false)]
    case _ => []
  }

  /**
   The places in a value of type `t` at `p`, in layout order: for `Traverse` those
   the collector has to see, for `Reset` those to be cleared. Of a variant only the
   active branch counts, as its discriminator in `mem` says.
   */
  function Cells(mode: Mode, t: Type, p: Path, mem: Mem): seq<Cell>
    decreases t, 0
  {
    match t
    case Wrapper(u) => Cells(mode, u, p, mem)
    case ArrayOf(len, elem) => CellsFrom(mode, elem, p, 0, len, mem)
    case Object(base, rec) =>
      (if base.Some? then Cells(mode, base.value, p + [Sup], mem) else []) + RecordCells(mode, rec, p, mem)
    case Tuple(items) => ItemCells(mode, items, 0, p, mem)
    case _ => LeafCells(mode, t, p)
  }

  /** Array elements from `i` on. */
  function CellsFrom(mode: Mode, elem: Type, p: Path, i: nat, len: nat, mem: Mem): seq<Cell>
    decreases elem, 1, len - i
  {
    if i >= len then [] else Cells(mode, elem, p + [Idx(i)], mem) + CellsFrom(mode, elem, p, i + 1, len, mem)
  }

  function ItemCells(mode: Mode, ts: seq<Type>, k: nat, p: Path, mem: Mem): seq<Cell>
    decreases ts, 1
  {
    if ts == [] then [] else Cells(mode, ts[0], p + [Item(k)], mem) + ItemCells(mode, ts[1..], k + 1, p, mem)
  }

  function RecordCells(mode: Mode, r: Record, p: Path, mem: Mem): seq<Cell>
    decreases r, 0
  {
    match r
    case NoRecord => []
    case RecList(items) => RecordsCells(mode, items, p, mem)
    case RecCase(disc, discType, sels, bodies) =>
      BranchCells(mode, bodies, Active(sels, mem, p + [Fld(disc)]), p, mem)
      + (if mode.Reset? then Cells(mode, discType, p + [Fld(disc)], mem) else [])
    case RecField(id, typ) => Cells(mode, typ, p + [Fld(id)], mem)
    case VoidField => []
  }

  /** The branch that the discriminator at `d` selects. */
  function Active(sels: seq<CaseCode.Branch>, mem: Mem, d: Path): Option<nat> {
    CaseCode.Select(sels, CaseCode.Ord(if d in mem then mem[d] else 0))
  }

  function BranchCells(mode: Mode, bs: seq<Record>, active: Option<nat>, p: Path, mem: Mem): seq<Cell>
    decreases bs, 1
  {
    if bs == [] || active.None? then []
    else if active.value == 0 then RecordCells(mode, bs[0], p, mem)
    else BranchCells(mode, bs[1..], Some(active.value - 1), p, mem)
  }

  function RecordsCells(mode: Mode, rs: seq<Record>, p: Path, mem: Mem): seq<Cell>
    decreases rs, 1
  {
    if rs == [] then [] else RecordCells(mode, rs[0], p, mem) + RecordsCells(mode, rs[1..], p, mem)
  }

  // ---------- well-formed types ----------

  function Ids(r: Record): set<nat>
    decreases r, 0
  {
    match r
    case NoRecord => {}
    case RecList(items) => IdsAll(items)
    case RecCase(disc, _, _, bodies) => {disc} + IdsAll(bodies)
    case RecField(id, _) => {id}
    case VoidField => {}
  }

  function IdsAll(rs: seq<Record>): set<nat>
    decreases rs, 1
  {
    if rs == [] then {} else Ids(rs[0]) + IdsAll(rs[1..])
  }

  predicate PlainDisc(t: Type) {
    t.Ordinal? || t.Opaque? || (t.Wrapper? && PlainDisc(t.t))
  }

  /** Fields have names of their own, discriminators are ordinals, `else` comes last. */
  predicate WellFormed(t: Type)
    decreases t, 0
  {
    match t
    case Wrapper(u) => WellFormed(u)
    case ArrayOf(_, elem) => WellFormed(elem)
    case Object(base, rec) => (base.Some? ==> WellFormed(base.value)) && WellFormedRecord(rec)
    case Tuple(items) => WellFormedAll(items)
    case _ => true
  }

  predicate WellFormedAll(ts: seq<Type>)
    decreases ts, 1
  {
    ts != [] ==> WellFormed(ts[0]) && WellFormedAll(ts[1..])
  }

  predicate WellFormedRecord(r: Record)
    decreases r, 0
  {
    match r
    case RecList(items) => WellFormedRecords(items)
    case RecCase(disc, discType, sels, bodies) =>
      && PlainDisc(discType) && disc !in IdsAll(bodies) && WellFormedBranches(bodies)
      && |sels| == |bodies| && CaseCode.WellFormed(sels)
    case RecField(_, typ) => WellFormed(typ)
    case _ => true
  }

  predicate WellFormedRecords(rs: seq<Record>)
    decreases rs, 1
  {
    rs != [] ==> WellFormedRecord(rs[0]) && WellFormedRecords(rs[1..]) && Ids(rs[0]) !! IdsAll(rs[1..])
  }

  predicate WellFormedBranches(bs: seq<Record>)
    decreases bs, 1
  {
    bs != [] ==> WellFormedRecord(bs[0]) && WellFormedBranches(bs[1..])
  }
}
