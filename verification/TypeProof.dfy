/** Marker code visits exactly the traced places of a value; reset code clears it, branch before discriminator. */
module TypeProof {
  import opened Basics
  import opened TypeCode
  import CaseCode
  import CaseProof

  // ---------- places below a place ----------

  ghost predicate Under(q: Path, p: Path) {
    |p| <= |q| && q[..|p|] == p
  }

  lemma UnderStep(q: Path, p: Path, s: Step)
    requires Under(q, p + [s])
    ensures Under(q, p) && |q| > |p| && q[|p|] == s
  {
    assert q[..|p|] == q[..|p| + 1][..|p|] == p;
    assert q[|p|] == q[..|p| + 1][|p|];
  }

  ghost predicate AllUnder(cs: seq<Cell>, p: Path) {
    forall i | 0 <= i < |cs| :: Under(cs[i].path, p)
  }

  /** All below one of the fields `ids` of the object at `p`. */
  ghost predicate UnderFields(cs: seq<Cell>, p: Path, ids: set<nat>) {
    forall i | 0 <= i < |cs| :: Under(cs[i].path, p) && |cs[i].path| > |p| && cs[i].path[|p|].Fld?
      && cs[i].path[|p|].id in ids
  }

  lemma FieldUnder(cs: seq<Cell>, p: Path, id: nat)
    requires AllUnder(cs, p + [Fld(id)])
    ensures UnderFields(cs, p, {id})
  {
    forall i | 0 <= i < |cs| ensures Under(cs[i].path, p) && |cs[i].path| > |p| && cs[i].path[|p|] == Fld(id) {
      UnderStep(cs[i].path, p, Fld(id));
    }
  }

  lemma StepUnder(cs: seq<Cell>, p: Path, s: Step)
    requires AllUnder(cs, p + [s])
    ensures AllUnder(cs, p) && forall i | 0 <= i < |cs| :: |cs[i].path| > |p| && cs[i].path[|p|] == s
  {
    forall i | 0 <= i < |cs| ensures Under(cs[i].path, p) && |cs[i].path| > |p| && cs[i].path[|p|] == s {
      UnderStep(cs[i].path, p, s);
    }
  }

  lemma {:induction false} CellsUnder(mode: Mode, t: Type, p: Path, mem: Mem)
    ensures AllUnder(Cells(mode, t, p, mem), p)
    decreases t, 0
  {
    if t.Wrapper? {
      CellsUnder(mode, t.t, p, mem);
    } else if t.ArrayOf? {
      FromUnder(mode, t.elem, p, 0, t.n, mem);
    } else if t.Object? {
      if t.base.Some? {
        CellsUnder(mode, t.base.value, p + [Sup], mem);
        StepUnder(Cells(mode, t.base.value, p + [Sup], mem), p, Sup);
      }
      RecordUnder(mode, t.rec, p, mem);
    } else if t.Tuple? {
      ItemsUnder(mode, t.items, 0, p, mem);
    }
  }

  lemma {:induction false} FromUnder(mode: Mode, elem: Type, p: Path, i: nat, len: nat, mem: Mem)
    ensures var cs := CellsFrom(mode, elem, p, i, len, mem);
      AllUnder(cs, p) && forall k | 0 <= k < |cs| ::
        |cs[k].path| > |p| && cs[k].path[|p|].Idx? && cs[k].path[|p|].i >= i
    decreases elem, 1, len - i
  {
    if i < len {
      CellsUnder(mode, elem, p + [Idx(i)], mem);
      StepUnder(Cells(mode, elem, p + [Idx(i)], mem), p, Idx(i));
      FromUnder(mode, elem, p, i + 1, len, mem);
    }
  }

  lemma {:induction false} ItemsUnder(mode: Mode, ts: seq<Type>, k: nat, p: Path, mem: Mem)
    ensures var cs := ItemCells(mode, ts, k, p, mem);
      AllUnder(cs, p) && forall j | 0 <= j < |cs| ::
        |cs[j].path| > |p| && cs[j].path[|p|].Item? && cs[j].path[|p|].k >= k
    decreases ts, 1
  {
    if ts != [] {
      CellsUnder(mode, ts[0], p + [Item(k)], mem);
      StepUnder(Cells(mode, ts[0], p + [Item(k)], mem), p, Item(k));
      ItemsUnder(mode, ts[1..], k + 1, p, mem);
    }
  }

  lemma {:induction false} RecordUnder(mode: Mode, r: Record, p: Path, mem: Mem)
    ensures UnderFields(RecordCells(mode, r, p, mem), p, Ids(r))
    decreases r, 0
  {
    if r.RecList? {
      RecordsUnder(mode, r.items, p, mem);
    } else if r.RecCase? {
      BranchUnder(mode, r.bodies, Active(r.sels, mem, p + [Fld(r.disc)]), p, mem);
      CellsUnder(mode, r.discType, p + [Fld(r.disc)], mem);
      FieldUnder(Cells(mode, r.discType, p + [Fld(r.disc)], mem), p, r.disc);
    } else if r.RecField? {
      CellsUnder(mode, r.typ, p + [Fld(r.id)], mem);
      FieldUnder(Cells(mode, r.typ, p + [Fld(r.id)], mem), p, r.id);
    }
  }

  lemma {:induction false} RecordsUnder(mode: Mode, rs: seq<Record>, p: Path, mem: Mem)
    ensures UnderFields(RecordsCells(mode, rs, p, mem), p, IdsAll(rs))
    decreases rs, 1
  {
    if rs != [] {
      RecordUnder(mode, rs[0], p, mem);
      RecordsUnder(mode, rs[1..], p, mem);
    }
  }

  lemma {:induction false} BranchUnder(mode: Mode, bs: seq<Record>, active: Option<nat>, p: Path, mem: Mem)
    ensures UnderFields(BranchCells(mode, bs, active, p, mem), p, IdsAll(bs))
    decreases bs, 1
  {
    if bs != [] && active.Some? {
      if active.value == 0 {
        RecordUnder(mode, bs[0], p, mem);
      } else {
        BranchUnder(mode, bs[1..], Some(active.value - 1), p, mem);
      }
    }
  }

  // ---------- the places depend only on what is below ----------

  ghost predicate Agree(a: Mem, b: Mem, p: Path) {
    forall q | Under(q, p) :: Read(a, q) == Read(b, q)
  }

  ghost predicate AgreeFields(a: Mem, b: Mem, p: Path, ids: set<nat>) {
    forall id | id in ids :: Agree(a, b, p + [Fld(id)])
  }

  lemma AgreeStep(a: Mem, b: Mem, p: Path, s: Step)
    requires Agree(a, b, p)
    ensures Agree(a, b, p + [s])
  {
    forall q | Under(q, p + [s]) ensures Read(a, q) == Read(b, q) {
      UnderStep(q, p, s);
    }
  }

  lemma {:induction false} CellsFrame(mode: Mode, t: Type, p: Path, a: Mem, b: Mem)
    requires Agree(a, b, p)
    ensures Cells(mode, t, p, a) == Cells(mode, t, p, b)
    decreases t, 0
  {
    if t.Wrapper? {
      CellsFrame(mode, t.t, p, a, b);
    } else if t.ArrayOf? {
      forall k: nat ensures Agree(a, b, p + [Idx(k)]) {
        AgreeStep(a, b, p, Idx(k));
      }
      FromFrame(mode, t.elem, p, 0, t.n, a, b);
    } else if t.Object? {
      if t.base.Some? {
        AgreeStep(a, b, p, Sup);
        CellsFrame(mode, t.base.value, p + [Sup], a, b);
      }
      forall id | id in Ids(t.rec) ensures Agree(a, b, p + [Fld(id)]) {
        AgreeStep(a, b, p, Fld(id));
      }
      RecordFrame(mode, t.rec, p, a, b);
    } else if t.Tuple? {
      forall k: nat ensures Agree(a, b, p + [Item(k)]) {
        AgreeStep(a, b, p, Item(k));
      }
      ItemsFrame(mode, t.items, 0, p, a, b);
    }
  }

  lemma {:induction false} FromFrame(mode: Mode, elem: Type, p: Path, i: nat, len: nat, a: Mem, b: Mem)
    requires forall k: nat | i <= k :: Agree(a, b, p + [Idx(k)])
    ensures CellsFrom(mode, elem, p, i, len, a) == CellsFrom(mode, elem, p, i, len, b)
    decreases elem, 1, len - i
  {
    if i < len {
      CellsFrame(mode, elem, p + [Idx(i)], a, b);
      FromFrame(mode, elem, p, i + 1, len, a, b);
    }
  }

  lemma {:induction false} ItemsFrame(mode: Mode, ts: seq<Type>, k: nat, p: Path, a: Mem, b: Mem)
    requires forall j: nat | k <= j :: Agree(a, b, p + [Item(j)])
    ensures ItemCells(mode, ts, k, p, a) == ItemCells(mode, ts, k, p, b)
    decreases ts, 1
  {
    if ts != [] {
      CellsFrame(mode, ts[0], p + [Item(k)], a, b);
      ItemsFrame(mode, ts[1..], k + 1, p, a, b);
    }
  }

  lemma {:induction false} RecordFrame(mode: Mode, r: Record, p: Path, a: Mem, b: Mem)
    requires AgreeFields(a, b, p, Ids(r))
    ensures RecordCells(mode, r, p, a) == RecordCells(mode, r, p, b)
    decreases r, 0
  {
    if r.RecList? {
      RecordsFrame(mode, r.items, p, a, b);
    } else if r.RecCase? {
      assert Agree(a, b, p + [Fld(r.disc)]);
      assert Under(p + [Fld(r.disc)], p + [Fld(r.disc)]);
      CellsFrame(mode, r.discType, p + [Fld(r.disc)], a, b);
      BranchFrame(mode, r.bodies, Active(r.sels, a, p + [Fld(r.disc)]), p, a, b);
    } else if r.RecField? {
      CellsFrame(mode, r.typ, p + [Fld(r.id)], a, b);
    }
  }

  lemma {:induction false} RecordsFrame(mode: Mode, rs: seq<Record>, p: Path, a: Mem, b: Mem)
    requires AgreeFields(a, b, p, IdsAll(rs))
    ensures RecordsCells(mode, rs, p, a) == RecordsCells(mode, rs, p, b)
    decreases rs, 1
  {
    if rs != [] {
      RecordFrame(mode, rs[0], p, a, b);
      RecordsFrame(mode, rs[1..], p, a, b);
    }
  }

  lemma {:induction false} BranchFrame(mode: Mode, bs: seq<Record>, active: Option<nat>, p: Path, a: Mem, b: Mem)
    requires AgreeFields(a, b, p, IdsAll(bs))
    ensures BranchCells(mode, bs, active, p, a) == BranchCells(mode, bs, active, p, b)
    decreases bs, 1
  {
    if bs != [] && active.Some? {
      if active.value == 0 {
        RecordFrame(mode, bs[0], p, a, b);
      } else {
        BranchFrame(mode, bs[1..], Some(active.value - 1), p, a, b);
      }
    }
  }

  // ---------- what handling some places does ----------

  function Zeroed(mem: Mem, cs: seq<Cell>): Mem
    decreases |cs|
  {
    if cs == [] then mem else Zeroed(mem[cs[0].path := 0], cs[1..])
  }

  function Paths(cs: seq<Cell>): (r: seq<Path>)
    ensures |r| == |cs| && forall i | 0 <= i < |r| :: r[i] == cs[i].path
  {
    seq(|cs|, i requires 0 <= i < |cs| => cs[i].path)
  }

  function Apply(mode: Mode, s: State, cs: seq<Cell>): State {
    if mode.Traverse? then State(s.mem, s.visits + Paths(cs)) else State(Zeroed(s.mem, cs), s.visits)
  }

  lemma {:induction false} ZeroedConcat(mem: Mem, a: seq<Cell>, b: seq<Cell>)
    ensures Zeroed(mem, a + b) == Zeroed(Zeroed(mem, a), b)
    decreases |a|
  {
    if a == [] {
      assert a + b == b;
    } else {
      assert (a + b)[0] == a[0] && (a + b)[1..] == a[1..] + b;
      ZeroedConcat(mem[a[0].path := 0], a[1..], b);
    }
  }

  lemma ApplyConcat(mode: Mode, s: State, a: seq<Cell>, b: seq<Cell>)
    ensures Apply(mode, Apply(mode, s, a), b) == Apply(mode, s, a + b)
  {
    ZeroedConcat(s.mem, a, b);
    assert Paths(a + b) == Paths(a) + Paths(b);
    assert s.visits + Paths(a) + Paths(b) == s.visits + (Paths(a) + Paths(b));
  }

  lemma ApplyNone(mode: Mode, s: State)
    ensures Apply(mode, s, []) == s
  {
  }

  function Holds(mem: Mem, q: Path): Option<int> {
    if q in mem then Some(mem[q]) else None
  }

  /** Exactly the given places are cleared. */
  lemma {:induction false} ZeroedMeans(mem: Mem, cs: seq<Cell>, q: Path)
    ensures Read(Zeroed(mem, cs), q) == if exists i :: 0 <= i < |cs| && cs[i].path == q then 0 else Read(mem, q)
    ensures Holds(Zeroed(mem, cs), q) ==
      if exists i :: 0 <= i < |cs| && cs[i].path == q then Some(0) else Holds(mem, q)
    decreases |cs|
  {
    if cs != [] {
      ZeroedMeans(mem[cs[0].path := 0], cs[1..], q);
      if i :| 0 <= i < |cs[1..]| && cs[1..][i].path == q {
        assert cs[i + 1].path == q;
      } else {
        assert forall i | 0 < i < |cs| :: cs[i] == cs[1..][i - 1];
      }
    }
  }

  /** Clearing other places changes nothing below `p`. */
  lemma AgreeAfter(mode: Mode, s: State, cs: seq<Cell>, p: Path)
    requires forall i | 0 <= i < |cs| :: !Under(cs[i].path, p)
    ensures Agree(s.mem, Apply(mode, s, cs).mem, p)
  {
    forall q | Under(q, p) ensures Read(s.mem, q) == Read(Apply(mode, s, cs).mem, q) {
      ZeroedMeans(s.mem, cs, q);
    }
  }

  lemma FieldsAgree(mode: Mode, s: State, cs: seq<Cell>, p: Path, ids: set<nat>, others: set<nat>)
    requires UnderFields(cs, p, ids) && ids !! others
    ensures AgreeFields(s.mem, Apply(mode, s, cs).mem, p, others)
  {
    forall id | id in others ensures Agree(s.mem, Apply(mode, s, cs).mem, p + [Fld(id)]) {
      forall i | 0 <= i < |cs| ensures !Under(cs[i].path, p + [Fld(id)]) {
        if Under(cs[i].path, p + [Fld(id)]) {
          UnderStep(cs[i].path, p, Fld(id));
        }
      }
      AgreeAfter(mode, s, cs, p + [Fld(id)]);
    }
  }

  lemma OtherStep(mode: Mode, s: State, cs: seq<Cell>, p: Path, other: Step)
    requires forall i | 0 <= i < |cs| :: |cs[i].path| > |p| && cs[i].path[|p|] != other
    ensures Agree(s.mem, Apply(mode, s, cs).mem, p + [other])
  {
    forall i | 0 <= i < |cs| ensures !Under(cs[i].path, p + [other]) {
      if Under(cs[i].path, p + [other]) {
        UnderStep(cs[i].path, p, other);
      }
    }
    AgreeAfter(mode, s, cs, p + [other]);
  }

  // ---------- running the generated code ----------

  /** The accessor uses only loop variables before `n`. */
  ghost predicate Fresh(acc: Path, n: nat) {
    forall i | 0 <= i < |acc| && acc[i].Var? :: acc[i].v < n
  }

  lemma EvalStepOn(acc: Path, env: Env, s: Step)
    requires !s.Var?
    ensures Eval(acc + [s], env) == Eval(acc, env) + [s]
  {
  }

  lemma EvalLoop(acc: Path, env: Env, n: nat, i: nat)
    requires Fresh(acc, n)
    ensures Eval(acc + [Var(n)], env[n := i]) == Eval(acc, env) + [Idx(i)]
  {
  }

  lemma {:induction false} ExecType(mode: Mode, rangeCase: bool, t: Type, acc: Path, n: nat, env: Env, s: State)
    requires WellFormed(t) && Fresh(acc, n)
    ensures Exec(GenType(mode, rangeCase, t, acc, n).code, env, s) ==
      Apply(mode, s, Cells(mode, t, Eval(acc, env), s.mem))
    decreases t, 1
  {
    if t.Wrapper? {
      ExecType(mode, rangeCase, t.t, acc, n, env, s);
    } else if t.ArrayOf? {
      ExecArray(mode, rangeCase, t.n, t.elem, acc, n, env, s);
    } else if t.Object? {
      ExecObject(mode, rangeCase, t, acc, n, env, s);
    } else if t.Tuple? {
      ExecItems(mode, rangeCase, t.items, 0, acc, n, env, s);
    } else {
      ExecLeaf(mode, t, acc, env, s);
    }
  }

  lemma ApplySingle(mode: Mode, s: State, c: Cell)
    ensures Apply(mode, s, [c]) ==
      if mode.Traverse? then State(s.mem, s.visits + [c.path]) else State(s.mem[c.path := 0], s.visits)
  {
    assert Paths([c]) == [c.path];
    assert Zeroed(s.mem, [c]) == Zeroed(s.mem[c.path := 0], []);
  }

  lemma ZeroedTwo(mem: Mem, a: Cell, b: Cell)
    ensures Zeroed(mem, [a, b]) == mem[a.path := 0][b.path := 0]
  {
    assert [a, b][1..] == [b] && [b][1..] == [];
    assert Zeroed(mem[a.path := 0], [b]) == Zeroed(mem[a.path := 0][b.path := 0], []);
  }

  lemma ExecLeaf(mode: Mode, t: Type, acc: Path, env: Env, s: State)
    requires !t.Wrapper? && !t.ArrayOf? && !t.Object? && !t.Tuple?
    ensures Exec(LeafCode(mode, t, acc), env, s) == Apply(mode, s, LeafCells(mode, t, Eval(acc, env)))
  {
    var p := Eval(acc, env);
    var cs := LeafCells(mode, t, p);
    EvalStepOn(acc, env, ClE);
    EvalStepOn(acc, env, ClP);
    if t.Closure? && mode.Reset? {
      assert [Put(acc + [ClE]), Put(acc + [ClP])][1..] == [Put(acc + [ClP])];
      ExecSingle(Put(acc + [ClP]), env, ExecOne(Put(acc + [ClE]), env, s));
      ZeroedTwo(s.mem, Cell(p + [ClE], true), Cell(p + [ClP], false));
    } else if LeafCode(mode, t, acc) != [] {
      assert LeafCode(mode, t, acc) == [LeafCode(mode, t, acc)[0]] && cs == [cs[0]];
      ExecSingle(LeafCode(mode, t, acc)[0], env, s);
      ApplySingle(mode, s, cs[0]);
    } else {
      assert cs == [];
    }
  }

  lemma ExecArray(mode: Mode, rangeCase: bool, len: nat, elem: Type, acc: Path, n: nat, env: Env, s: State)
    requires WellFormed(elem) && Fresh(acc, n)
    ensures Exec(GenType(mode, rangeCase, ArrayOf(len, elem), acc, n).code, env, s) ==
      Apply(mode, s, CellsFrom(mode, elem, Eval(acc, env), 0, len, s.mem))
    decreases elem, 3
  {
    var g := GenType(mode, rangeCase, elem, acc + [Var(n)], n + 1);
    if mode.Traverse? && g.code == [] {
      NothingThere(rangeCase, elem, acc, n, env, 0, len, s);
      ApplyNone(mode, s);
    } else {
      ExecLoop(mode, rangeCase, elem, acc, n, env, 0, len, s);
      ExecSingle(For(n, len, g.code), env, s);
    }
  }

  /** Where the loop body is empty, no element holds anything to visit: leaving the loop out is right. */
  lemma {:induction false} NothingThere(rangeCase: bool, elem: Type, acc: Path, n: nat, env: Env, i: nat, len: nat,
                                        s: State)
    requires WellFormed(elem) && Fresh(acc, n) && GenType(Traverse, rangeCase, elem, acc + [Var(n)], n + 1).code == []
    ensures CellsFrom(Traverse, elem, Eval(acc, env), i, len, s.mem) == []
    decreases elem, 2, len - i
  {
    if i < len {
      ExecType(Traverse, rangeCase, elem, acc + [Var(n)], n + 1, env[n := i], s);
      EvalLoop(acc, env, n, i);
      var cs := Cells(Traverse, elem, Eval(acc, env) + [Idx(i)], s.mem);
      assert |s.visits + Paths(cs)| == |s.visits| + |cs|;
      NothingThere(rangeCase, elem, acc, n, env, i + 1, len, s);
    }
  }

  lemma LoopUnfolds(mode: Mode, body: seq<Stmt>, elem: Type, n: nat, p: Path, env: Env, i: nat, len: nat, s: State)
    ensures Loop(body, n, i, len, env, s) == if i >= len then s
      else Loop(body, n, i + 1, len, env, Exec(body, env[n := i], s))
    ensures CellsFrom(mode, elem, p, i, len, s.mem) ==
      if i >= len then [] else Cells(mode, elem, p + [Idx(i)], s.mem) + CellsFrom(mode, elem, p, i + 1, len, s.mem)
  {
  }

  lemma {:induction false} ExecLoop(mode: Mode, rangeCase: bool, elem: Type, acc: Path, n: nat, env: Env, i: nat,
                                    len: nat, s: State)
    requires WellFormed(elem) && Fresh(acc, n)
    ensures Loop(GenType(mode, rangeCase, elem, acc + [Var(n)], n + 1).code, n, i, len, env, s) ==
      Apply(mode, s, CellsFrom(mode, elem, Eval(acc, env), i, len, s.mem))
    decreases elem, 2, len - i
  {
    var body := GenType(mode, rangeCase, elem, acc + [Var(n)], n + 1).code;
    var p := Eval(acc, env);
    LoopUnfolds(mode, body, elem, n, p, env, i, len, s);
    hide GenType, Cells, CellsFrom, Exec, Loop, Apply, WellFormed;
    if i < len {
      ExtendFresh(acc, n);
      ExecType(mode, rangeCase, elem, acc + [Var(n)], n + 1, env[n := i], s);
      EvalLoop(acc, env, n, i);
      var cs := Cells(mode, elem, p + [Idx(i)], s.mem);
      var s1 := Apply(mode, s, cs);
      CellsUnder(mode, elem, p + [Idx(i)], s.mem);
      StepUnder(cs, p, Idx(i));
      forall k: nat | i + 1 <= k ensures Agree(s.mem, s1.mem, p + [Idx(k)]) {
        OtherStep(mode, s, cs, p, Idx(k));
      }
      FromFrame(mode, elem, p, i + 1, len, s.mem, s1.mem);
      ExecLoop(mode, rangeCase, elem, acc, n, env, i + 1, len, s1);
      ApplyConcat(mode, s, cs, CellsFrom(mode, elem, p, i + 1, len, s.mem));
    } else {
      ApplyNone(mode, s);
    }
  }

  lemma ObjectUnfolds(mode: Mode, rangeCase: bool, t: Type, acc: Path, n: nat, p: Path, mem: Mem)
    requires t.Object?
    ensures var gb := if t.base.Some? then GenType(mode, rangeCase, t.base.value, acc + [Sup], n) else Gen([], n);
      GenType(mode, rangeCase, t, acc, n).code == gb.code + GenRecord(mode, rangeCase, t.rec, acc, gb.vars).code
    ensures Cells(mode, t, p, mem) ==
      (if t.base.Some? then Cells(mode, t.base.value, p + [Sup], mem) else []) + RecordCells(mode, t.rec, p, mem)
  {
  }

  lemma ExecObject(mode: Mode, rangeCase: bool, t: Type, acc: Path, n: nat, env: Env, s: State)
    requires t.Object? && WellFormed(t) && Fresh(acc, n)
    ensures Exec(GenType(mode, rangeCase, t, acc, n).code, env, s) ==
      Apply(mode, s, Cells(mode, t, Eval(acc, env), s.mem))
    decreases t, 0
  {
    hide GenType, GenRecord, Cells, RecordCells, Exec, Apply;
    var p := Eval(acc, env);
    ObjectUnfolds(mode, rangeCase, t, acc, n, p, s.mem);
    var gb := if t.base.Some? then GenType(mode, rangeCase, t.base.value, acc + [Sup], n) else Gen([], n);
    var gr := GenRecord(mode, rangeCase, t.rec, acc, gb.vars);
    var a, b := if t.base.Some? then Cells(mode, t.base.value, p + [Sup], s.mem) else [],
      RecordCells(mode, t.rec, p, s.mem);
    ExecConcat(gb.code, gr.code, env, s);
    var s1 := Apply(mode, s, a);
    if t.base.Some? {
      EvalStepOn(acc, env, Sup);
      ExecType(mode, rangeCase, t.base.value, acc + [Sup], n, env, s);
      CellsUnder(mode, t.base.value, p + [Sup], s.mem);
      StepUnder(a, p, Sup);
    } else {
      ExecNothing(env, s);
      ApplyNone(mode, s);
    }
    forall id | id in Ids(t.rec) ensures Agree(s.mem, s1.mem, p + [Fld(id)]) {
      OtherStep(mode, s, a, p, Fld(id));
    }
    RecordFrame(mode, t.rec, p, s.mem, s1.mem);
    FreshMore(acc, n, gb.vars);
    ExecRecord(mode, rangeCase, t.rec, acc, gb.vars, env, s1);
    ApplyConcat(mode, s, a, b);
  }

  lemma ExtendFresh(acc: Path, n: nat)
    requires Fresh(acc, n)
    ensures Fresh(acc + [Var(n)], n + 1)
  {
  }

  lemma FreshMore(acc: Path, n: nat, m: nat)
    requires Fresh(acc, n) && n <= m
    ensures Fresh(acc, m)
  {
  }

  lemma ExecNothing(env: Env, s: State)
    ensures Exec([], env, s) == s
  {
  }

  lemma ItemsUnfold(mode: Mode, rangeCase: bool, ts: seq<Type>, k: nat, acc: Path, n: nat, p: Path, mem: Mem)
    requires ts != []
    ensures var g := GenType(mode, rangeCase, ts[0], acc + [Item(k)], n);
      GenItems(mode, rangeCase, ts, k, acc, n).code ==
        g.code + GenItems(mode, rangeCase, ts[1..], k + 1, acc, g.vars).code && g.vars >= n
    ensures ItemCells(mode, ts, k, p, mem) == Cells(mode, ts[0], p + [Item(k)], mem) +
      ItemCells(mode, ts[1..], k + 1, p, mem)
  {
  }

  lemma {:induction false} ExecItems(mode: Mode, rangeCase: bool, ts: seq<Type>, k: nat, acc: Path, n: nat, env: Env,
                                     s: State)
    requires WellFormedAll(ts) && Fresh(acc, n)
    ensures Exec(GenItems(mode, rangeCase, ts, k, acc, n).code, env, s) ==
      Apply(mode, s, ItemCells(mode, ts, k, Eval(acc, env), s.mem))
    decreases ts, 2
  {
    if ts == [] {
      ApplyNone(mode, s);
    } else {
      hide GenType, GenItems, Cells, ItemCells, Exec, Apply;
      var p := Eval(acc, env);
      ItemsUnfold(mode, rangeCase, ts, k, acc, n, p, s.mem);
      var g := GenType(mode, rangeCase, ts[0], acc + [Item(k)], n);
      var a, b := Cells(mode, ts[0], p + [Item(k)], s.mem), ItemCells(mode, ts[1..], k + 1, p, s.mem);
      ExecConcat(g.code, GenItems(mode, rangeCase, ts[1..], k + 1, acc, g.vars).code, env, s);
      EvalStepOn(acc, env, Item(k));
      ExecType(mode, rangeCase, ts[0], acc + [Item(k)], n, env, s);
      CellsUnder(mode, ts[0], p + [Item(k)], s.mem);
      StepUnder(a, p, Item(k));
      var s1 := Apply(mode, s, a);
      forall j: nat | k + 1 <= j ensures Agree(s.mem, s1.mem, p + [Item(j)]) {
        OtherStep(mode, s, a, p, Item(j));
      }
      ItemsFrame(mode, ts[1..], k + 1, p, s.mem, s1.mem);
      FreshMore(acc, n, g.vars);
      ExecItems(mode, rangeCase, ts[1..], k + 1, acc, g.vars, env, s1);
      ApplyConcat(mode, s, a, b);
    }
  }

  lemma {:induction false} ExecRecord(mode: Mode, rangeCase: bool, r: Record, acc: Path, n: nat, env: Env, s: State)
    requires WellFormedRecord(r) && Fresh(acc, n)
    ensures Exec(GenRecord(mode, rangeCase, r, acc, n).code, env, s) ==
      Apply(mode, s, RecordCells(mode, r, Eval(acc, env), s.mem))
    decreases r, 1
  {
    if r.RecList? {
      ExecRecords(mode, rangeCase, r.items, acc, n, env, s);
    } else if r.RecCase? {
      ExecCase(mode, rangeCase, r, acc, n, env, s);
    } else if r.RecField? {
      EvalStepOn(acc, env, Fld(r.id));
      ExecType(mode, rangeCase, r.typ, acc + [Fld(r.id)], n, env, s);
    } else {
      ApplyNone(mode, s);
    }
  }

  lemma RecordsUnfold(mode: Mode, rangeCase: bool, rs: seq<Record>, acc: Path, n: nat, p: Path, mem: Mem)
    requires rs != []
    ensures var g := GenRecord(mode, rangeCase, rs[0], acc, n);
      GenRecords(mode, rangeCase, rs, acc, n).code == g.code + GenRecords(mode, rangeCase, rs[1..], acc, g.vars).code
        && g.vars >= n
    ensures RecordsCells(mode, rs, p, mem) == RecordCells(mode, rs[0], p, mem) + RecordsCells(mode, rs[1..], p, mem)
  {
  }

  lemma {:induction false} ExecRecords(mode: Mode, rangeCase: bool, rs: seq<Record>, acc: Path, n: nat, env: Env,
                                       s: State)
    requires WellFormedRecords(rs) && Fresh(acc, n)
    ensures Exec(GenRecords(mode, rangeCase, rs, acc, n).code, env, s) ==
      Apply(mode, s, RecordsCells(mode, rs, Eval(acc, env), s.mem))
    decreases rs, 2
  {
    if rs == [] {
      ApplyNone(mode, s);
    } else {
      hide GenRecord, GenRecords, RecordCells, RecordsCells, Exec, Apply;
      var p := Eval(acc, env);
      RecordsUnfold(mode, rangeCase, rs, acc, n, p, s.mem);
      var g := GenRecord(mode, rangeCase, rs[0], acc, n);
      var a, b := RecordCells(mode, rs[0], p, s.mem), RecordsCells(mode, rs[1..], p, s.mem);
      ExecConcat(g.code, GenRecords(mode, rangeCase, rs[1..], acc, g.vars).code, env, s);
      ExecRecord(mode, rangeCase, rs[0], acc, n, env, s);
      RecordUnder(mode, rs[0], p, s.mem);
      var s1 := Apply(mode, s, a);
      FieldsAgree(mode, s, a, p, Ids(rs[0]), IdsAll(rs[1..]));
      RecordsFrame(mode, rs[1..], p, s.mem, s1.mem);
      FreshMore(acc, n, g.vars);
      ExecRecords(mode, rangeCase, rs[1..], acc, g.vars, env, s1);
      ApplyConcat(mode, s, a, b);
    }
  }

  /** The body of branch `k` handles the places of that branch. */
  lemma {:induction false} ExecBranch(mode: Mode, rangeCase: bool, bs: seq<Record>, k: nat, acc: Path, n: nat,
                                      env: Env, s: State)
    requires WellFormedBranches(bs) && Fresh(acc, n) && k < |bs|
    ensures Exec(GenBranches(mode, rangeCase, bs, acc, n).bodies[k].code, env, s) ==
      Apply(mode, s, BranchCells(mode, bs, Some(k), Eval(acc, env), s.mem))
    decreases bs, 2
  {
    var g := GenRecord(mode, rangeCase, bs[0], acc, n);
    if k == 0 {
      ExecRecord(mode, rangeCase, bs[0], acc, n, env, s);
    } else {
      FreshMore(acc, n, g.vars);
      ExecBranch(mode, rangeCase, bs[1..], k - 1, acc, g.vars, env, s);
    }
  }

  lemma CaseUnfolds(mode: Mode, rangeCase: bool, r: Record, acc: Path, n: nat, p: Path, mem: Mem)
    requires r.RecCase?
    ensures var ga := GenBranches(mode, rangeCase, r.bodies, acc, n);
      var sw := Switch(acc + [Fld(r.disc)], CaseCode.Arms(r.sels, 0, |r.sels|, rangeCase), ga.bodies);
      GenRecord(mode, rangeCase, r, acc, n).code ==
        [sw] + if mode.Reset? then GenType(mode, rangeCase, r.discType, acc + [Fld(r.disc)], ga.vars).code else []
    ensures RecordCells(mode, r, p, mem) ==
      BranchCells(mode, r.bodies, Active(r.sels, mem, p + [Fld(r.disc)]), p, mem)
      + if mode.Reset? then Cells(mode, r.discType, p + [Fld(r.disc)], mem) else []
  {
  }

  lemma ExecCase(mode: Mode, rangeCase: bool, r: Record, acc: Path, n: nat, env: Env, s: State)
    requires r.RecCase? && WellFormedRecord(r) && Fresh(acc, n)
    ensures Exec(GenRecord(mode, rangeCase, r, acc, n).code, env, s) ==
      Apply(mode, s, RecordCells(mode, r, Eval(acc, env), s.mem))
    decreases r, 0
  {
    hide GenRecord, GenType, GenBranches, RecordCells, Cells, BranchCells, Exec, Apply;
    var p := Eval(acc, env);
    var ga := GenBranches(mode, rangeCase, r.bodies, acc, n);
    var sw := Switch(acc + [Fld(r.disc)], CaseCode.Arms(r.sels, 0, |r.sels|, rangeCase), ga.bodies);
    var gd := if mode.Reset? then GenType(mode, rangeCase, r.discType, acc + [Fld(r.disc)], ga.vars).code else [];
    CaseUnfolds(mode, rangeCase, r, acc, n, p, s.mem);
    var a := BranchCells(mode, r.bodies, Active(r.sels, s.mem, p + [Fld(r.disc)]), p, s.mem);
    var b := if mode.Reset? then Cells(mode, r.discType, p + [Fld(r.disc)], s.mem) else [];
    ExecConcat([sw], gd, env, s);
    EvalStepOn(acc, env, Fld(r.disc));
    ExecSwitch(mode, rangeCase, r, acc, n, env, s);
    var s1 := Apply(mode, s, a);
    if mode.Reset? {
      BranchUnder(mode, r.bodies, Active(r.sels, s.mem, p + [Fld(r.disc)]), p, s.mem);
      FieldsAgree(mode, s, a, p, IdsAll(r.bodies), {r.disc});
      CellsFrame(mode, r.discType, p + [Fld(r.disc)], s.mem, s1.mem);
      PlainIsWellFormed(r.discType);
      FreshMore(acc, n, ga.vars);
      ExecType(mode, rangeCase, r.discType, acc + [Fld(r.disc)], ga.vars, env, s1);
    } else {
      ExecNothing(env, s1);
      ApplyNone(mode, s1);
    }
    ApplyConcat(mode, s, a, b);
  }

  lemma {:induction false} PlainIsWellFormed(t: Type)
    requires PlainDisc(t)
    ensures WellFormed(t)
  {
    if t.Wrapper? {
      PlainIsWellFormed(t.t);
    }
  }

  lemma ExecSwitch(mode: Mode, rangeCase: bool, r: Record, acc: Path, n: nat, env: Env, s: State)
    requires r.RecCase? && WellFormedRecord(r) && Fresh(acc, n)
    ensures var p := Eval(acc, env);
      var sw := Switch(acc + [Fld(r.disc)], CaseCode.Arms(r.sels, 0, |r.sels|, rangeCase),
        GenBranches(mode, rangeCase, r.bodies, acc, n).bodies);
      Exec([sw], env, s) ==
        Apply(mode, s, BranchCells(mode, r.bodies, Active(r.sels, s.mem, p + [Fld(r.disc)]), p, s.mem))
    decreases r.bodies, 3
  {
    hide GenBranches, Apply, CaseCode.SwitchTo, CaseCode.Arms, CaseCode.Select;
    var p := Eval(acc, env);
    var bodies := GenBranches(mode, rangeCase, r.bodies, acc, n).bodies;
    var sw := Switch(acc + [Fld(r.disc)], CaseCode.Arms(r.sels, 0, |r.sels|, rangeCase), bodies);
    EvalStepOn(acc, env, Fld(r.disc));
    var v := CaseCode.Ord(Read(s.mem, p + [Fld(r.disc)]));
    assert r.sels[0..|r.sels|] == r.sels;
    CaseProof.ArmsMean(r.sels, 0, |r.sels|, rangeCase, v);
    CaseCode.SelectIs(r.sels, v);
    var hit := CaseCode.Select(r.sels, v);
    ExecSingle(sw, env, s);
    if hit.Some? {
      ExecBranch(mode, rangeCase, r.bodies, hit.value, acc, n, env, s);
    } else {
      ApplyNone(mode, s);
    }
  }

  // ---------- both walks see the same references ----------

  function Traced(cs: seq<Cell>): seq<Cell> {
    if cs == [] then [] else (if cs[0].traced then [cs[0]] else []) + Traced(cs[1..])
  }

  lemma {:induction false} TracedConcat(a: seq<Cell>, b: seq<Cell>)
    ensures Traced(a + b) == Traced(a) + Traced(b)
  {
    if a == [] {
      assert a + b == b;
    } else {
      assert (a + b)[0] == a[0] && (a + b)[1..] == a[1..] + b;
      TracedConcat(a[1..], b);
    }
  }

  lemma LeafTraced(t: Type, p: Path)
    ensures Traced(LeafCells(Reset, t, p)) == LeafCells(Traverse, t, p)
  {
    var cs := LeafCells(Reset, t, p);
    if |cs| == 2 {
      assert cs == [cs[0]] + [cs[1]];
      TracedConcat([cs[0]], [cs[1]]);
      assert [cs[0]][1..] == [] && [cs[1]][1..] == [];
    } else if |cs| == 1 {
      assert cs[1..] == [];
    }
  }

  lemma {:induction false} PlainNotTraced(t: Type, p: Path, mem: Mem)
    requires PlainDisc(t)
    ensures Traced(Cells(Reset, t, p, mem)) == []
  {
    if t.Wrapper? {
      PlainNotTraced(t.t, p, mem);
    } else {
      LeafTraced(t, p);
    }
  }

  /** What the marker code visits is what the reset code clears, less what holds no traced reference. */
  lemma {:induction false} SameReferences(t: Type, p: Path, mem: Mem)
    requires WellFormed(t)
    ensures Traced(Cells(Reset, t, p, mem)) == Cells(Traverse, t, p, mem)
    decreases t, 0
  {
    if t.Wrapper? {
      SameReferences(t.t, p, mem);
    } else if t.ArrayOf? {
      SameFrom(t.elem, p, 0, t.n, mem);
    } else if t.Object? {
      if t.base.Some? {
        SameReferences(t.base.value, p + [Sup], mem);
      }
      SameRecord(t.rec, p, mem);
      TracedConcat(if t.base.Some? then Cells(Reset, t.base.value, p + [Sup], mem) else [],
        RecordCells(Reset, t.rec, p, mem));
    } else if t.Tuple? {
      SameItems(t.items, 0, p, mem);
    } else {
      LeafTraced(t, p);
    }
  }

  lemma {:induction false} SameFrom(elem: Type, p: Path, i: nat, len: nat, mem: Mem)
    requires WellFormed(elem)
    ensures Traced(CellsFrom(Reset, elem, p, i, len, mem)) == CellsFrom(Traverse, elem, p, i, len, mem)
    decreases elem, 2, len - i
  {
    if i < len {
      SameReferences(elem, p + [Idx(i)], mem);
      SameFrom(elem, p, i + 1, len, mem);
      TracedConcat(Cells(Reset, elem, p + [Idx(i)], mem), CellsFrom(Reset, elem, p, i + 1, len, mem));
    }
  }

  lemma {:induction false} SameItems(ts: seq<Type>, k: nat, p: Path, mem: Mem)
    requires WellFormedAll(ts)
    ensures Traced(ItemCells(Reset, ts, k, p, mem)) == ItemCells(Traverse, ts, k, p, mem)
    decreases ts, 1
  {
    if ts != [] {
      SameReferences(ts[0], p + [Item(k)], mem);
      SameItems(ts[1..], k + 1, p, mem);
      TracedConcat(Cells(Reset, ts[0], p + [Item(k)], mem), ItemCells(Reset, ts[1..], k + 1, p, mem));
    }
  }

  lemma {:induction false} SameRecord(r: Record, p: Path, mem: Mem)
    requires WellFormedRecord(r)
    ensures Traced(RecordCells(Reset, r, p, mem)) == RecordCells(Traverse, r, p, mem)
    decreases r, 0
  {
    if r.RecList? {
      SameRecords(r.items, p, mem);
    } else if r.RecCase? {
      var active := Active(r.sels, mem, p + [Fld(r.disc)]);
      SameBranch(r.bodies, active, p, mem);
      PlainNotTraced(r.discType, p + [Fld(r.disc)], mem);
      TracedConcat(BranchCells(Reset, r.bodies, active, p, mem), Cells(Reset, r.discType, p + [Fld(r.disc)], mem));
    } else if r.RecField? {
      SameReferences(r.typ, p + [Fld(r.id)], mem);
    }
  }

  lemma {:induction false} SameRecords(rs: seq<Record>, p: Path, mem: Mem)
    requires WellFormedRecords(rs)
    ensures Traced(RecordsCells(Reset, rs, p, mem)) == RecordsCells(Traverse, rs, p, mem)
    decreases rs, 1
  {
    if rs != [] {
      SameRecord(rs[0], p, mem);
      SameRecords(rs[1..], p, mem);
      TracedConcat(RecordCells(Reset, rs[0], p, mem), RecordsCells(Reset, rs[1..], p, mem));
    }
  }

  lemma {:induction false} SameBranch(bs: seq<Record>, active: Option<nat>, p: Path, mem: Mem)
    requires WellFormedBranches(bs)
    ensures Traced(BranchCells(Reset, bs, active, p, mem)) == BranchCells(Traverse, bs, active, p, mem)
    decreases bs, 1
  {
    if bs != [] && active.Some? {
      if active.value == 0 {
        SameRecord(bs[0], p, mem);
      } else {
        SameBranch(bs[1..], Some(active.value - 1), p, mem);
      }
    }
  }

  // ---------- no place twice ----------

  ghost predicate Once(cs: seq<Cell>) {
    forall i, j | 0 <= i < j < |cs| :: cs[i].path != cs[j].path
  }

  lemma OnceConcat(a: seq<Cell>, b: seq<Cell>)
    requires Once(a) && Once(b)
    requires forall i, j | 0 <= i < |a| && 0 <= j < |b| :: a[i].path != b[j].path
    ensures Once(a + b)
  {
  }

  /** Parts that branch off at different steps below `p` share no place. */
  lemma OnceApart(a: seq<Cell>, b: seq<Cell>, p: Path)
    requires Once(a) && Once(b) && AllUnder(a, p) && AllUnder(b, p)
    requires forall i, j | 0 <= i < |a| && 0 <= j < |b| ::
      |a[i].path| > |p| && |b[j].path| > |p| && a[i].path[|p|] != b[j].path[|p|]
    ensures Once(a + b)
  {
    OnceConcat(a, b);
  }

  lemma LeafOnce(mode: Mode, t: Type, p: Path)
    ensures Once(LeafCells(mode, t, p))
  {
    assert (p + [ClE])[|p|] != (p + [ClP])[|p|];
  }

  lemma {:induction false} CellsOnce(mode: Mode, t: Type, p: Path, mem: Mem)
    requires WellFormed(t)
    ensures Once(Cells(mode, t, p, mem))
    decreases t, 0
  {
    if t.Wrapper? {
      CellsOnce(mode, t.t, p, mem);
    } else if t.ArrayOf? {
      FromOnce(mode, t.elem, p, 0, t.n, mem);
    } else if t.Object? {
      RecordOnce(mode, t.rec, p, mem);
      if t.base.Some? {
        CellsOnce(mode, t.base.value, p + [Sup], mem);
        CellsUnder(mode, t.base.value, p + [Sup], mem);
        StepUnder(Cells(mode, t.base.value, p + [Sup], mem), p, Sup);
        RecordUnder(mode, t.rec, p, mem);
        OnceApart(Cells(mode, t.base.value, p + [Sup], mem), RecordCells(mode, t.rec, p, mem), p);
      }
    } else if t.Tuple? {
      ItemsOnce(mode, t.items, 0, p, mem);
    } else {
      LeafOnce(mode, t, p);
    }
  }

  lemma {:induction false} FromOnce(mode: Mode, elem: Type, p: Path, i: nat, len: nat, mem: Mem)
    requires WellFormed(elem)
    ensures Once(CellsFrom(mode, elem, p, i, len, mem))
    decreases elem, 2, len - i
  {
    if i < len {
      CellsOnce(mode, elem, p + [Idx(i)], mem);
      FromOnce(mode, elem, p, i + 1, len, mem);
      CellsUnder(mode, elem, p + [Idx(i)], mem);
      StepUnder(Cells(mode, elem, p + [Idx(i)], mem), p, Idx(i));
      FromUnder(mode, elem, p, i + 1, len, mem);
      OnceApart(Cells(mode, elem, p + [Idx(i)], mem), CellsFrom(mode, elem, p, i + 1, len, mem), p);
    }
  }

  lemma {:induction false} ItemsOnce(mode: Mode, ts: seq<Type>, k: nat, p: Path, mem: Mem)
    requires WellFormedAll(ts)
    ensures Once(ItemCells(mode, ts, k, p, mem))
    decreases ts, 1
  {
    if ts != [] {
      CellsOnce(mode, ts[0], p + [Item(k)], mem);
      ItemsOnce(mode, ts[1..], k + 1, p, mem);
      CellsUnder(mode, ts[0], p + [Item(k)], mem);
      StepUnder(Cells(mode, ts[0], p + [Item(k)], mem), p, Item(k));
      ItemsUnder(mode, ts[1..], k + 1, p, mem);
      OnceApart(Cells(mode, ts[0], p + [Item(k)], mem), ItemCells(mode, ts[1..], k + 1, p, mem), p);
    }
  }

  lemma {:induction false} RecordOnce(mode: Mode, r: Record, p: Path, mem: Mem)
    requires WellFormedRecord(r)
    ensures Once(RecordCells(mode, r, p, mem))
    decreases r, 0
  {
    if r.RecList? {
      RecordsOnce(mode, r.items, p, mem);
    } else if r.RecCase? {
      var active := Active(r.sels, mem, p + [Fld(r.disc)]);
      var b := Cells(mode, r.discType, p + [Fld(r.disc)], mem);
      BranchOnce(mode, r.bodies, active, p, mem);
      BranchUnder(mode, r.bodies, active, p, mem);
      PlainIsWellFormed(r.discType);
      CellsOnce(mode, r.discType, p + [Fld(r.disc)], mem);
      CellsUnder(mode, r.discType, p + [Fld(r.disc)], mem);
      StepUnder(b, p, Fld(r.disc));
      OnceApart(BranchCells(mode, r.bodies, active, p, mem), b, p);
    } else if r.RecField? {
      CellsOnce(mode, r.typ, p + [Fld(r.id)], mem);
    }
  }

  lemma {:induction false} RecordsOnce(mode: Mode, rs: seq<Record>, p: Path, mem: Mem)
    requires WellFormedRecords(rs)
    ensures Once(RecordsCells(mode, rs, p, mem))
    decreases rs, 1
  {
    if rs != [] {
      RecordOnce(mode, rs[0], p, mem);
      RecordsOnce(mode, rs[1..], p, mem);
      RecordUnder(mode, rs[0], p, mem);
      RecordsUnder(mode, rs[1..], p, mem);
      OnceApart(RecordCells(mode, rs[0], p, mem), RecordsCells(mode, rs[1..], p, mem), p);
    }
  }

  lemma {:induction false} BranchOnce(mode: Mode, bs: seq<Record>, active: Option<nat>, p: Path, mem: Mem)
    requires WellFormedBranches(bs)
    ensures Once(BranchCells(mode, bs, active, p, mem))
    decreases bs, 1
  {
    if bs != [] && active.Some? {
      if active.value == 0 {
        RecordOnce(mode, bs[0], p, mem);
      } else {
        BranchOnce(mode, bs[1..], Some(active.value - 1), p, mem);
      }
    }
  }

  // ---------- the theorems ----------

  /** The marker code visits every traced reference of the value, in layout order and once each. */
  lemma MarkerVisits(rangeCase: bool, t: Type, acc: Path, n: nat, env: Env, mem: Mem)
    requires WellFormed(t) && Fresh(acc, n)
    ensures var s := Exec(GenType(Traverse, rangeCase, t, acc, n).code, env, State(mem, []));
      && s.mem == mem
      && s.visits == Paths(Cells(Traverse, t, Eval(acc, env), mem))
      && forall i, j | 0 <= i < j < |s.visits| :: s.visits[i] != s.visits[j]
  {
    ExecType(Traverse, rangeCase, t, acc, n, env, State(mem, []));
    CellsOnce(Traverse, t, Eval(acc, env), mem);
    var cs := Cells(Traverse, t, Eval(acc, env), mem);
    assert [] + Paths(cs) == Paths(cs);
  }

  /**
   The reset code clears exactly the places of the value, as its discriminators
   selected them before; among them all that the marker code would have visited.
   */
  lemma ResetClears(rangeCase: bool, t: Type, acc: Path, n: nat, env: Env, mem: Mem, q: Path)
    requires WellFormed(t) && Fresh(acc, n)
    ensures var s := Exec(GenType(Reset, rangeCase, t, acc, n).code, env, State(mem, []));
      var cs := Cells(Reset, t, Eval(acc, env), mem);
      && s.visits == []
      && (q in Paths(cs) ==> q in s.mem && s.mem[q] == 0)
      && (q !in Paths(cs) ==> if q in mem then q in s.mem && s.mem[q] == mem[q] else q !in s.mem)
      && (q in Paths(Cells(Traverse, t, Eval(acc, env), mem)) ==> q in Paths(cs))
  {
    hide Cells, Exec, GenType, WellFormed;
    var p := Eval(acc, env);
    var cs := Cells(Reset, t, p, mem);
    ExecType(Reset, rangeCase, t, acc, n, env, State(mem, []));
    ZeroedMeans(mem, cs, q);
    assert (exists i :: 0 <= i < |cs| && cs[i].path == q) <==> q in Paths(cs) by {
      if i :| 0 <= i < |cs| && cs[i].path == q {
        assert Paths(cs)[i] == q;
      }
    }
    SameReferences(t, p, mem);
    TracedAmong(cs, q);
  }

  lemma {:induction false} TracedAmong(cs: seq<Cell>, q: Path)
    ensures q in Paths(Traced(cs)) ==> q in Paths(cs)
  {
    if cs != [] && q in Paths(Traced(cs)) {
      var ts := Traced(cs);
      var i :| 0 <= i < |ts| && Paths(ts)[i] == q;
      if cs[0].traced && i == 0 {
        assert Paths(cs)[0] == q;
      } else {
        var rest := Traced(cs[1..]);
        var k := if cs[0].traced then i - 1 else i;
        assert ts[i] == rest[k];
        assert Paths(rest)[k] == q;
        TracedAmong(cs[1..], q);
        var j :| 0 <= j < |cs[1..]| && Paths(cs[1..])[j] == q;
        assert Paths(cs)[j + 1] == q;
      }
    }
  }
}
