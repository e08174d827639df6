/**
 The C code emitted for `TryLang` statements, as a sequence of lines, with a
 machine that runs it, and the code generator of compiler/ccgstmts.nim
 (`genTryGoto`, `raiseExit`, `raiseInstr`, `blockLeaveActions`, `genBreakStmt`,
 `genReturnStmt`, `genBlock`, `genWhileStmt`, `genIf`) as a function.

 A brace that only groups lines is dropped; a brace that control flow jumps
 over is kept as the number of lines it encloses.
 */
module TryCode {
  import opened Basics
  import opened TryLang

  /** `LA5` closes a block, `LA5_` is every other numbered label, `BeforeRet_` ends the proc. */
  datatype Label = BlockLabel(id: nat) | CodeLabel(id: nat) | BeforeRet

  /** The test of an `except` branch: isObj(...)||isObj(...) */
  datatype Test = IsObj(kind: nat) | Or(left: Test, right: Test)

  datatype Line =
    | CCall(id: nat, canRaise: bool)
    | CRaise(exn: Exn)                    // raiseExceptionEx(...)
    | CLabel(at: Label)
    | CGoto(to: Label)
    | CIfErrGoto(to: Label)               // if (*nimErr_) goto L;
    | CIfNotGoto(cond: nat, to: Label)    // if (!cond) goto L;
    | CIfErr(lines: nat)                  // if (*nimErr_) { ... }
    | CIfMatch(test: Test, lines: nat)    // if (isObj(current exception, ...)||...) { ... }
    | CElse(lines: nat)                   // } else ...
    | CClearErr                           // *nimErr_ = NIM_FALSE;
    | CPop                                // popCurrentException();
    | CSaveErr(id: nat)                   // oldNimErrFin = *nimErr_; *nimErr_ = NIM_FALSE;
    | CRestoreErr(id: nat)                // *nimErr_ = oldNimErrFin;
    | CLoop(lines: nat)                   // } of while (1) {

  type Code = seq<Line>

  // ---------- the machine ----------

  /** `exns` is the runtime's stack of current exceptions, newest first. */
  datatype State = State(pc: nat, err: bool, exns: seq<Exn>, saved: map<nat, bool>, tr: Trace)

  function Find(p: Code, l: Label): nat {
    if p == [] then 0 else if p[0] == CLabel(l) then 0 else 1 + Find(p[1..], l)
  }

  lemma {:induction false} FindFirst(p: Code, l: Label)
    ensures var i := Find(p, l);
      && i <= |p|
      && (i < |p| ==> p[i] == CLabel(l))
      && forall j | 0 <= j < i :: p[j] != CLabel(l)
  {
    if p != [] && p[0] != CLabel(l) {
      FindFirst(p[1..], l);
      var i := Find(p[1..], l);
      forall j | 0 <= j < 1 + i ensures p[j] != CLabel(l) {
        assert j > 0 ==> p[j] == p[1..][j - 1];
      }
    }
  }

  /** C evaluates the test of a branch for the current exception. */
  predicate Holds(w: World, t: Test, e: Exn) {
    match t
    case IsObj(k) => w.isObj(e.kind, k)
    case Or(a, b) => Holds(w, a, e) || Holds(w, b, e)
  }

  predicate Halted(p: Code, s: State) {
    s.pc >= |p|
  }

  /**
   One line. Where the C code would dereference nil (an empty exception stack)
   the machine stays where it is for ever.
   */
  function Step(w: World, p: Code, s: State): State {
    if Halted(p, s) then s
    else
      var next := s.(pc := s.pc + 1);
      match p[s.pc]
      case CCall(id, canRaise) =>
        var t := s.tr + [Called(id)];
        var e := w.raises(id, t);
        var exns := w.leaves(id, t) + s.exns;
        if canRaise && e.Some? then next.(tr := t, err := true, exns := [e.value] + exns)
        else next.(tr := t, exns := exns)
      case CRaise(e) => next.(err := true, exns := [e] + s.exns)
      case CLabel(_) => next
      case CGoto(l) => s.(pc := Find(p, l))
      case CIfErrGoto(l) => if s.err then s.(pc := Find(p, l)) else next
      case CIfNotGoto(c, l) =>
        var t := s.tr + [Tested(c, w.test(c, s.tr))];
        if w.test(c, s.tr) then next.(tr := t) else s.(pc := Find(p, l), tr := t)
      case CIfErr(n) => if s.err then next else s.(pc := s.pc + 1 + n)
      case CIfMatch(t, n) =>
        if s.exns == [] then s
        else if Holds(w, t, s.exns[0]) then next else s.(pc := s.pc + 1 + n)
      case CElse(n) => s.(pc := s.pc + 1 + n)
      case CClearErr => next.(err := false)
      case CPop => if s.exns == [] then s else next.(exns := s.exns[1..])
      case CSaveErr(l) => next.(saved := s.saved[l := s.err], err := false)
      case CRestoreErr(l) => if l in s.saved then next.(err := s.saved[l]) else s
      case CLoop(n) => if n <= s.pc then s.(pc := s.pc - n) else s
  }

  function Run(w: World, p: Code, s: State, steps: nat): State
    decreases steps
  {
    if steps == 0 then s else Run(w, p, Step(w, p, s), steps - 1)
  }

  lemma {:induction false} RunAdd(w: World, p: Code, s: State, a: nat, b: nat)
    ensures Run(w, p, s, a + b) == Run(w, p, Run(w, p, s, a), b)
    decreases a
  {
    if a > 0 {
      RunAdd(w, p, Step(w, p, s), a - 1, b);
    }
  }

  // ---------- the code generator ----------

  /** One element of `p.nestedTryStmts`. */
  datatype Entry = Entry(fin: Fin, inExcept: bool, lbl: nat)

  /** `p.nestedTryStmts` with the innermost `try` on top. */
  datatype TryStack = Empty | Push(top: Entry, below: TryStack)

  function Depth(st: TryStack): nat {
    if st.Empty? then 0 else 1 + Depth(st.below)
  }

  /** `inExceptBlockLen`. */
  function ExceptDepth(st: TryStack): nat {
    if st.Empty? then 0 else (if st.top.inExcept then 1 else 0) + ExceptDepth(st.below)
  }

  /** What `startBlock` records about a block that can be broken out of. */
  datatype BlockInfo = BlockInfo(id: nat, tryDepth: nat, exceptDepth: nat)
  type Env = map<nat, BlockInfo>

  function RaiseLabel(st: TryStack): Label {
    if st.Empty? then BeforeRet else CodeLabel(st.top.lbl)
  }

  // sizes, for termination: leaving a block generates copies of `finally` bodies

  function Size(s: Stmt): nat {
    match s
    case Seq(a, b) => 1 + Size(a) + Size(b)
    case If(_, a, b) => 1 + Size(a) + Size(b)
    case While(_, _, b) => 1 + Size(b)
    case Block(_, b) => 1 + Size(b)
    case Try(b, hs, f) => 1 + Size(b) + HandlersSize(hs) + FinSize(f)
    case _ => 1
  }

  function HandlersSize(hs: Handlers): nat {
    if hs.NoHandler? then 0 else 1 + Size(hs.body) + HandlersSize(hs.rest)
  }

  function FinSize(f: Fin): nat {
    if f.NoFin? then 1 else 1 + Size(f.body)
  }

  function StackSize(st: TryStack): nat {
    if st.Empty? then 0 else FinSize(st.top.fin) + StackSize(st.below)
  }

  /** Emitted lines and the label counter `p.labels` afterwards. */
  datatype Gen = Gen(code: Code, labels: nat)

  function GenStmt(s: Stmt, st: TryStack, env: Env, n: nat): (g: Gen)
    ensures g.labels >= n
    decreases Size(s) + StackSize(st), 2
  {
    match s
    case Skip => Gen([], n)
    case Call(id, canRaise) =>
      Gen([CCall(id, canRaise)] + (if canRaise then [CIfErrGoto(RaiseLabel(st))] else []), n)
    case Raise(e) => Gen([CRaise(e), CGoto(RaiseLabel(st))], n)
    case Seq(a, b) =>
      var ga := GenStmt(a, st, env, n);
      var gb := GenStmt(b, st, env, ga.labels);
      Gen(ga.code + gb.code, gb.labels)
    case If(c, a, b) =>
      var lend, lelse := n + 1, n + 3;
      var ga := GenStmt(a, st, env, n + 4);
      var gb := GenStmt(b, st, env, ga.labels + 1);
      Gen(IfCode(c, lelse, lend, ga.code, gb.code), gb.labels)
    case While(c, l, b) =>
      var info := BlockInfo(n + 1, Depth(st), ExceptDepth(st));
      var gb := GenStmt(b, st, env[l := info], n + 1);
      Gen(WhileCode(c, n + 1, gb.code), gb.labels)
    case Block(l, b) =>
      var info := BlockInfo(n + 1, Depth(st), ExceptDepth(st));
      var gb := GenStmt(b, st, env[l := info], n + 1);
      Gen(gb.code + [CLabel(BlockLabel(n + 1))], gb.labels)
    case Break(l) =>
      if l !in env then Gen([], n)
      else
        var g := GenLeave(st, env[l].tryDepth, env, n);
        Gen(g.code + (Pops(ExceptDepth(st) - env[l].exceptDepth) + [CGoto(BlockLabel(env[l].id))]), g.labels)
    case Return =>
      var g := GenLeave(st, 0, env, n);
      Gen(g.code + (Pops(ExceptDepth(st)) + [CGoto(BeforeRet)]), g.labels)
    case Try(b, hs, f) => GenTry(b, hs, f, st, env, n)
  }

  /** `genTryGoto`. */
  function GenTry(b: Stmt, hs: Handlers, f: Fin, st: TryStack, env: Env, n: nat): (g: Gen)
    ensures g.labels >= n
    decreases Size(b) + HandlersSize(hs) + FinSize(f) + StackSize(st), 3
  {
    var lab := n + 1;
    var gb := GenStmt(b, Push(Entry(f, false, lab), st), env, lab);
    var gh := GenHandlers(hs, f, st, env, gb.labels + 1);
    var gf := GenFin(f, st, env, lab, gh.labels);
    Gen(gb.code + (HandlerSection(hs, lab, gh.code) + gf.code), gf.labels)
  }

  function IfCode(c: nat, lelse: nat, lend: nat, thn: Code, els: Code): Code {
    ([CIfNotGoto(c, CodeLabel(lelse))] + thn)
    + (([CGoto(CodeLabel(lend)), CLabel(CodeLabel(lelse))] + els) + [CLabel(CodeLabel(lend))])
  }

  function WhileCode(c: nat, lend: nat, body: Code): Code {
    ([CIfNotGoto(c, BlockLabel(lend))] + body) + [CLoop(|body| + 1), CLabel(BlockLabel(lend))]
  }

  /** `if (*nimErr_) { LA: ... }`, or just the label when there is no handler. */
  function HandlerSection(hs: Handlers, lab: nat, handlers: Code): Code {
    (if hs.Handler? then [CIfErr(1 + |handlers|)] else []) + ([CLabel(CodeLabel(lab))] + handlers)
  }

  /** The handlers as an if-else chain. A raise inside a handler goes to the end of that handler. */
  function GenHandlers(hs: Handlers, f: Fin, st: TryStack, env: Env, n: nat): (g: Gen)
    ensures g.labels >= n
    decreases HandlersSize(hs) + FinSize(f) + StackSize(st), 1
  {
    if hs.NoHandler? then Gen([], n)
    else
      var next := n + 1;
      var gb := GenStmt(hs.body, Push(Entry(f, true, next), st), env, n + 2);
      var gr := GenHandlers(hs.rest, f, st, env, gb.labels);
      Gen(HandlerCode(hs.kinds, gb.code, next, |gr.code|) + gr.code, gr.labels)
  }

  /** `orExpr`: one test for each type of the branch. */
  function OrExpr(ks: Types): Test {
    var last := IsObj(ks[|ks| - 1]);
    if |ks| == 1 then last else Or(OrExpr(ks[..|ks| - 1]), last)
  }

  /** The test holds if the exception has one of the types. */
  lemma {:induction false} OrExprMeans(w: World, ks: Types, e: Exn)
    ensures Holds(w, OrExpr(ks), e) <==> exists j :: 0 <= j < |ks| && w.isObj(e.kind, ks[j])
  {
    if |ks| > 1 {
      var init := ks[..|ks| - 1];
      OrExprMeans(w, init, e);
      if j :| 0 <= j < |init| && w.isObj(e.kind, init[j]) {
        assert w.isObj(e.kind, ks[j]);
      }
      if j :| 0 <= j < |ks| && w.isObj(e.kind, ks[j]) {
        assert j < |init| ==> init[j] == ks[j];
      }
    } else {
      assert w.isObj(e.kind, ks[0]) ==> exists j :: 0 <= j < |ks| && w.isObj(e.kind, ks[j]);
    }
  }

  function HandlerCode(kinds: Kinds, code: Code, next: nat, rest: nat): Code {
    var body := HandlerBody(code, next) + [CElse(rest)];
    if kinds.All? then body else [CIfMatch(OrExpr(kinds.kinds), |body|)] + body
  }

  function HandlerBody(body: Code, next: nat): Code {
    [CClearErr] + (body + [CPop, CLabel(CodeLabel(next))])
  }

  /** The `finally` section and the final `raiseExit`. */
  function GenFin(f: Fin, st: TryStack, env: Env, lab: nat, n: nat): (g: Gen)
    ensures g.labels >= n
    decreases FinSize(f) + StackSize(st), 1
  {
    if f.NoFin? then Gen([CIfErrGoto(RaiseLabel(st))], n)
    else
      var g := GenStmt(f.body, st, env, n + 1);
      Gen((if CanRaise(f.body) then [CSaveErr(lab)] + (g.code + [CRestoreErr(lab)]) else g.code)
          + [CIfErrGoto(RaiseLabel(st))], g.labels)
  }

  /** `blockLeaveActions`: copies of the `finally` bodies above `depth`, innermost first. */
  function GenLeave(st: TryStack, depth: nat, env: Env, n: nat): (g: Gen)
    ensures g.labels >= n
    decreases StackSize(st), 1
  {
    if Depth(st) <= depth then Gen([], n)
    else if st.top.fin.NoFin? then GenLeave(st.below, depth, env, n)
    else
      var g := GenStmt(st.top.fin.body, st.below, env, n);
      var gr := GenLeave(st.below, depth, env, g.labels);
      Gen(g.code + gr.code, gr.labels)
  }

  function Pops(n: int): (c: Code)
    ensures |c| == if n > 0 then n else 0
  {
    if n <= 0 then [] else [CPop] + Pops(n - 1)
  }

  /** The proc: its body, then `BeforeRet_: ;`. */
  function Compile(s: Stmt): Code {
    GenStmt(s, Empty, map[], 0).code + [CLabel(BeforeRet)]
  }

  // ---------- labels are unique ----------

  function IdOf(l: Label): nat {
    if l.BeforeRet? then 0 else l.id
  }

  /** No label is emitted twice, and all their numbers are in `ids`. */
  ghost predicate Labels(c: Code, ids: set<nat>) {
    && (forall i | 0 <= i < |c| && c[i].CLabel? :: IdOf(c[i].at) in ids)
    && (forall i, j | 0 <= i < j < |c| && c[i].CLabel? && c[j].CLabel? :: IdOf(c[i].at) != IdOf(c[j].at))
  }

  ghost function Between(lo: nat, hi: nat): (r: set<nat>)
    ensures forall x :: x in r <==> lo < x <= hi
  {
    if hi <= lo then {} else Between(lo, hi - 1) + {hi}
  }

  lemma FindUnique(p: Code, i: nat, ids: set<nat>)
    requires Labels(p, ids) && i < |p| && p[i].CLabel?
    ensures Find(p, p[i].at) == i
  {
    FindFirst(p, p[i].at);
    var j := Find(p, p[i].at);
    assert j <= i;
  }

  lemma LabelsConcat(a: Code, s: set<nat>, b: Code, t: set<nat>, u: set<nat>)
    requires Labels(a, s) && Labels(b, t) && s !! t && s + t <= u
    ensures Labels(a + b, u)
  {
    var c := a + b;
    forall i | 0 <= i < |c| && c[i].CLabel? ensures IdOf(c[i].at) in u {
      assert c[i] == if i < |a| then a[i] else b[i - |a|];
      assert IdOf(c[i].at) in s + t;
    }
    forall i, j | 0 <= i < j < |c| && c[i].CLabel? && c[j].CLabel? ensures IdOf(c[i].at) != IdOf(c[j].at) {
      assert c[i] == if i < |a| then a[i] else b[i - |a|];
      assert c[j] == if j < |a| then a[j] else b[j - |a|];
    }
  }

  /** A few lines, at most one of them a label. */
  lemma LabelsFew(c: Code, ids: set<nat>)
    requires forall i | 0 <= i < |c| && c[i].CLabel? :: IdOf(c[i].at) in ids
    requires forall i, j | 0 <= i < |c| && 0 <= j < |c| && c[i].CLabel? && c[j].CLabel? :: i == j
    ensures Labels(c, ids)
  {
  }

  lemma {:induction false} GenLabels(s: Stmt, st: TryStack, env: Env, n: nat)
    ensures var g := GenStmt(s, st, env, n); Labels(g.code, Between(n, g.labels))
    decreases Size(s) + StackSize(st), 2
  {
    hide Labels, Between, Pops, IfCode;
    if s.Skip? || s.Call? || s.Raise? {
      LabelsFew(GenStmt(s, st, env, n).code, Between(n, n));
    } else if s.Seq? {
      var ga := GenStmt(s.first, st, env, n);
      var gb := GenStmt(s.second, st, env, ga.labels);
      GenLabels(s.first, st, env, n);
      GenLabels(s.second, st, env, ga.labels);
      LabelsConcat(ga.code, Between(n, ga.labels), gb.code, Between(ga.labels, gb.labels), Between(n, gb.labels));
    } else if s.If? {
      var ga := GenStmt(s.thn, st, env, n + 4);
      var gb := GenStmt(s.els, st, env, ga.labels + 1);
      GenLabels(s.thn, st, env, n + 4);
      GenLabels(s.els, st, env, ga.labels + 1);
      IfLabels(s.cond, n, ga.code, ga.labels, gb.code, gb.labels);
    } else if s.While? || s.Block? {
      LoopLabels(s, s.lbl, s.body, st, env, n);
    } else if s.Break? {
      BreakLabels(s.lbl, st, env, n);
    } else if s.Return? {
      LeaveLabels(st, 0, env, n);
      ExitLabels(GenLeave(st, 0, env, n), ExceptDepth(st), BeforeRet, n);
    } else {
      TryStmtLabels(s.body, s.handlers, s.fin, st, env, n);
    }
  }

  lemma BreakLabels(l: nat, st: TryStack, env: Env, n: nat)
    ensures var g := GenStmt(Break(l), st, env, n); Labels(g.code, Between(n, g.labels))
    decreases 1 + StackSize(st), 1
  {
    hide Labels, Between, Pops;
    if l in env {
      LeaveLabels(st, env[l].tryDepth, env, n);
      ExitLabels(GenLeave(st, env[l].tryDepth, env, n), ExceptDepth(st) - env[l].exceptDepth, BlockLabel(env[l].id), n);
    } else {
      LabelsFew([], Between(n, n));
    }
  }

  lemma {:induction false} LoopLabels(s: Stmt, l: nat, b: Stmt, st: TryStack, env: Env, n: nat)
    requires s == Block(l, b) || (s.While? && s.lbl == l && s.body == b)
    ensures var g := GenStmt(s, st, env, n); Labels(g.code, Between(n, g.labels))
    decreases Size(s) + StackSize(st), 1
  {
    hide Labels;
    var env' := env[l := BlockInfo(n + 1, Depth(st), ExceptDepth(st))];
    var gb := GenStmt(b, st, env', n + 1);
    GenLabels(b, st, env', n + 1);
    if s.While? {
      WhileLabels(s.cond, n, gb.code, gb.labels);
    } else {
      LabelsFew([CLabel(BlockLabel(n + 1))], {n + 1});
      LabelsConcat(gb.code, Between(n + 1, gb.labels), [CLabel(BlockLabel(n + 1))], {n + 1}, Between(n, gb.labels));
    }
  }

  lemma {:induction false} TryStmtLabels(b: Stmt, hs: Handlers, f: Fin, st: TryStack, env: Env, n: nat)
    ensures var g := GenTry(b, hs, f, st, env, n); Labels(g.code, Between(n, g.labels))
    decreases Size(b) + HandlersSize(hs) + FinSize(f) + StackSize(st), 3
  {
    hide Labels, Between, HandlerSection, GenStmt, GenHandlers, GenFin;
    var lab := n + 1;
    var gb := GenStmt(b, Push(Entry(f, false, lab), st), env, lab);
    var gh := GenHandlers(hs, f, st, env, gb.labels + 1);
    GenLabels(b, Push(Entry(f, false, lab), st), env, lab);
    HandlersLabels(hs, f, st, env, gb.labels + 1);
    FinLabels(f, st, env, lab, gh.labels);
    var gf := GenFin(f, st, env, lab, gh.labels);
    TryLabels(hs, n, gb, gh, gf, GenTry(b, hs, f, st, env, n).code);
  }

  lemma IfLabels(c: nat, n: nat, a: Code, na: nat, b: Code, nb: nat)
    requires n + 4 <= na < nb
    requires Labels(a, Between(n + 4, na)) && Labels(b, Between(na + 1, nb))
    ensures Labels(IfCode(c, n + 3, n + 1, a, b), Between(n, nb))
  {
    hide Labels;
    var ra, rb := Between(n + 4, na), Between(na + 1, nb);
    var first, mid, last := [CIfNotGoto(c, CodeLabel(n + 3))], [CGoto(CodeLabel(n + 1)), CLabel(CodeLabel(n + 3))],
      [CLabel(CodeLabel(n + 1))];
    LabelsFew(first, {});
    LabelsFew(last, {n + 1});
    LabelsConcat(first, {}, a, ra, ra);
    LabelsFew(mid, {n + 3});
    LabelsConcat(mid, {n + 3}, b, rb, {n + 3} + rb);
    LabelsConcat(mid + b, {n + 3} + rb, last, {n + 1}, {n + 1, n + 3} + rb);
    LabelsConcat(first + a, ra, (mid + b) + last, {n + 1, n + 3} + rb, Between(n, nb));
  }

  lemma WhileLabels(c: nat, n: nat, b: Code, nb: nat)
    requires n + 1 <= nb && Labels(b, Between(n + 1, nb))
    ensures Labels(WhileCode(c, n + 1, b), Between(n, nb))
  {
    hide Labels;
    var first, last := [CIfNotGoto(c, BlockLabel(n + 1))], [CLoop(|b| + 1), CLabel(BlockLabel(n + 1))];
    LabelsFew(first, {});
    LabelsConcat(first, {}, b, Between(n + 1, nb), Between(n + 1, nb));
    LabelsFew(last, {n + 1});
    LabelsConcat(first + b, Between(n + 1, nb), last, {n + 1}, Between(n, nb));
  }

  lemma ExitLabels(g: Gen, pops: int, to: Label, n: nat)
    requires Labels(g.code, Between(n, g.labels))
    ensures Labels(g.code + (Pops(pops) + [CGoto(to)]), Between(n, g.labels))
  {
    hide Labels;
    PopsNoLabel(pops);
    var tail := Pops(pops) + [CGoto(to)];
    assert forall i | 0 <= i < |tail| :: !tail[i].CLabel?;
    LabelsFew(tail, {});
    LabelsConcat(g.code, Between(n, g.labels), Pops(pops) + [CGoto(to)], {}, Between(n, g.labels));
  }

  lemma TryLabels(hs: Handlers, n: nat, gb: Gen, gh: Gen, gf: Gen, code: Code)
    requires n + 1 <= gb.labels < gh.labels + 1 && gb.labels + 1 <= gh.labels <= gf.labels
    requires Labels(gb.code, Between(n + 1, gb.labels))
    requires Labels(gh.code, Between(gb.labels + 1, gh.labels))
    requires Labels(gf.code, Between(gh.labels, gf.labels))
    requires code == gb.code + (HandlerSection(hs, n + 1, gh.code) + gf.code)
    ensures Labels(code, Between(n, gf.labels))
  {
    hide Labels;
    var rb, rh, rf := Between(n + 1, gb.labels), {n + 1} + Between(gb.labels + 1, gh.labels),
      Between(gh.labels, gf.labels);
    var section := HandlerSection(hs, n + 1, gh.code);
    SectionLabels(hs, n + 1, gh.code, Between(gb.labels + 1, gh.labels));
    LabelsConcat(section, rh, gf.code, rf, rh + rf);
    LabelsConcat(gb.code, rb, section + gf.code, rh + rf, Between(n, gf.labels));
  }

  lemma SectionLabels(hs: Handlers, lab: nat, handlers: Code, ids: set<nat>)
    requires Labels(handlers, ids) && lab !in ids
    ensures Labels(HandlerSection(hs, lab, handlers), {lab} + ids)
  {
    hide Labels;
    var open := if hs.Handler? then [CIfErr(1 + |handlers|)] else [];
    LabelsFew([CLabel(CodeLabel(lab))], {lab});
    LabelsFew(open, {});
    LabelsConcat([CLabel(CodeLabel(lab))], {lab}, handlers, ids, {lab} + ids);
    LabelsConcat(open, {}, [CLabel(CodeLabel(lab))] + handlers, {lab} + ids, {lab} + ids);
  }

  lemma {:induction false} HandlersLabels(hs: Handlers, f: Fin, st: TryStack, env: Env, n: nat)
    ensures var g := GenHandlers(hs, f, st, env, n); Labels(g.code, Between(n, g.labels))
    decreases HandlersSize(hs) + FinSize(f) + StackSize(st), 1
  {
    hide Labels;
    if hs.NoHandler? {
      LabelsFew([], Between(n, n));
    } else {
      var next := n + 1;
      var gb := GenStmt(hs.body, Push(Entry(f, true, next), st), env, n + 2);
      var gr := GenHandlers(hs.rest, f, st, env, gb.labels);
      GenLabels(hs.body, Push(Entry(f, true, next), st), env, n + 2);
      HandlersLabels(hs.rest, f, st, env, gb.labels);
      var rb := Between(n + 2, gb.labels) + {next};
      HandlerLabels(gb.code, next, Between(n + 2, gb.labels), hs.kinds, |gr.code|);
      LabelsConcat(HandlerCode(hs.kinds, gb.code, next, |gr.code|), rb,
        gr.code, Between(gb.labels, gr.labels), Between(n, gr.labels));
    }
  }

  lemma HandlerLabels(code: Code, next: nat, ids: set<nat>, kinds: Kinds, rest: nat)
    requires Labels(code, ids) && next !in ids
    ensures Labels(HandlerCode(kinds, code, next, rest), ids + {next})
  {
    hide Labels;
    var r := ids + {next};
    var last := [CPop, CLabel(CodeLabel(next))];
    LabelsFew(last, {next});
    LabelsConcat(code, ids, last, {next}, r);
    LabelsFew([CClearErr], {});
    LabelsConcat([CClearErr], {}, code + last, r, r);
    LabelsFew([CElse(rest)], {});
    LabelsConcat(HandlerBody(code, next), r, [CElse(rest)], {}, r);
    var body := HandlerBody(code, next) + [CElse(rest)];
    if kinds.Only? {
      var test := CIfMatch(OrExpr(kinds.kinds), |body|);
      LabelsFew([test], {});
      LabelsConcat([test], {}, body, r, r);
    }
  }

  lemma {:induction false} FinLabels(f: Fin, st: TryStack, env: Env, lab: nat, n: nat)
    ensures var g := GenFin(f, st, env, lab, n); Labels(g.code, Between(n, g.labels))
    decreases FinSize(f) + StackSize(st), 1
  {
    if f.Fin? {
      var g := GenStmt(f.body, st, env, n + 1);
      GenLabels(f.body, st, env, n + 1);
      var r := Between(n + 1, g.labels);
      LabelsConcat(g.code, r, [CRestoreErr(lab)], {}, r);
      LabelsConcat([CSaveErr(lab)], {}, g.code + [CRestoreErr(lab)], r, r);
      LabelsConcat(if CanRaise(f.body) then [CSaveErr(lab)] + (g.code + [CRestoreErr(lab)]) else g.code, r,
        [CIfErrGoto(RaiseLabel(st))], {}, Between(n, g.labels));
    }
  }

  lemma {:induction false} LeaveLabels(st: TryStack, depth: nat, env: Env, n: nat)
    ensures var g := GenLeave(st, depth, env, n); Labels(g.code, Between(n, g.labels))
    decreases StackSize(st), 1
  {
    if Depth(st) > depth {
      if st.top.fin.NoFin? {
        LeaveLabels(st.below, depth, env, n);
      } else {
        var g := GenStmt(st.top.fin.body, st.below, env, n);
        var gr := GenLeave(st.below, depth, env, g.labels);
        GenLabels(st.top.fin.body, st.below, env, n);
        LeaveLabels(st.below, depth, env, g.labels);
        LabelsConcat(g.code, Between(n, g.labels), gr.code, Between(g.labels, gr.labels), Between(n, gr.labels));
      }
    }
  }

  lemma PopsNoLabel(n: int)
    ensures forall i | 0 <= i < |Pops(n)| :: Pops(n)[i] == CPop
  {
  }

  /** Every label of the proc is unique, so every `goto` has one target. */
  lemma CompiledLabels(s: Stmt)
    ensures Labels(Compile(s), Between(0, GenStmt(s, Empty, map[], 0).labels) + {0})
  {
    var g := GenStmt(s, Empty, map[], 0);
    GenLabels(s, Empty, map[], 0);
    LabelsConcat(g.code, Between(0, g.labels), [CLabel(BeforeRet)], {0}, Between(0, g.labels) + {0});
  }
}
