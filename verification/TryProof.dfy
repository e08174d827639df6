/** The generated code does what `TryFlow` says, statement by statement. */
module TryProof {
  import opened Basics
  import opened TryLang
  import opened TryCode
  import opened TryFlow
  import opened TrySim

  ghost predicate Pre(c: Site, s: Stmt, a: State) {
    Context(c) && Suits(c, s) && At(c.p, a.pc, GenStmt(s, c.st, c.env, c.n).code)
  }

  ghost function Goal(c: Site, s: Stmt, a: State): Landing {
    Land(c.w, c.fuel, c.st, c.env, Flow(c.w, s, c.fuel, MemOf(a)))
  }

  ghost predicate Result(c: Site, s: Stmt, a: State, k: nat) {
    var g := GenStmt(s, c.st, c.env, c.n);
    Sim(c, Goal(c, s, a), a.pc + |g.code|, g.labels, a, k)
  }

  lemma OneStep(w: World, p: Code, s: State)
    ensures Run(w, p, s, 1) == Step(w, p, s)
  {
    assert Run(w, p, s, 1) == Run(w, p, Step(w, p, s), 0);
  }

  lemma TwoSteps(c: Site, a: State)
    ensures Run(c.w, c.p, a, 2) == Step(c.w, c.p, Step(c.w, c.p, a))
  {
    OneStep(c.w, c.p, a);
    OneStep(c.w, c.p, Step(c.w, c.p, a));
    RunAdd(c.w, c.p, a, 1, 1);
  }

  lemma ThreeSteps(c: Site, a: State)
    ensures Run(c.w, c.p, a, 3) == Step(c.w, c.p, Step(c.w, c.p, Step(c.w, c.p, a)))
  {
    hide Step;
    OneStep(c.w, c.p, a);
    TwoSteps(c, Step(c.w, c.p, a));
    RunAdd(c.w, c.p, a, 1, 2);
  }

  /** A label that is part of the program is where `goto` finds it. */
  lemma FindHere(c: Site, pc: nat, l: Label)
    requires Labels(c.p, c.ids) && At(c.p, pc, [CLabel(l)])
    ensures Find(c.p, l) == pc
  {
    AtLine(c.p, pc, [CLabel(l)], 0);
    FindUnique(c.p, pc, c.ids);
  }

  ghost predicate Known(c: Site, x: Landing) {
    x.AtBlock? ==> x.lbl in c.env
  }

  lemma {:induction false} StackKnown(st: TryStack, env: Env, l: nat)
    requires StackFits(st, env) && l in StackFree(st)
    ensures l in env
  {
    if l !in FreeFin(st.top.fin) {
      StackKnown(st.below, env, l);
    }
  }

  lemma LandKnown(c: Site, r: Out)
    requires StackFits(c.st, c.env) && (r.x.Breaks? ==> r.x.lbl in c.env)
    ensures Known(c, Land(c.w, c.fuel, c.st, c.env, r))
  {
    var x := Land(c.w, c.fuel, c.st, c.env, r);
    LandFacts(c.w, c.fuel, c.st, c.env, r);
    if x.AtBlock? && x.lbl in StackFree(c.st) {
      StackKnown(c.st, c.env, x.lbl);
    }
  }

  /** Wherever a statement goes, it is a place known before. */
  lemma GoalKnown(c: Site, s: Stmt, a: State)
    requires Context(c) && Suits(c, s)
    ensures Known(c, Goal(c, s, a))
  {
    BreaksIsFree(c.w, s, c.fuel, MemOf(a));
    LandKnown(c, Flow(c.w, s, c.fuel, MemOf(a)));
  }

  lemma ContextFacts(c: Site)
    requires Context(c)
    ensures Labels(c.p, c.ids) && c.bound <= c.fuel && StackFits(c.st, c.env)
  {
  }

  lemma AtLabel(c: Site, n: nat, x: Landing)
    requires Known(c, x)
    ensures Agree(c, c.(n := n), x)
  {
  }

  lemma ContextLabel(c: Site, n: nat)
    requires Context(c)
    ensures Context(c.(n := n))
  {
  }

  lemma SuitsLabel(c: Site, s: Stmt, n: nat)
    requires Suits(c, s)
    ensures Suits(c.(n := n), s)
  {
  }

  lemma NextPre(c: Site, s: Stmt, b: State, n: nat)
    requires Context(c) && Suits(c, s) && At(c.p, b.pc, GenStmt(s, c.st, c.env, n).code)
    ensures Pre(c.(n := n), s, b)
  {
    hide GenStmt, At;
    ContextLabel(c, n);
    SuitsLabel(c, s, n);
  }

  /** A result is an arrival at the goal of the statement. */
  lemma Conclude(c: Site, s: Stmt, a: State, x: Landing, end: nat, hi: nat, k: nat)
    requires Sim(c, x, end, hi, a, k) && x == Goal(c, s, a)
    requires GenStmt(s, c.st, c.env, c.n).labels == hi && a.pc + |GenStmt(s, c.st, c.env, c.n).code| == end
    ensures Result(c, s, a, k)
  {
  }

  lemma SavedSelf(a: State, b: State, lo: nat, hi: nat)
    requires a.saved == b.saved
    ensures SameSaved(a, b, lo, hi)
  {
  }

  lemma WidenSaved(a: State, b: State, lo: nat, hi: nat, lo': nat, hi': nat)
    requires SameSaved(a, b, lo, hi) && lo' <= lo && hi <= hi'
    ensures SameSaved(a, b, lo', hi')
  {
  }

  // ---------- sequences ----------

  lemma SeqUnfolds(c: Site, s: Stmt, m: Mem, ga: Gen, gb: Gen)
    requires s.Seq?
    requires ga == GenStmt(s.first, c.st, c.env, c.n) && gb == GenStmt(s.second, c.st, c.env, ga.labels)
    ensures GenStmt(s, c.st, c.env, c.n) == Gen(ga.code + gb.code, gb.labels)
    ensures c.n <= ga.labels <= gb.labels
    ensures var r := Flow(c.w, s.first, c.fuel, m);
      Flow(c.w, s, c.fuel, m) == if r.x.Falls? then Flow(c.w, s.second, c.fuel, r.m) else r
  {
  }

  lemma SeqSuits(c: Site, s: Stmt)
    requires s.Seq? && Suits(c, s)
    ensures Suits(c, s.first) && Suits(c, s.second)
  {
  }

  lemma LandFall(c: Site, r: Out)
    requires r.x.Falls?
    ensures Land(c.w, c.fuel, c.st, c.env, r) == Fall(r.m)
  {
  }

  lemma SimSeq(c: Site, s: Stmt, a: State) returns (k: nat)
    requires s.Seq? && Pre(c, s, a)
    ensures Result(c, s, a, k)
    decreases Size(s) + StackSize(c.st), 9
  {
    hide Context, Suits, Flow, Land, GenStmt, Sim, Known, Run, At, SameSaved, Agree;
    var ga := GenStmt(s.first, c.st, c.env, c.n);
    var gb := GenStmt(s.second, c.st, c.env, ga.labels);
    SeqUnfolds(c, s, MemOf(a), ga, gb);
    AtSplit(c.p, a.pc, ga.code, gb.code);
    SeqSuits(c, s);
    GoalKnown(c, s, a);
    var x := Goal(c, s, a);
    var end := a.pc + |ga.code + gb.code|;
    var k1 := SimStmt(c, s.first, a);
    var b := Run(c.w, c.p, a, k1);
    var r1 := Flow(c.w, s.first, c.fuel, MemOf(a));
    if r1.x.Falls? {
      LandFall(c, r1);
      FallMeans(c, r1.m, a.pc + |ga.code|, ga.labels, a, k1);
      NextPre(c, s.second, b, ga.labels);
      var k2 := SimStmt(c.(n := ga.labels), s.second, b);
      AtLabel(c, ga.labels, x);
      WidenSaved(a, b, c.n, ga.labels, c.n, gb.labels);
      Onward(c, x, end, gb.labels, a, k1, b, c.(n := ga.labels), end, gb.labels, k2);
      k := k1 + k2;
    } else {
      k := k1;
      LandFacts(c.w, c.fuel, c.st, c.env, r1);
      AtLabel(c, c.n, x);
      Seen(c, x, end, gb.labels, a, c, a.pc + |ga.code|, ga.labels, k);
    }
  }

  // one lemma per kind of line

  lemma StepLabel(c: Site, s: State)
    requires s.pc < |c.p| && c.p[s.pc].CLabel?
    ensures Step(c.w, c.p, s) == s.(pc := s.pc + 1)
  {
  }

  lemma StepGoto(c: Site, s: State)
    requires s.pc < |c.p| && c.p[s.pc].CGoto?
    ensures Step(c.w, c.p, s) == s.(pc := Find(c.p, c.p[s.pc].to))
  {
  }

  lemma StepIfErrGoto(c: Site, s: State)
    requires s.pc < |c.p| && c.p[s.pc].CIfErrGoto?
    ensures Step(c.w, c.p, s) == if s.err then s.(pc := Find(c.p, c.p[s.pc].to)) else s.(pc := s.pc + 1)
  {
  }

  lemma StepTest(c: Site, s: State)
    requires s.pc < |c.p| && c.p[s.pc].CIfNotGoto?
    ensures var cond := c.p[s.pc].cond;
      Step(c.w, c.p, s) == s.(pc := if c.w.test(cond, s.tr) then s.pc + 1 else Find(c.p, c.p[s.pc].to),
                              tr := s.tr + [Tested(cond, c.w.test(cond, s.tr))])
  {
  }

  lemma StepElse(c: Site, s: State)
    requires s.pc < |c.p| && c.p[s.pc].CElse?
    ensures Step(c.w, c.p, s) == s.(pc := s.pc + 1 + c.p[s.pc].lines)
  {
  }

  lemma StepPop(c: Site, s: State)
    requires s.pc < |c.p| && c.p[s.pc].CPop? && |s.exns| > 0
    ensures Step(c.w, c.p, s) == s.(pc := s.pc + 1, exns := s.exns[1..])
  {
  }

  lemma StepCall(c: Site, s: State)
    requires s.pc < |c.p| && c.p[s.pc].CCall?
    ensures var call := c.p[s.pc];
      var t := s.tr + [Called(call.id)];
      var e := c.w.raises(call.id, t);
      var exns := c.w.leaves(call.id, t) + s.exns;
      Step(c.w, c.p, s) ==
        if call.canRaise && e.Some? then s.(pc := s.pc + 1, tr := t, err := true, exns := [e.value] + exns)
        else s.(pc := s.pc + 1, tr := t, exns := exns)
  {
  }

  // ---------- calls and raise ----------

  lemma CallArrives(c: Site, id: nat, canRaise: bool, a: State, code: Code) returns (k: nat)
    requires code == [CCall(id, canRaise)] + (if canRaise then [CIfErrGoto(RaiseLabel(c.st))] else [])
    requires At(c.p, a.pc, code)
    ensures Sim(c, Land(c.w, c.fuel, c.st, c.env, Flow(c.w, Call(id, canRaise), c.fuel, MemOf(a))), a.pc + |code|,
      c.n, a, k)
  {
    hide Find, Run, At, Step;
    AtLine(c.p, a.pc, code, 0);
    OneStep(c.w, c.p, a);
    StepCall(c, a);
    k := 1;
    if canRaise {
      AtLine(c.p, a.pc, code, 1);
      TwoSteps(c, a);
      StepIfErrGoto(c, Step(c.w, c.p, a));
      k := 2;
    }
  }

  lemma RaiseArrives(c: Site, e: Exn, a: State)
    requires At(c.p, a.pc, [CRaise(e), CGoto(RaiseLabel(c.st))])
    ensures Sim(c, AtRaise(c.st, Mem(true, [e] + a.exns, a.tr)), a.pc + 2, c.n, a, 2)
  {
    var code := [CRaise(e), CGoto(RaiseLabel(c.st))];
    AtLine(c.p, a.pc, code, 0);
    AtLine(c.p, a.pc, code, 1);
    TwoSteps(c, a);
  }

  lemma SimCall(c: Site, s: Stmt, a: State) returns (k: nat)
    requires s.Call? && Pre(c, s, a)
    ensures Result(c, s, a, k)
  {
    var g := GenStmt(s, c.st, c.env, c.n);
    k := CallArrives(c, s.id, s.canRaise, a, g.code);
    Conclude(c, s, a, Goal(c, s, a), a.pc + |g.code|, c.n, k);
  }

  lemma SimRaise(c: Site, s: Stmt, a: State) returns (k: nat)
    requires s.Raise? && Pre(c, s, a)
    ensures Result(c, s, a, k)
  {
    RaiseArrives(c, s.exn, a);
    k := 2;
    Conclude(c, s, a, Goal(c, s, a), a.pc + 2, c.n, k);
  }

  // ---------- if ----------

  lemma IfUnfolds(c: Site, s: Stmt, m: Mem, ga: Gen, gb: Gen)
    requires s.If?
    requires ga == GenStmt(s.thn, c.st, c.env, c.n + 4) && gb == GenStmt(s.els, c.st, c.env, ga.labels + 1)
    ensures GenStmt(s, c.st, c.env, c.n) == Gen(IfCode(s.cond, c.n + 3, c.n + 1, ga.code, gb.code), gb.labels)
    ensures |GenStmt(s, c.st, c.env, c.n).code| == 4 + |ga.code| + |gb.code|
    ensures c.n + 4 <= ga.labels < gb.labels
    ensures var go := c.w.test(s.cond, m.tr);
      Flow(c.w, s, c.fuel, m) == Flow(c.w, if go then s.thn else s.els, c.fuel, m.(tr := m.tr + [Tested(s.cond, go)]))
  {
  }

  /** Where the lines of an `if` are. */
  ghost predicate IfLayout(c: Site, pc: nat, cond: nat, lelse: Label, lend: Label, thn: Code, els: Code) {
    var e := pc + 1 + |thn|;
    && e + 2 + |els| < |c.p|
    && c.p[pc] == CIfNotGoto(cond, lelse) && At(c.p, pc + 1, thn)
    && c.p[e] == CGoto(lend) && c.p[e + 1] == CLabel(lelse) && At(c.p, e + 2, els)
    && c.p[e + 2 + |els|] == CLabel(lend)
    && Find(c.p, lelse) == e + 1 && Find(c.p, lend) == e + 2 + |els|
  }

  lemma IfLaidOut(c: Site, pc: nat, cond: nat, lelse: nat, lend: nat, thn: Code, els: Code)
    requires Labels(c.p, c.ids) && At(c.p, pc, IfCode(cond, lelse, lend, thn, els))
    ensures IfLayout(c, pc, cond, CodeLabel(lelse), CodeLabel(lend), thn, els)
  {
    hide At, Labels, Find;
    var first := [CIfNotGoto(cond, CodeLabel(lelse))];
    var mid := [CGoto(CodeLabel(lend)), CLabel(CodeLabel(lelse))];
    var last := [CLabel(CodeLabel(lend))];
    var e := pc + 1 + |thn|;
    AtSplit(c.p, pc, first + thn, (mid + els) + last);
    AtSplit(c.p, pc, first, thn);
    AtSplit(c.p, e, mid + els, last);
    AtSplit(c.p, e, mid, els);
    AtLine(c.p, pc, first, 0);
    AtLine(c.p, e, mid, 0);
    AtLine(c.p, e, mid, 1);
    AtLine(c.p, e + 2 + |els|, last, 0);
    FindUnique(c.p, e + 1, c.ids);
    FindUnique(c.p, e + 2 + |els|, c.ids);
  }

  lemma IfLayoutAt(c: Site, pc: nat, cond: nat, lelse: Label, lend: Label, thn: Code, els: Code)
    requires IfLayout(c, pc, cond, lelse, lend, thn, els)
    ensures At(c.p, pc + 1, thn) && At(c.p, pc + 3 + |thn|, els)
  {
  }

  lemma IfSuits(c: Site, s: Stmt)
    requires s.If? && Suits(c, s)
    ensures Suits(c, s.thn) && Suits(c, s.els)
  {
  }

  lemma SimIf(c: Site, s: Stmt, a: State) returns (k: nat)
    requires s.If? && Pre(c, s, a)
    ensures Result(c, s, a, k)
    decreases Size(s) + StackSize(c.st), 9
  {
    hide Context, Suits, Flow, Land, GenStmt, Sim, IfCode, IfLayout, Known, At, Run, Find;
    var ga := GenStmt(s.thn, c.st, c.env, c.n + 4);
    var gb := GenStmt(s.els, c.st, c.env, ga.labels + 1);
    IfUnfolds(c, s, MemOf(a), ga, gb);
    ContextFacts(c);
    IfLaidOut(c, a.pc, s.cond, c.n + 3, c.n + 1, ga.code, gb.code);
    GoalKnown(c, s, a);
    IfSuits(c, s);
    IfLayoutAt(c, a.pc, s.cond, CodeLabel(c.n + 3), CodeLabel(c.n + 1), ga.code, gb.code);
    if c.w.test(s.cond, a.tr) {
      var b := a.(pc := a.pc + 1, tr := a.tr + [Tested(s.cond, true)]);
      NextPre(c, s.thn, b, c.n + 4);
      var k2 := SimStmt(c.(n := c.n + 4), s.thn, b);
      k := ThenArrives(c, s.cond, a, b, ga, gb, Goal(c, s, a), k2);
    } else {
      var b := a.(pc := a.pc + 3 + |ga.code|, tr := a.tr + [Tested(s.cond, false)]);
      NextPre(c, s.els, b, ga.labels + 1);
      var k2 := SimStmt(c.(n := ga.labels + 1), s.els, b);
      k := ElseArrives(c, s.cond, a, b, ga, gb, Goal(c, s, a), k2);
    }
    Conclude(c, s, a, Goal(c, s, a), a.pc + 4 + |ga.code| + |gb.code|, gb.labels, k);
  }

  lemma ThenArrives(c: Site, cond: nat, a: State, b: State, ga: Gen, gb: Gen, x: Landing, k2: nat) returns (k: nat)
    requires IfLayout(c, a.pc, cond, CodeLabel(c.n + 3), CodeLabel(c.n + 1), ga.code, gb.code)
    requires c.w.test(cond, a.tr) && b == a.(pc := a.pc + 1, tr := a.tr + [Tested(cond, true)])
    requires c.n + 4 <= ga.labels <= gb.labels && Known(c, x)
    requires Sim(c.(n := c.n + 4), x, b.pc + |ga.code|, ga.labels, b, k2)
    ensures Sim(c, x, a.pc + 4 + |ga.code| + |gb.code|, gb.labels, a, k)
  {
    hide Run, Find, SameSaved, At, Step, Sim;
    OneStep(c.w, c.p, a);
    StepTest(c, a);
    var c' := c.(n := c.n + 4);
    var mid, end := b.pc + |ga.code|, a.pc + 4 + |ga.code| + |gb.code|;
    k := k2;
    if x.Fall? {
      FallMeans(c', x.m, mid, ga.labels, b, k2);
      var d := Run(c.w, c.p, b, k2);
      TwoSteps(c, d);
      StepGoto(c, d);
      StepLabel(c, Step(c.w, c.p, d));
      FallThrough(c', x.m, mid, ga.labels, b, k2, 2, end);
      k := k2 + 2;
    }
    SavedSelf(a, b, c.n, gb.labels);
    Onward(c, x, end, gb.labels, a, 1, b, c', if x.Fall? then end else mid, ga.labels, k);
    k := 1 + k;
  }

  lemma ElseArrives(c: Site, cond: nat, a: State, b: State, ga: Gen, gb: Gen, x: Landing, k2: nat) returns (k: nat)
    requires IfLayout(c, a.pc, cond, CodeLabel(c.n + 3), CodeLabel(c.n + 1), ga.code, gb.code)
    requires !c.w.test(cond, a.tr) && b == a.(pc := a.pc + 3 + |ga.code|, tr := a.tr + [Tested(cond, false)])
    requires c.n <= ga.labels + 1 <= gb.labels && Known(c, x)
    requires Sim(c.(n := ga.labels + 1), x, b.pc + |gb.code|, gb.labels, b, k2)
    ensures Sim(c, x, a.pc + 4 + |ga.code| + |gb.code|, gb.labels, a, k)
  {
    hide Run, Find, SameSaved, At, Step, Sim;
    TwoSteps(c, a);
    StepTest(c, a);
    StepLabel(c, Step(c.w, c.p, a));
    var c' := c.(n := ga.labels + 1);
    var mid, end := b.pc + |gb.code|, a.pc + 4 + |ga.code| + |gb.code|;
    k := k2;
    if x.Fall? {
      FallMeans(c', x.m, mid, gb.labels, b, k2);
      var d := Run(c.w, c.p, b, k2);
      OneStep(c.w, c.p, d);
      StepLabel(c, d);
      FallThrough(c', x.m, mid, gb.labels, b, k2, 1, end);
      k := k2 + 1;
    }
    SavedSelf(a, b, c.n, gb.labels);
    Onward(c, x, end, gb.labels, a, 2, b, c', if x.Fall? then end else mid, gb.labels, k);
    k := 2 + k;
  }

  // ---------- blocks and loops ----------

  /** Inside a block labelled `l`. */
  ghost function Inside(c: Site, l: nat): Site {
    c.(env := c.env[l := BlockInfo(c.n + 1, Depth(c.st), ExceptDepth(c.st))], n := c.n + 1)
  }

  lemma {:induction false} StackFitsInside(st: TryStack, env: Env, l: nat, i: BlockInfo)
    requires StackFits(st, env) && l !in StackFree(st)
    ensures StackFits(st, env[l := i])
  {
    if st.Push? {
      StackFitsInside(st.below, env, l, i);
    }
  }

  lemma InsideFits(c: Site, l: nat, body: Stmt)
    requires Context(c) && Scoped(body) && l !in StackFree(c.st) && Decl(body) !! StackFree(c.st)
    requires forall k | k in Free(body) && k != l :: LabelFits(k, c.st, c.env)
    ensures Context(Inside(c, l)) && Suits(Inside(c, l), body)
  {
    hide Labels, StackFits;
    StackFitsInside(c.st, c.env, l, BlockInfo(c.n + 1, Depth(c.st), ExceptDepth(c.st)));
  }

  /** The landing of the body of a block, and the landing of the block. */
  lemma LandInside(c: Site, l: nat, r: Out)
    requires l !in StackFree(c.st)
    ensures var c' := Inside(c, l);
      var x, y := Land(c.w, c.fuel, c.st, c'.env, r), Land(c.w, c.fuel, c.st, c.env, Caught(l, r));
      && (r.x.Falls? ==> x == y == Fall(r.m))
      && (r.x.Breaks? && r.x.lbl == l ==> if x.AtBlock? then x.lbl == l && y == Fall(x.m) else x == y == NoLanding)
      && (!r.x.Falls? && !(r.x.Breaks? && r.x.lbl == l) ==> x == y && !x.Fall? && (x.AtBlock? ==> x.lbl != l))
  {
    var c' := Inside(c, l);
    LandFacts(c.w, c.fuel, c.st, c.env, r);
    if r.x.Breaks? && r.x.lbl == l {
      assert TryDepthOf(c'.env, l) == Depth(c.st);
      assert PopsFor(c.st, c'.env, l, r.x.pops) == r.x.pops;
    } else {
      LandEnv(c.w, c.fuel, c.st, c.env, l, c'.env[l], r);
    }
  }

  /** At the end of a block, or gone elsewhere. */
  ghost predicate BlockDone(c: Site, l: nat, r: Out, end: nat, hi: nat, a: State, k: nat) {
    var x := Land(c.w, c.fuel, c.st, c.env, Caught(l, r));
    if r.x.Falls? then Sim(c, Fall(r.m), end, hi, a, k)
    else if x.Fall? then Sim(c, x, Find(c.p, BlockLabel(c.n + 1)), hi, a, k)
    else Sim(c, x, 0, hi, a, k)
  }

  lemma LeavesBlock(c: Site, l: nat, body: Stmt, end: nat, hi: nat, a: State, k: nat)
    requires l !in StackFree(c.st) && Context(c)
    requires var r := Flow(c.w, body, c.fuel, MemOf(a)); r.x.Breaks? && r.x.lbl != l ==> r.x.lbl in c.env
    requires Sim(Inside(c, l), Goal(Inside(c, l), body, a), end, hi, a, k)
    ensures BlockDone(c, l, Flow(c.w, body, c.fuel, MemOf(a)), end, hi, a, k)
  {
    hide Flow, Land, Run, Find, Labels, StackFits;
    var c' := Inside(c, l);
    var r := Flow(c.w, body, c.fuel, MemOf(a));
    var x, y := Goal(c', body, a), Land(c.w, c.fuel, c.st, c.env, Caught(l, r));
    LandInside(c, l, r);
    var b := Run(c.w, c.p, a, k);
    if r.x.Falls? || y.Fall? {
      WidenSaved(a, b, c'.n, hi, c.n, hi);
    } else {
      ContextFacts(c);
      LandKnown(c, Caught(l, r));
      Seen(c, y, 0, hi, a, c', end, hi, k);
    }
  }

  lemma BlockUnfolds(c: Site, s: Stmt, m: Mem)
    requires s.Block?
    ensures var gb := GenStmt(s.body, c.st, Inside(c, s.lbl).env, c.n + 1);
      GenStmt(s, c.st, c.env, c.n) == Gen(gb.code + [CLabel(BlockLabel(c.n + 1))], gb.labels)
    ensures Flow(c.w, s, c.fuel, m) == Caught(s.lbl, Flow(c.w, s.body, c.fuel, m))
  {
  }

  lemma BodyFits(c: Site, s: Stmt)
    requires (s.Block? || s.While?) && Context(c) && Suits(c, s)
    ensures s.lbl !in StackFree(c.st)
    ensures Context(Inside(c, s.lbl)) && Suits(Inside(c, s.lbl), s.body)
  {
    InsideFits(c, s.lbl, s.body);
  }

  lemma BodyBreaks(c: Site, s: Stmt, m: Mem)
    requires (s.Block? || s.While?) && Suits(c, s)
    ensures var r := Flow(c.w, s.body, c.fuel, m); r.x.Breaks? && r.x.lbl != s.lbl ==> r.x.lbl in c.env
  {
    BreaksIsFree(c.w, s.body, c.fuel, m);
    var x := Flow(c.w, s.body, c.fuel, m).x;
    assert x.Breaks? && x.lbl != s.lbl ==> x.lbl in Free(s);
  }

  lemma InsideSite(c: Site, l: nat)
    ensures var c' := Inside(c, l);
      c'.st == c.st && c'.w == c.w && c'.p == c.p && c'.fuel == c.fuel && c'.n == c.n + 1 && c'.bound == c.bound
  {
  }

  lemma SimBlock(c: Site, s: Stmt, a: State) returns (k: nat)
    requires s.Block? && Pre(c, s, a)
    ensures Result(c, s, a, k)
    decreases Size(s) + StackSize(c.st), 9
  {
    hide Context, Suits, Flow, GenStmt, Sim, Run, At, Land, Inside, BlockDone, Find, Caught;
    var c' := Inside(c, s.lbl);
    InsideSite(c, s.lbl);
    var gb := GenStmt(s.body, c.st, c'.env, c.n + 1);
    var end := a.pc + |gb.code|;
    BlockUnfolds(c, s, MemOf(a));
    AtSplit(c.p, a.pc, gb.code, [CLabel(BlockLabel(c.n + 1))]);
    BodyFits(c, s);
    var k1 := SimStmt(c', s.body, a);
    BodyBreaks(c, s, MemOf(a));
    LeavesBlock(c, s.lbl, s.body, end, gb.labels, a, k1);
    ContextFacts(c);
    FindHere(c, end, BlockLabel(c.n + 1));
    AtLine(c.p, end, [CLabel(BlockLabel(c.n + 1))], 0);
    GoalKnown(c, s, a);
    k := BlockEnds(c, s.lbl, Flow(c.w, s.body, c.fuel, MemOf(a)), end, end + 1, gb.labels, a, k1);
    Conclude(c, s, a, Goal(c, s, a), end + 1, gb.labels, k);
  }

  /** Both ways to the end of a block lead over its label. */
  lemma BlockEnds(c: Site, l: nat, r: Out, pc: nat, end: nat, hi: nat, a: State, k1: nat) returns (k: nat)
    requires BlockDone(c, l, r, pc, hi, a, k1) && Find(c.p, BlockLabel(c.n + 1)) == pc
    requires pc < |c.p| && c.p[pc].CLabel? && end == pc + 1
    requires Known(c, Land(c.w, c.fuel, c.st, c.env, Caught(l, r)))
    ensures Sim(c, Land(c.w, c.fuel, c.st, c.env, Caught(l, r)), end, hi, a, k)
  {
    hide Run, Sim, Find, Step, Leave;
    var x := Land(c.w, c.fuel, c.st, c.env, Caught(l, r));
    k := k1;
    if x.Fall? {
      FallMeans(c, x.m, pc, hi, a, k1);
      var b := Run(c.w, c.p, a, k1);
      OneStep(c.w, c.p, b);
      StepLabel(c, b);
      FallThrough(c, x.m, pc, hi, a, k1, 1, end);
      k := k1 + 1;
    } else {
      AtLabel(c, c.n, x);
      Seen(c, x, end, hi, a, c, 0, hi, k);
    }
  }

  // ---------- while ----------

  ghost function LoopGoal(c: Site, s: Stmt, iters: nat, a: State): Landing
    requires s.While?
  {
    Land(c.w, c.fuel, c.st, c.env, FlowLoop(c.w, s, c.fuel, iters, MemOf(a)))
  }

  lemma LoopKnown(c: Site, s: Stmt, iters: nat, a: State)
    requires s.While? && Context(c) && Suits(c, s)
    ensures Known(c, LoopGoal(c, s, iters, a))
  {
    LoopBreaksIsFree(c.w, s, c.fuel, iters, MemOf(a));
    LandKnown(c, FlowLoop(c.w, s, c.fuel, iters, MemOf(a)));
  }

  ghost predicate WhileLayout(c: Site, pc: nat, cond: nat, lend: Label, body: Code) {
    && pc + 2 + |body| < |c.p|
    && c.p[pc] == CIfNotGoto(cond, lend) && At(c.p, pc + 1, body)
    && c.p[pc + 1 + |body|] == CLoop(|body| + 1)
    && c.p[pc + 2 + |body|] == CLabel(lend)
    && Find(c.p, lend) == pc + 2 + |body|
  }

  lemma WhileLaidOut(c: Site, pc: nat, cond: nat, lend: nat, body: Code)
    requires Labels(c.p, c.ids) && At(c.p, pc, WhileCode(cond, lend, body))
    ensures WhileLayout(c, pc, cond, BlockLabel(lend), body)
  {
    hide At, Labels, Find;
    var first, last := [CIfNotGoto(cond, BlockLabel(lend))], [CLoop(|body| + 1), CLabel(BlockLabel(lend))];
    assert WhileCode(cond, lend, body) == (first + body) + last && |first + body| == 1 + |body|;
    var e := pc + 1 + |body|;
    AtSplit(c.p, pc, first + body, last);
    AtSplit(c.p, pc, first, body);
    AtLine(c.p, pc, first, 0);
    AtLine(c.p, e, last, 0);
    AtLine(c.p, e, last, 1);
    assert c.p[pc] == first[0] && c.p[e] == last[0] && c.p[e + 1] == last[1];
    FindUnique(c.p, e + 1, c.ids);
  }

  lemma WhileLayoutAt(c: Site, pc: nat, cond: nat, lend: Label, body: Code)
    requires WhileLayout(c, pc, cond, lend, body)
    ensures At(c.p, pc + 1, body) && pc < |c.p|
  {
  }

  lemma WhileUnfolds(c: Site, s: Stmt, m: Mem)
    requires s.While?
    ensures var gb := GenStmt(s.body, c.st, Inside(c, s.lbl).env, c.n + 1);
      && GenStmt(s, c.st, c.env, c.n) == Gen(WhileCode(s.cond, c.n + 1, gb.code), gb.labels)
      && |GenStmt(s, c.st, c.env, c.n).code| == 3 + |gb.code|
    ensures Flow(c.w, s, c.fuel, m) == FlowLoop(c.w, s, c.fuel, c.fuel, m)
  {
  }

  lemma LoopUnfolds(w: World, s: Stmt, fuel: nat, iters: nat, m: Mem)
    requires s.While? && iters > 0
    ensures var go := w.test(s.cond, m.tr);
      var m1 := m.(tr := m.tr + [Tested(s.cond, go)]);
      var r := Flow(w, s.body, fuel, m1);
      FlowLoop(w, s, fuel, iters, m) ==
        if !go then Out(Falls, m1) else if r.x.Falls? then FlowLoop(w, s, fuel, iters - 1, r.m) else Caught(s.lbl, r)
  {
  }

  lemma SimWhile(c: Site, s: Stmt, a: State) returns (k: nat)
    requires s.While? && Pre(c, s, a)
    ensures Result(c, s, a, k)
    decreases Size(s) + StackSize(c.st), 9
  {
    hide Context, Suits, Flow, FlowLoop, Land, GenStmt, Sim, WhileCode, WhileLayout, At, Run;
    var gb := GenStmt(s.body, c.st, Inside(c, s.lbl).env, c.n + 1);
    WhileUnfolds(c, s, MemOf(a));
    ContextFacts(c);
    WhileLaidOut(c, a.pc, s.cond, c.n + 1, gb.code);
    k := SimLoop(c, s, c.fuel, a, gb);
    Conclude(c, s, a, Goal(c, s, a), a.pc + 3 + |gb.code|, gb.labels, k);
  }

  lemma SimLoop(c: Site, s: Stmt, iters: nat, a: State, gb: Gen) returns (k: nat)
    requires s.While? && Context(c) && Suits(c, s) && c.bound <= iters <= c.fuel
    requires gb == GenStmt(s.body, c.st, Inside(c, s.lbl).env, c.n + 1)
    requires WhileLayout(c, a.pc, s.cond, BlockLabel(c.n + 1), gb.code)
    ensures Sim(c, LoopGoal(c, s, iters, a), a.pc + 3 + |gb.code|, gb.labels, a, k)
    decreases Size(s) + StackSize(c.st), 8, iters
  {
    hide Context, Suits, Flow, FlowLoop, Land, GenStmt, Sim, WhileLayout, At, Run, Known, Inside, LoopGoal, BlockDone,
      Caught;
    WhileLayoutAt(c, a.pc, s.cond, BlockLabel(c.n + 1), gb.code);
    if iters == 0 {
      k := 0;
      LoopEnds(c, s, a, gb);
    } else if !c.w.test(s.cond, a.tr) {
      k := LoopExits(c, s, iters, a, gb);
    } else {
      var b := a.(pc := a.pc + 1, tr := a.tr + [Tested(s.cond, true)]);
      InsideSite(c, s.lbl);
      BodyFits(c, s);
      var k1 := SimStmt(Inside(c, s.lbl), s.body, b);
      BodyBreaks(c, s, MemOf(b));
      LeavesBlock(c, s.lbl, s.body, b.pc + |gb.code|, gb.labels, b, k1);
      LoopKnown(c, s, iters, a);
      if Flow(c.w, s.body, c.fuel, MemOf(b)).x.Falls? {
        var d := LoopBack(c, s, iters, a, b, gb, k1);
        var c2 := c.(bound := if c.bound == 0 then 0 else c.bound - 1);
        LoopPre(c, s, gb, a.pc);
        var k2 := SimLoop(c2, s, iters - 1, d, gb);
        LoopAgree(c, LoopGoal(c, s, iters, a));
        k := (2 + k1) + k2;
        Onward(c, LoopGoal(c, s, iters, a), a.pc + 3 + |gb.code|, gb.labels, a, 2 + k1, d, c2, d.pc + 3 + |gb.code|,
          gb.labels, k2);
      } else {
        k := LoopLeft(c, s, iters, a, b, gb, k1);
      }
    }
  }

  lemma LoopEnds(c: Site, s: Stmt, a: State, gb: Gen)
    requires s.While? && a.pc < |c.p| && c.bound == 0
    ensures Sim(c, LoopGoal(c, s, 0, a), a.pc + 3 + |gb.code|, gb.labels, a, 0)
  {
  }

  lemma LoopExits(c: Site, s: Stmt, iters: nat, a: State, gb: Gen) returns (k: nat)
    requires s.While? && iters > 0 && !c.w.test(s.cond, a.tr)
    requires WhileLayout(c, a.pc, s.cond, BlockLabel(c.n + 1), gb.code)
    ensures Sim(c, LoopGoal(c, s, iters, a), a.pc + 3 + |gb.code|, gb.labels, a, k)
  {
    hide Find, At, Run, Step;
    TwoSteps(c, a);
    StepTest(c, a);
    StepLabel(c, Step(c.w, c.p, a));
    k := 2;
  }

  /** One iteration: test, body, closing brace. */
  lemma LoopBack(c: Site, s: Stmt, iters: nat, a: State, b: State, gb: Gen, k1: nat) returns (d: State)
    requires s.While? && iters > 0 && c.w.test(s.cond, a.tr)
    requires b == a.(pc := a.pc + 1, tr := a.tr + [Tested(s.cond, true)])
    requires WhileLayout(c, a.pc, s.cond, BlockLabel(c.n + 1), gb.code)
    requires Flow(c.w, s.body, c.fuel, MemOf(b)).x.Falls?
    requires BlockDone(c, s.lbl, Flow(c.w, s.body, c.fuel, MemOf(b)), b.pc + |gb.code|, gb.labels, b, k1)
    ensures d == Run(c.w, c.p, a, 2 + k1) && d.pc == a.pc && SameSaved(a, d, c.n, gb.labels)
    ensures var c2 := c.(bound := if c.bound == 0 then 0 else c.bound - 1);
      LoopGoal(c2, s, iters - 1, d) == LoopGoal(c, s, iters, a)
  {
    hide Find, At, Run, Flow, FlowLoop, Land, Sim, SameSaved, Caught;
    var r := Flow(c.w, s.body, c.fuel, MemOf(b));
    FallMeans(c, r.m, b.pc + |gb.code|, gb.labels, b, k1);
    var e := Run(c.w, c.p, b, k1);
    OneStep(c.w, c.p, a);
    OneStep(c.w, c.p, e);
    RunAdd(c.w, c.p, b, k1, 1);
    RunAdd(c.w, c.p, a, 1, k1 + 1);
    d := e.(pc := a.pc);
    SavedOn(a, b, e, d, c.n, gb.labels);
    LoopUnfolds(c.w, s, c.fuel, iters, MemOf(a));
  }

  lemma SavedOn(a: State, b: State, e: State, d: State, lo: nat, hi: nat)
    requires a.saved == b.saved && SameSaved(b, e, lo, hi) && e.saved == d.saved
    ensures SameSaved(a, d, lo, hi)
  {
  }

  lemma LoopPre(c: Site, s: Stmt, gb: Gen, pc: nat)
    requires s.While? && Context(c) && Suits(c, s)
    requires gb == GenStmt(s.body, c.st, Inside(c, s.lbl).env, c.n + 1)
    requires WhileLayout(c, pc, s.cond, BlockLabel(c.n + 1), gb.code)
    ensures var c2 := c.(bound := if c.bound == 0 then 0 else c.bound - 1);
      && Context(c2) && Suits(c2, s)
      && gb == GenStmt(s.body, c2.st, Inside(c2, s.lbl).env, c2.n + 1)
      && WhileLayout(c2, pc, s.cond, BlockLabel(c2.n + 1), gb.code)
  {
    hide GenStmt, Find;
  }

  lemma LoopAgree(c: Site, x: Landing)
    requires Known(c, x)
    ensures Agree(c, c.(bound := if c.bound == 0 then 0 else c.bound - 1), x)
  {
  }

  lemma LoopLeft(c: Site, s: Stmt, iters: nat, a: State, b: State, gb: Gen, k1: nat) returns (k: nat)
    requires s.While? && iters > 0 && c.w.test(s.cond, a.tr)
    requires b == a.(pc := a.pc + 1, tr := a.tr + [Tested(s.cond, true)])
    requires WhileLayout(c, a.pc, s.cond, BlockLabel(c.n + 1), gb.code)
    requires !Flow(c.w, s.body, c.fuel, MemOf(b)).x.Falls? && Known(c, LoopGoal(c, s, iters, a))
    requires BlockDone(c, s.lbl, Flow(c.w, s.body, c.fuel, MemOf(b)), b.pc + |gb.code|, gb.labels, b, k1)
    ensures Sim(c, LoopGoal(c, s, iters, a), a.pc + 3 + |gb.code|, gb.labels, a, k)
  {
    hide At, Run, Flow, FlowLoop, Land, Sim, SameSaved, Caught, Find, Step;
    var r := Flow(c.w, s.body, c.fuel, MemOf(b));
    LoopUnfolds(c.w, s, c.fuel, iters, MemOf(a));
    var pc, end := a.pc + 2 + |gb.code|, a.pc + 3 + |gb.code|;
    LeftIs(c, s.lbl, r, b.pc + |gb.code|, pc, gb.labels, b, k1);
    var k2 := BlockEnds(c, s.lbl, r, pc, end, gb.labels, b, k1);
    OneStep(c.w, c.p, a);
    StepTest(c, a);
    SavedSelf(a, b, c.n, gb.labels);
    AtLabel(c, c.n, LoopGoal(c, s, iters, a));
    Onward(c, LoopGoal(c, s, iters, a), end, gb.labels, a, 1, b, c, end, gb.labels, k2);
    k := 1 + k2;
  }

  lemma LeftIs(c: Site, l: nat, r: Out, end: nat, end': nat, hi: nat, a: State, k: nat)
    requires BlockDone(c, l, r, end, hi, a, k) && !r.x.Falls?
    ensures BlockDone(c, l, r, end', hi, a, k)
  {
    hide Land, Sim, Find;
  }

  // ---------- leaving try statements: break and return ----------

  ghost function Below(c: Site, n: nat): Site
    requires c.st.Push?
  {
    c.(st := c.st.below, n := n)
  }

  lemma BelowFits(c: Site, n: nat)
    requires c.st.Push? && Context(c)
    ensures Context(Below(c, n))
    ensures c.st.top.fin.Fin? ==> Suits(Below(c, n), c.st.top.fin.body)
  {
  }

  ghost function LeaveGoal(c: Site, depth: nat, m: Mem): Landing {
    var x := Leave(c.w, c.fuel, c.st, depth, c.env, m);
    if x.Done? then Fall(x.m) else x.to
  }

  lemma LeaveGoalFacts(c: Site, depth: nat, m: Mem)
    requires Context(c)
    ensures var x := LeaveGoal(c, depth, m);
      && (x.Fall? <==> Leave(c.w, c.fuel, c.st, depth, c.env, m).Done?)
      && (x.AtBlock? ==> x.lbl in c.env)
  {
    var x := LeaveGoal(c, depth, m);
    LeaveFacts(c.w, c.fuel, c.st, depth, c.env, m);
    if x.AtBlock? {
      StackKnown(c.st, c.env, x.lbl);
    }
  }

  lemma LeaveUnfolds(c: Site, depth: nat, m: Mem)
    requires Depth(c.st) > depth
    ensures var f := c.st.top.fin;
      if f.NoFin? then
        && LeaveGoal(c, depth, m) == LeaveGoal(Below(c, c.n), depth, m)
        && GenLeave(c.st, depth, c.env, c.n) == GenLeave(c.st.below, depth, c.env, c.n)
      else
        var g := GenStmt(f.body, c.st.below, c.env, c.n);
        var gr := GenLeave(c.st.below, depth, c.env, g.labels);
        var r := Flow(c.w, f.body, c.fuel, m);
        && GenLeave(c.st, depth, c.env, c.n) == Gen(g.code + gr.code, gr.labels)
        && c.n <= g.labels <= gr.labels
        && LeaveGoal(c, depth, m) ==
             if r.x.Falls? then LeaveGoal(Below(c, g.labels), depth, r.m) else Land(c.w, c.fuel, c.st.below, c.env, r)
  {
    hide Land;
  }

  lemma SimLeave(c: Site, depth: nat, a: State) returns (k: nat)
    requires Context(c) && At(c.p, a.pc, GenLeave(c.st, depth, c.env, c.n).code)
    ensures var g := GenLeave(c.st, depth, c.env, c.n);
      Sim(c, LeaveGoal(c, depth, MemOf(a)), a.pc + |g.code|, g.labels, a, k)
    decreases StackSize(c.st), 9
  {
    hide Context, Suits, Flow, Land, GenStmt, GenLeave, Sim, At, Run, LeaveGoal, Leave, SameSaved;
    var x := LeaveGoal(c, depth, MemOf(a));
    if Depth(c.st) <= depth {
      k := 0;
      LeaveNothing(c, depth, a);
    } else {
      LeaveUnfolds(c, depth, MemOf(a));
      LeaveGoalFacts(c, depth, MemOf(a));
      BelowFits(c, c.n);
      var g0 := GenLeave(c.st, depth, c.env, c.n);
      var end := a.pc + |g0.code|;
      if c.st.top.fin.NoFin? {
        k := SimLeave(Below(c, c.n), depth, a);
        Seen(c, x, end, g0.labels, a, Below(c, c.n), end, g0.labels, k);
      } else {
        var f := c.st.top.fin.body;
        var g := GenStmt(f, c.st.below, c.env, c.n);
        var gr := GenLeave(c.st.below, depth, c.env, g.labels);
        AtSplit(c.p, a.pc, g.code, gr.code);
        var k1 := SimStmt(Below(c, c.n), f, a);
        var r := Flow(c.w, f, c.fuel, MemOf(a));
        if r.x.Falls? {
          LandFall(Below(c, c.n), r);
          FallMeans(Below(c, c.n), r.m, a.pc + |g.code|, g.labels, a, k1);
          var b := Run(c.w, c.p, a, k1);
          BelowFits(c, g.labels);
          var k2 := SimLeave(Below(c, g.labels), depth, b);
          WidenSaved(a, b, c.n, g.labels, c.n, gr.labels);
          k := k1 + k2;
          Onward(c, x, end, gr.labels, a, k1, b, Below(c, g.labels), end, gr.labels, k2);
        } else {
          k := k1;
          LandFacts(c.w, c.fuel, c.st.below, c.env, r);
          Seen(c, x, end, gr.labels, a, Below(c, c.n), a.pc + |g.code|, g.labels, k);
        }
      }
    }
  }

  lemma LeaveNothing(c: Site, depth: nat, a: State)
    requires Depth(c.st) <= depth
    ensures GenLeave(c.st, depth, c.env, c.n) == Gen([], c.n)
    ensures Sim(c, LeaveGoal(c, depth, MemOf(a)), a.pc, c.n, a, 0)
  {
  }

  lemma {:induction false} PopsRun(c: Site, a: State, m: nat)
    requires At(c.p, a.pc, Pops(m)) && m <= |a.exns|
    ensures Run(c.w, c.p, a, m) == a.(pc := a.pc + m, exns := a.exns[m..])
    decreases m
  {
    if m > 0 {
      assert Pops(m) == [CPop] + Pops(m - 1);
      AtSplit(c.p, a.pc, [CPop], Pops(m - 1));
      AtLine(c.p, a.pc, [CPop], 0);
      var b := Step(c.w, c.p, a);
      assert b == a.(pc := a.pc + 1, exns := a.exns[1..]);
      PopsRun(c, b, m - 1);
      assert a.exns[1..][m - 1..] == a.exns[m..];
    }
  }

  /** With too few exceptions left the machine is stuck at one of the pops. */
  lemma PopsStick(c: Site, a: State, m: nat)
    requires At(c.p, a.pc, Pops(m)) && m > |a.exns|
    ensures var b := Run(c.w, c.p, a, |a.exns|); b.pc < |c.p| && Step(c.w, c.p, b) == b
  {
    hide Run, At, Pops, Step;
    var n := |a.exns|;
    PopsPart(n, m);
    AtSplit(c.p, a.pc, Pops(n), Pops(m - n));
    PopsRun(c, a, n);
    PopsFirst(m - n);
    AtLine(c.p, a.pc + n, Pops(m - n), 0);
    StepStuck(c, a.(pc := a.pc + n, exns := a.exns[n..]));
  }

  lemma StepStuck(c: Site, b: State)
    requires b.pc < |c.p| && c.p[b.pc] == CPop && b.exns == []
    ensures Step(c.w, c.p, b) == b
  {
  }

  lemma PopsFirst(m: nat)
    requires m > 0
    ensures Pops(m)[0] == CPop
  {
  }

  lemma {:induction false} PopsPart(n: nat, m: nat)
    requires n <= m
    ensures Pops(m) == Pops(n) + Pops(m - n)
    decreases n
  {
    if n > 0 {
      PopsPart(n - 1, m - 1);
    }
  }

  /** The pops and the final `goto` of a break or return. */
  lemma ExitRuns(c: Site, b: State, m: nat, to: Label)
    requires At(c.p, b.pc, Pops(m) + [CGoto(to)]) && m <= |b.exns|
    ensures Run(c.w, c.p, b, m + 1) == b.(pc := Find(c.p, to), exns := b.exns[m..])
  {
    hide Find, Run, At, Step;
    AtSplit(c.p, b.pc, Pops(m), [CGoto(to)]);
    PopsRun(c, b, m);
    var d := b.(pc := b.pc + m, exns := b.exns[m..]);
    AtLine(c.p, d.pc, [CGoto(to)], 0);
    OneStep(c.w, c.p, d);
    StepGoto(c, d);
    RunAdd(c.w, c.p, b, m, 1);
  }

  ghost function ExitGoal(l: Label, m: Option<Mem>, lbl: nat): Landing {
    if l.BeforeRet? then ReturnEnd(m) else BreakEnd(lbl, m)
  }

  lemma ExitArrives(c: Site, a: State, b: State, k1: nat, m: nat, to: Label, lbl: nat, end: nat, hi: nat)
    returns (k: nat)
    requires b == Run(c.w, c.p, a, k1) && SameSaved(a, b, c.n, hi)
    requires At(c.p, b.pc, Pops(m) + [CGoto(to)])
    requires to == BeforeRet || (lbl in c.env && to == BlockLabel(c.env[lbl].id))
    ensures Sim(c, ExitGoal(to, Popped(MemOf(b), m), lbl), end, hi, a, k)
  {
    hide Find, Run, At, Step, SameSaved;
    if m <= |b.exns| {
      ExitRuns(c, b, m, to);
      RunAdd(c.w, c.p, a, k1, m + 1);
      k := k1 + (m + 1);
      var d := Run(c.w, c.p, a, k);
      SavedOn(a, a, b, d, c.n, hi);
    } else {
      AtSplit(c.p, b.pc, Pops(m), [CGoto(to)]);
      PopsStick(c, b, m);
      RunAdd(c.w, c.p, a, k1, |b.exns|);
      StuckSim(c, end, hi, a, k1 + |b.exns|);
      k := k1 + |b.exns| + c.bound;
    }
  }

  lemma SimBreak(c: Site, s: Stmt, a: State) returns (k: nat)
    requires s.Break? && Pre(c, s, a)
    ensures Result(c, s, a, k)
    decreases Size(s) + StackSize(c.st), 9
  {
    hide Context, Land, GenStmt, GenLeave, Sim, At, Run, LeaveGoal, SameSaved;
    var l := s.lbl;
    BreakFits(c, s);
    var info := c.env[l];
    var g := GenLeave(c.st, info.tryDepth, c.env, c.n);
    var m := PopsFor(c.st, c.env, l, 0);
    var exit := Pops(m) + [CGoto(BlockLabel(info.id))];
    BreakUnfolds(c, l, MemOf(a));
    AtSplit(c.p, a.pc, g.code, exit);
    var k1 := SimLeave(c, info.tryDepth, a);
    LeaveGoalFacts(c, info.tryDepth, MemOf(a));
    var x := LeaveGoal(c, info.tryDepth, MemOf(a));
    var end := a.pc + |g.code + exit|;
    if x.Fall? {
      FallMeans(c, x.m, a.pc + |g.code|, g.labels, a, k1);
      k := ExitArrives(c, a, Run(c.w, c.p, a, k1), k1, m, BlockLabel(info.id), l, end, g.labels);
    } else {
      k := k1;
      AtLabel(c, c.n, x);
      Seen(c, x, end, g.labels, a, c, a.pc + |g.code|, g.labels, k);
    }
    Conclude(c, s, a, Goal(c, s, a), end, g.labels, k);
  }

  lemma BreakFits(c: Site, s: Stmt)
    requires s.Break? && Suits(c, s)
    ensures s.lbl in c.env
  {
    assert s.lbl in Free(s);
  }

  lemma BreakUnfolds(c: Site, l: nat, m: Mem)
    requires l in c.env
    ensures var g := GenLeave(c.st, c.env[l].tryDepth, c.env, c.n);
      var pops := PopsFor(c.st, c.env, l, 0);
      GenStmt(Break(l), c.st, c.env, c.n) == Gen(g.code + (Pops(pops) + [CGoto(BlockLabel(c.env[l].id))]), g.labels)
    ensures var x := LeaveGoal(c, c.env[l].tryDepth, m);
      Land(c.w, c.fuel, c.st, c.env, Flow(c.w, Break(l), c.fuel, m)) ==
        if Leave(c.w, c.fuel, c.st, c.env[l].tryDepth, c.env, m).Done? then
          BreakEnd(l, Popped(x.m, PopsFor(c.st, c.env, l, 0))) else x
  {
    hide Leave, GenLeave;
  }

  lemma SimReturn(c: Site, s: Stmt, a: State) returns (k: nat)
    requires s.Return? && Pre(c, s, a)
    ensures Result(c, s, a, k)
    decreases Size(s) + StackSize(c.st), 9
  {
    hide Context, Land, GenStmt, GenLeave, Sim, At, Run, LeaveGoal, SameSaved;
    var g := GenLeave(c.st, 0, c.env, c.n);
    var m := ExceptDepth(c.st);
    var exit := Pops(m) + [CGoto(BeforeRet)];
    ReturnUnfolds(c, MemOf(a));
    AtSplit(c.p, a.pc, g.code, exit);
    var k1 := SimLeave(c, 0, a);
    LeaveGoalFacts(c, 0, MemOf(a));
    var x := LeaveGoal(c, 0, MemOf(a));
    var end := a.pc + |g.code + exit|;
    if x.Fall? {
      FallMeans(c, x.m, a.pc + |g.code|, g.labels, a, k1);
      k := ExitArrives(c, a, Run(c.w, c.p, a, k1), k1, m, BeforeRet, 0, end, g.labels);
    } else {
      k := k1;
      AtLabel(c, c.n, x);
      Seen(c, x, end, g.labels, a, c, a.pc + |g.code|, g.labels, k);
    }
    Conclude(c, s, a, Goal(c, s, a), end, g.labels, k);
  }

  lemma ReturnUnfolds(c: Site, m: Mem)
    ensures var g := GenLeave(c.st, 0, c.env, c.n);
      GenStmt(Return, c.st, c.env, c.n) == Gen(g.code + (Pops(ExceptDepth(c.st)) + [CGoto(BeforeRet)]), g.labels)
    ensures var x := LeaveGoal(c, 0, m);
      Land(c.w, c.fuel, c.st, c.env, Flow(c.w, Return, c.fuel, m)) ==
        if Leave(c.w, c.fuel, c.st, 0, c.env, m).Done? then ReturnEnd(Popped(x.m, ExceptDepth(c.st))) else x
  {
    hide Leave, GenLeave;
  }

  // ---------- the finally section ----------

  /** What is needed of a `finally` clause, and of the handlers before it. */
  ghost predicate FinSuits(c: Site, f: Fin) {
    ScopedFin(f) && (forall l | l in FreeFin(f) :: LabelFits(l, c.st, c.env)) && DeclFin(f) !! StackFree(c.st)
  }

  ghost predicate HandlersSuit(c: Site, hs: Handlers, f: Fin) {
    && ScopedHandlers(hs)
    && (forall l | l in FreeHandlers(hs) :: LabelFits(l, c.st, c.env))
    && DeclHandlers(hs) !! StackFree(c.st)
    && DeclHandlers(hs) !! FreeFin(f)
  }

  lemma FinKnown(c: Site, f: Fin, r: Out)
    requires Context(c) && FinSuits(c, f) && (r.x.Breaks? ==> r.x.lbl in c.env)
    ensures Known(c, Land(c.w, c.fuel, c.st, c.env, FlowFin(c.w, f, c.fuel, r)))
  {
    hide FlowFin, Land;
    FinBreaksFree(c.w, f, c.fuel, r);
    LandKnown(c, FlowFin(c.w, f, c.fuel, r));
  }

  /** `raiseExit`. */
  lemma RaiseExitArrives(c: Site, h: State, hi: nat)
    requires h.pc < |c.p| && c.p[h.pc] == CIfErrGoto(RaiseLabel(c.st))
    ensures Sim(c, Land(c.w, c.fuel, c.st, c.env, RaiseExit(MemOf(h))), h.pc + 1, hi, h, 1)
  {
    hide Find, Step;
    OneStep(c.w, c.p, h);
    StepIfErrGoto(c, h);
  }

  lemma RaiseExitKnown(c: Site, m: Mem)
    ensures Known(c, Land(c.w, c.fuel, c.st, c.env, RaiseExit(m)))
  {
  }

  /** The section, from state `h` in which nothing but the flag tells what went before. */
  ghost predicate FinDone(c: Site, f: Fin, h: State, nf: nat, k: nat) {
    var g := GenFin(f, c.st, c.env, c.n + 1, nf);
    Sim(c, Land(c.w, c.fuel, c.st, c.env, FlowFin(c.w, f, c.fuel, Out(Falls, MemOf(h)))), h.pc + |g.code|, g.labels,
      h, k)
  }

  lemma SimFin(c: Site, f: Fin, h: State, nf: nat) returns (k: nat)
    requires Context(c) && FinSuits(c, f) && c.n < nf
    requires At(c.p, h.pc, GenFin(f, c.st, c.env, c.n + 1, nf).code)
    ensures FinDone(c, f, h, nf, k)
    decreases FinSize(f) + StackSize(c.st), 9
  {
    hide Context, GenStmt, Sim, Run, FinSuits, Land, At, Flow, Find;
    if f.NoFin? {
      AtLine(c.p, h.pc, [CIfErrGoto(RaiseLabel(c.st))], 0);
      RaiseExitArrives(c, h, nf);
      k := 1;
    } else if CanRaise(f.body) {
      k := SimLoudFin(c, f, h, nf);
    } else {
      k := SimQuietFin(c, f, h, nf);
    }
  }

  lemma FinUnfolds(c: Site, f: Fin, m: Mem, nf: nat)
    requires f.Fin?
    ensures var g := GenStmt(f.body, c.st, c.env, nf + 1);
      var tail := [CIfErrGoto(RaiseLabel(c.st))];
      GenFin(f, c.st, c.env, c.n + 1, nf) ==
        Gen(if CanRaise(f.body) then ([CSaveErr(c.n + 1)] + (g.code + [CRestoreErr(c.n + 1)])) + tail
            else g.code + tail, g.labels)
    ensures var loud := CanRaise(f.body);
      var r := Flow(c.w, f.body, c.fuel, if loud then m.(err := false) else m);
      FlowFin(c.w, f, c.fuel, Out(Falls, m)) ==
        if r.x.Falls? then RaiseExit(if loud then r.m.(err := m.err) else r.m) else r
  {
    hide GenStmt, CanRaise;
  }

  lemma FinBodyFits(c: Site, f: Fin, n: nat)
    requires Context(c) && f.Fin? && FinSuits(c, f)
    ensures Context(c.(n := n)) && Suits(c.(n := n), f.body)
  {
  }

  lemma SimQuietFin(c: Site, f: Fin, h: State, nf: nat) returns (k: nat)
    requires Context(c) && FinSuits(c, f) && c.n < nf && f.Fin? && !CanRaise(f.body)
    requires At(c.p, h.pc, GenFin(f, c.st, c.env, c.n + 1, nf).code)
    ensures FinDone(c, f, h, nf, k)
    decreases FinSize(f) + StackSize(c.st), 8
  {
    hide Context, GenStmt, GenFin, FlowFin, Sim, Run, FinSuits, Land, At, Flow, Suits, CanRaise, SameSaved;
    var g := GenStmt(f.body, c.st, c.env, nf + 1);
    var m := MemOf(h);
    FinUnfolds(c, f, m, nf);
    AtSplit(c.p, h.pc, g.code, [CIfErrGoto(RaiseLabel(c.st))]);
    AtLine(c.p, h.pc + |g.code|, [CIfErrGoto(RaiseLabel(c.st))], 0);
    FinBodyFits(c, f, nf + 1);
    var cf := c.(n := nf + 1);
    var k1 := SimStmt(cf, f.body, h);
    var b := Run(c.w, c.p, h, k1);
    var r := Flow(c.w, f.body, c.fuel, m);
    var x := Land(c.w, c.fuel, c.st, c.env, FlowFin(c.w, f, c.fuel, Out(Falls, m)));
    var mid := h.pc + |g.code|;
    FinKnown(c, f, Out(Falls, m));
    if r.x.Falls? {
      LandFall(cf, r);
      FallMeans(cf, r.m, mid, g.labels, h, k1);
      RaiseExitArrives(c, b, g.labels);
      WidenSaved(h, b, nf + 1, g.labels, c.n, g.labels);
      AtLabel(c, c.n, x);
      Onward(c, x, mid + 1, g.labels, h, k1, b, c, mid + 1, g.labels, 1);
      k := k1 + 1;
    } else {
      k := k1;
      LandFacts(c.w, c.fuel, c.st, c.env, r);
      AtLabel(c, nf + 1, x);
      Seen(c, x, mid + 1, g.labels, h, cf, mid, g.labels, k);
    }
  }

  lemma SimLoudFin(c: Site, f: Fin, h: State, nf: nat) returns (k: nat)
    requires Context(c) && FinSuits(c, f) && c.n < nf && f.Fin? && CanRaise(f.body)
    requires At(c.p, h.pc, GenFin(f, c.st, c.env, c.n + 1, nf).code)
    ensures FinDone(c, f, h, nf, k)
    decreases FinSize(f) + StackSize(c.st), 8
  {
    hide Context, GenStmt, GenFin, FlowFin, Sim, Run, FinSuits, Land, At, Flow, Suits, CanRaise, SameSaved;
    var g := GenStmt(f.body, c.st, c.env, nf + 1);
    var lab := c.n + 1;
    var m := MemOf(h);
    FinUnfolds(c, f, m, nf);
    LoudLayout(c, h.pc, lab, g.code);
    var h1 := h.(pc := h.pc + 1, err := false, saved := h.saved[lab := h.err]);
    OneStep(c.w, c.p, h);
    FinBodyFits(c, f, nf + 1);
    var cf := c.(n := nf + 1);
    var k1 := SimStmt(cf, f.body, h1);
    var r := Flow(c.w, f.body, c.fuel, MemOf(h1));
    var x := Land(c.w, c.fuel, c.st, c.env, FlowFin(c.w, f, c.fuel, Out(Falls, m)));
    var mid := h1.pc + |g.code|;
    FinKnown(c, f, Out(Falls, m));
    SavedStart(h, h1, lab, c.n, g.labels);
    if r.x.Falls? {
      LandFall(cf, r);
      FallMeans(cf, r.m, mid, g.labels, h1, k1);
      var b := Run(c.w, c.p, h1, k1);
      var d := LoudRestores(c, h, h1, b, nf, g.labels);
      RaiseExitArrives(c, d, g.labels);
      OneStep(c.w, c.p, b);
      RunAdd(c.w, c.p, h1, k1, 1);
      RunAdd(c.w, c.p, h, 1, k1 + 1);
      AtLabel(c, c.n, x);
      Onward(c, x, mid + 2, g.labels, h, 1 + (k1 + 1), d, c, mid + 2, g.labels, 1);
      k := (1 + (k1 + 1)) + 1;
    } else {
      LandFacts(c.w, c.fuel, c.st, c.env, r);
      AtLabel(c, nf + 1, x);
      Onward(c, x, mid + 2, g.labels, h, 1, h1, cf, mid, g.labels, k1);
      k := 1 + k1;
    }
  }

  lemma SavedStart(h: State, h1: State, lab: nat, lo: nat, hi: nat)
    requires h1.saved == h.saved[lab := h.err] && lo < lab <= hi
    ensures SameSaved(h, h1, lo, hi)
  {
  }

  /** After the body the saved error flag comes back. */
  lemma LoudRestores(c: Site, h: State, h1: State, b: State, nf: nat, hi: nat) returns (d: State)
    requires c.n < nf && nf + 1 <= hi
    requires h1 == h.(pc := h.pc + 1, err := false, saved := h.saved[c.n + 1 := h.err])
    requires SameSaved(h1, b, nf + 1, hi)
    requires b.pc < |c.p| && c.p[b.pc] == CRestoreErr(c.n + 1)
    ensures d == Step(c.w, c.p, b) == b.(pc := b.pc + 1, err := h.err) && SameSaved(h, d, c.n, hi)
  {
    d := Step(c.w, c.p, b);
    assert b.saved[c.n + 1] == h.err;
  }

  lemma LoudLayout(c: Site, pc: nat, lab: nat, code: Code)
    requires At(c.p, pc, ([CSaveErr(lab)] + (code + [CRestoreErr(lab)])) + [CIfErrGoto(RaiseLabel(c.st))])
    ensures pc + |code| + 2 < |c.p|
    ensures c.p[pc] == CSaveErr(lab) && At(c.p, pc + 1, code)
    ensures c.p[pc + 1 + |code|] == CRestoreErr(lab) && c.p[pc + 2 + |code|] == CIfErrGoto(RaiseLabel(c.st))
  {
    hide At;
    var save, restore, tail := [CSaveErr(lab)], [CRestoreErr(lab)], [CIfErrGoto(RaiseLabel(c.st))];
    AtSplit(c.p, pc, save + (code + restore), tail);
    AtSplit(c.p, pc, save, code + restore);
    AtSplit(c.p, pc + 1, code, restore);
    AtLine(c.p, pc, save, 0);
    AtLine(c.p, pc + 1 + |code|, restore, 0);
    AtLine(c.p, pc + 2 + |code|, tail, 0);
  }

  // ---------- handlers ----------

  /** After the handlers: at their end, or gone elsewhere. */
  ghost predicate HandlersDone(c: Site, f: Fin, r: Out, end: nat, hi: nat, a: State, k: nat) {
    if r.x.Falls? then Sim(c, Fall(r.m), end, hi, a, k)
    else Sim(c, Land(c.w, c.fuel, c.st, c.env, FlowFin(c.w, f, c.fuel, r)), 0, hi, a, k)
  }

  /** Inside a `try` with that entry on the stack. */
  ghost function Within(c: Site, f: Fin, inExcept: bool, lbl: nat, n: nat): Site {
    c.(st := Push(Entry(f, inExcept, lbl), c.st), n := n)
  }

  lemma WithinFits(c: Site, s: Stmt, f: Fin, inExcept: bool, lbl: nat, n: nat)
    requires Context(c) && FinSuits(c, f) && Suits(c, s) && Decl(s) !! FreeFin(f)
    ensures Context(Within(c, f, inExcept, lbl, n)) && Suits(Within(c, f, inExcept, lbl, n), s)
  {
    hide Labels, Scoped, Free, Decl;
  }

  /** A break or return out of the body of a `try` lands where the `try` statement does. */
  lemma LeavesTry(c: Site, s: Stmt, f: Fin, inExcept: bool, lbl: nat, n: nat, a: State, end: nat, hi: nat, k: nat)
    requires Context(c) && FinSuits(c, f) && Suits(c, s) && c.n <= n
    requires Leaves(Flow(c.w, s, c.fuel, MemOf(a)).x)
    requires Sim(Within(c, f, inExcept, lbl, n), Goal(Within(c, f, inExcept, lbl, n), s, a), end, hi, a, k)
    ensures var r := Flow(c.w, s, c.fuel, MemOf(a));
      HandlersDone(c, f, if inExcept then HandlerEnd(r) else r, end, hi, a, k)
  {
    hide Sim, Context, FinSuits, Flow, FlowFin, Land;
    var r := Flow(c.w, s, c.fuel, MemOf(a));
    var r' := if inExcept then HandlerEnd(r) else r;
    BreaksIsFree(c.w, s, c.fuel, MemOf(a));
    if inExcept {
      FinishHandler(c.w, c.fuel, f, lbl, c.st, c.env, r);
    } else {
      FinishLand(c.w, c.fuel, f, lbl, c.st, c.env, r);
    }
    var x := Land(c.w, c.fuel, c.st, c.env, FlowFin(c.w, f, c.fuel, r'));
    FinKnown(c, f, r');
    FinLeaves(c, f, r');
    Seen(c, x, 0, hi, a, Within(c, f, inExcept, lbl, n), end, hi, k);
  }

  lemma FinLeaves(c: Site, f: Fin, r: Out)
    requires Leaves(r.x)
    ensures !Land(c.w, c.fuel, c.st, c.env, FlowFin(c.w, f, c.fuel, r)).Fall?
  {
    hide Flow, Land;
    LandFacts(c.w, c.fuel, c.st, c.env, FlowFin(c.w, f, c.fuel, r));
  }

  lemma HandlersUnfold(c: Site, hs: Handlers, f: Fin, nh: nat)
    requires hs.Handler?
    ensures var gb := GenStmt(hs.body, Push(Entry(f, true, nh + 1), c.st), c.env, nh + 2);
      var gr := GenHandlers(hs.rest, f, c.st, c.env, gb.labels);
      && GenHandlers(hs, f, c.st, c.env, nh) == Gen(HandlerCode(hs.kinds, gb.code, nh + 1, |gr.code|) + gr.code,
        gr.labels)
      && nh + 2 <= gb.labels <= gr.labels
  {
  }

  /** Where the lines of one handler are; `pc` is the line after the test. */
  ghost predicate HandlerLayout(c: Site, pc: nat, body: Code, next: nat, rest: nat) {
    var e := pc + 1 + |body|;
    && e + 2 < |c.p|
    && c.p[pc] == CClearErr && At(c.p, pc + 1, body)
    && c.p[e] == CPop && c.p[e + 1] == CLabel(CodeLabel(next)) && c.p[e + 2] == CElse(rest)
    && Find(c.p, CodeLabel(next)) == e + 1
  }

  lemma HandlerLaidOut(c: Site, pc: nat, body: Code, next: nat, rest: nat)
    requires Labels(c.p, c.ids) && At(c.p, pc, HandlerBody(body, next) + [CElse(rest)])
    ensures HandlerLayout(c, pc, body, next, rest)
  {
    hide At, Labels, Find;
    var tail := [CPop, CLabel(CodeLabel(next))];
    AtSplit(c.p, pc, HandlerBody(body, next), [CElse(rest)]);
    AtSplit(c.p, pc, [CClearErr], body + tail);
    AtSplit(c.p, pc + 1, body, tail);
    AtLine(c.p, pc, [CClearErr], 0);
    AtLine(c.p, pc + 1 + |body|, tail, 0);
    AtLine(c.p, pc + 1 + |body|, tail, 1);
    AtLine(c.p, pc + 3 + |body|, [CElse(rest)], 0);
    FindUnique(c.p, pc + 2 + |body|, c.ids);
  }

  lemma HandlerLayoutAt(c: Site, pc: nat, body: Code, next: nat, rest: nat)
    requires HandlerLayout(c, pc, body, next, rest)
    ensures At(c.p, pc + 1, body) && pc < |c.p| && c.p[pc] == CClearErr
  {
  }

  lemma FlowHandlersUnfold(c: Site, hs: Handlers, m: Mem)
    requires hs.Handler?
    ensures FlowHandlers(c.w, hs, c.fuel, m) ==
      if hs.kinds.Only? && m.exns == [] then Out(Hangs, m)
      else if hs.kinds.Only? && !Catches(c.w, hs.kinds, m.exns[0]) then FlowHandlers(c.w, hs.rest, c.fuel, m)
      else HandlerEnd(Flow(c.w, hs.body, c.fuel, m.(err := false)))
  {
  }

  lemma HandlersSuitParts(c: Site, hs: Handlers, f: Fin)
    requires hs.Handler? && HandlersSuit(c, hs, f)
    ensures HandlersSuit(c, hs.rest, f) && Suits(c, hs.body) && Decl(hs.body) !! FreeFin(f)
  {
  }

  lemma NoHandlerDone(c: Site, f: Fin, h: State, nh: nat)
    ensures GenHandlers(NoHandler, f, c.st, c.env, nh) == Gen([], nh)
    ensures HandlersDone(c, f, FlowHandlers(c.w, NoHandler, c.fuel, MemOf(h)), h.pc, nh, h, 0)
  {
  }

  lemma BodyLength(body: Code, next: nat)
    ensures |HandlerBody(body, next)| == 3 + |body|
  {
  }

  /** The test of a handler: on to its first line, over it, or nowhere without an exception. */
  lemma HandlerTest(c: Site, hs: Handlers, h: State, body: Code, next: nat, rest: nat)
    requires hs.Handler? && At(c.p, h.pc, HandlerCode(hs.kinds, body, next, rest))
    ensures h.pc < |c.p|
    ensures hs.kinds.Only? && h.exns == [] ==> Step(c.w, c.p, h) == h
    ensures hs.kinds.Only? && h.exns != [] && !Catches(c.w, hs.kinds, h.exns[0]) ==>
      Run(c.w, c.p, h, 1) == h.(pc := h.pc + |HandlerCode(hs.kinds, body, next, rest)|)
    ensures hs.kinds.All? || (h.exns != [] && Catches(c.w, hs.kinds, h.exns[0])) ==>
      var k0 := if hs.kinds.All? then 0 else 1;
      && Run(c.w, c.p, h, k0) == h.(pc := h.pc + k0)
      && At(c.p, h.pc + k0, HandlerBody(body, next) + [CElse(rest)])
      && |HandlerCode(hs.kinds, body, next, rest)| == k0 + 4 + |body|
  {
    hide At, Catches, Run, HandlerBody, Holds, OrExpr;
    var code := HandlerBody(body, next) + [CElse(rest)];
    BodyLength(body, next);
    if hs.kinds.All? {
      AtLine(c.p, h.pc, code, 0);
      assert Run(c.w, c.p, h, 0) == h by {
        NoStep(c.w, c.p, h);
      }
    } else {
      var test := CIfMatch(OrExpr(hs.kinds.kinds), |code|);
      AtSplit(c.p, h.pc, [test], code);
      AtLine(c.p, h.pc, [test], 0);
      OneStep(c.w, c.p, h);
      if h.exns != [] {
        TestIsCatches(c.w, hs.kinds, h.exns[0]);
      }
    }
  }

  lemma TestIsCatches(w: World, k: Kinds, e: Exn)
    ensures k.Only? ==> (Holds(w, OrExpr(k.kinds), e) <==> Catches(w, k, e))
  {
    if k.Only? {
      OrExprMeans(w, k.kinds, e);
    }
  }

  lemma NoStep(w: World, p: Code, h: State)
    ensures Run(w, p, h, 0) == h
  {
  }

  lemma DoneOnward(c: Site, f: Fin, r: Out, end: nat, hi: nat, a: State, k1: nat, b: State, hi': nat, k2: nat)
    requires b == Run(c.w, c.p, a, k1) && SameSaved(a, b, c.n, hi) && HandlersDone(c, f, r, end, hi', b, k2)
      && hi' <= hi
    requires Known(c, Land(c.w, c.fuel, c.st, c.env, FlowFin(c.w, f, c.fuel, r)))
    requires r.x.Falls? || !Land(c.w, c.fuel, c.st, c.env, FlowFin(c.w, f, c.fuel, r)).Fall?
    ensures HandlersDone(c, f, r, end, hi, a, k1 + k2)
  {
    hide Sim, Land, FlowFin, Run, SameSaved;
    if r.x.Falls? {
      Onward(c, Fall(r.m), end, hi, a, k1, b, c, end, hi', k2);
    } else {
      var x := Land(c.w, c.fuel, c.st, c.env, FlowFin(c.w, f, c.fuel, r));
      Onward(c, x, 0, hi, a, k1, b, c, 0, hi', k2);
    }
  }

  lemma HandlersExit(c: Site, hs: Handlers, f: Fin, m: Mem)
    requires Context(c) && FinSuits(c, f) && HandlersSuit(c, hs, f)
    ensures var r := FlowHandlers(c.w, hs, c.fuel, m);
      var x := Land(c.w, c.fuel, c.st, c.env, FlowFin(c.w, f, c.fuel, r));
      Known(c, x) && (r.x.Falls? || (Leaves(r.x) && !x.Fall?))
  {
    hide Land, FlowFin, Flow;
    var r := FlowHandlers(c.w, hs, c.fuel, m);
    HandlersBreakFree(c.w, hs, c.fuel, m);
    FinKnown(c, f, r);
    if !r.x.Falls? {
      FinLeaves(c, f, r);
    }
  }

  lemma SimHandlers(c: Site, hs: Handlers, f: Fin, h: State, nh: nat) returns (k: nat)
    requires Context(c) && FinSuits(c, f) && HandlersSuit(c, hs, f) && c.n < nh
    requires At(c.p, h.pc, GenHandlers(hs, f, c.st, c.env, nh).code)
    ensures var g := GenHandlers(hs, f, c.st, c.env, nh);
      HandlersDone(c, f, FlowHandlers(c.w, hs, c.fuel, MemOf(h)), h.pc + |g.code|, g.labels, h, k)
    decreases HandlersSize(hs) + FinSize(f) + StackSize(c.st), 9
  {
    hide Context, GenStmt, GenHandlers, HandlerCode, Run, FinSuits, HandlersSuit, Land, At, Flow, FlowHandlers, FlowFin,
      Catches, HandlersDone, SameSaved, Sim, Suits, Step;
    if hs.NoHandler? {
      k := 0;
      NoHandlerDone(c, f, h, nh);
    } else {
      var gb := GenStmt(hs.body, Push(Entry(f, true, nh + 1), c.st), c.env, nh + 2);
      var gr := GenHandlers(hs.rest, f, c.st, c.env, gb.labels);
      HandlersUnfold(c, hs, f, nh);
      var one := HandlerCode(hs.kinds, gb.code, nh + 1, |gr.code|);
      AtSplit(c.p, h.pc, one, gr.code);
      HandlerTest(c, hs, h, gb.code, nh + 1, |gr.code|);
      FlowHandlersUnfold(c, hs, MemOf(h));
      HandlersSuitParts(c, hs, f);
      HandlersExit(c, hs, f, MemOf(h));
      var r := FlowHandlers(c.w, hs, c.fuel, MemOf(h));
      var end := h.pc + |one + gr.code|;
      if hs.kinds.Only? && h.exns == [] {
        NoStep(c.w, c.p, h);
        HandlersStuck(c, f, r, end, gr.labels, h);
        k := c.bound;
      } else if hs.kinds.Only? && !Catches(c.w, hs.kinds, h.exns[0]) {
        var h0 := Run(c.w, c.p, h, 1);
        SavedSelf(h, h0, c.n, gr.labels);
        var k1 := SimHandlers(c, hs.rest, f, h0, gb.labels);
        DoneOnward(c, f, r, end, gr.labels, h, 1, h0, gr.labels, k1);
        k := 1 + k1;
      } else {
        var k0 := if hs.kinds.All? then 0 else 1;
        var h0 := Run(c.w, c.p, h, k0);
        SavedSelf(h, h0, c.n, gr.labels);
        var k1 := SimHandler(c, hs.body, f, h0, nh, |gr.code|);
        DoneOnward(c, f, r, end, gr.labels, h, k0, h0, gb.labels, k1);
        k := k0 + k1;
      }
    }
  }

  lemma HandlersStuck(c: Site, f: Fin, r: Out, end: nat, hi: nat, h: State)
    requires r.x.Hangs? && h.pc < |c.p| && Step(c.w, c.p, h) == h
    ensures HandlersDone(c, f, r, end, hi, h, c.bound)
  {
    hide Step;
    NoStep(c.w, c.p, h);
    StuckSim(c, 0, hi, h, 0);
  }

  /** The body of the matching handler, from the line that clears the error flag. */
  lemma SimHandler(c: Site, s: Stmt, f: Fin, h: State, nh: nat, rest: nat) returns (k: nat)
    requires Context(c) && FinSuits(c, f) && c.n < nh && Suits(c, s) && Decl(s) !! FreeFin(f)
    requires At(c.p, h.pc, HandlerBody(GenStmt(s, Push(Entry(f, true, nh + 1), c.st), c.env, nh + 2).code, nh + 1) +
      [CElse(rest)])
    ensures var gb := GenStmt(s, Push(Entry(f, true, nh + 1), c.st), c.env, nh + 2);
      HandlersDone(c, f, HandlerEnd(Flow(c.w, s, c.fuel, MemOf(h).(err := false))), h.pc + 4 + |gb.code| + rest,
        gb.labels, h, k)
    decreases Size(s) + FinSize(f) + StackSize(c.st), 11
  {
    hide Context, GenStmt, Run, FinSuits, Land, At, Flow, HandlersDone, Suits, Sim, FlowFin,
      HandlerLayout, HandlerBody, SameSaved;
    var next := nh + 1;
    var gb := GenStmt(s, Push(Entry(f, true, next), c.st), c.env, nh + 2);
    ContextFacts(c);
    HandlerLaidOut(c, h.pc, gb.code, next, rest);
    HandlerLayoutAt(c, h.pc, gb.code, next, rest);
    var h1 := h.(pc := h.pc + 1, err := false);
    OneStep(c.w, c.p, h);
    var c2 := Within(c, f, true, next, nh + 2);
    WithinFits(c, s, f, true, next, nh + 2);
    var k1 := SimStmt(c2, s, h1);
    var r := Flow(c.w, s, c.fuel, MemOf(h1));
    var end := h.pc + 4 + |gb.code| + rest;
    if Leaves(r.x) {
      LeavesTry(c, s, f, true, next, nh + 2, h1, h1.pc + |gb.code|, gb.labels, k1);
      HandlerGone(c, f, s, h1, end, h1.pc + |gb.code|, gb.labels, k1);
      SavedSelf(h, h1, c.n, gb.labels);
      DoneOnward(c, f, HandlerEnd(r), end, gb.labels, h, 1, h1, gb.labels, k1);
      k := 1 + k1;
    } else if r.x.Falls? {
      k := HandlerFalls(c, c2, r, f, h, h1, k1, nh, gb, rest);
    } else {
      k := HandlerRaises(c, c2, r, f, h, h1, k1, nh, gb, rest);
    }
  }

  lemma HandlerGone(c: Site, f: Fin, s: Stmt, h: State, end: nat, end': nat, hi: nat, k: nat)
    requires Context(c) && FinSuits(c, f) && Suits(c, s)
    requires var r := Flow(c.w, s, c.fuel, MemOf(h)); Leaves(r.x) && HandlersDone(c, f, HandlerEnd(r), end', hi, h, k)
    ensures var r := HandlerEnd(Flow(c.w, s, c.fuel, MemOf(h)));
      var x := Land(c.w, c.fuel, c.st, c.env, FlowFin(c.w, f, c.fuel, r));
      !r.x.Falls? && Known(c, x) && !x.Fall? && HandlersDone(c, f, r, end, hi, h, k)
  {
    hide Sim, Context, FinSuits, Flow, FlowFin, Land;
    BreaksIsFree(c.w, s, c.fuel, MemOf(h));
    var r := HandlerEnd(Flow(c.w, s, c.fuel, MemOf(h)));
    FinKnown(c, f, r);
    FinLeaves(c, f, r);
  }

  /** The lines after a handler body that ended normally. */
  lemma HandlerEnds(c: Site, b: State, pc: nat, body: Code, next: nat, rest: nat)
    requires HandlerLayout(c, pc, body, next, rest) && b.pc == pc + 1 + |body|
    ensures b.pc < |c.p|
    ensures |b.exns| > 0 ==> Run(c.w, c.p, b, 3) == b.(pc := pc + 4 + |body| + rest, exns := b.exns[1..])
    ensures b.exns == [] ==> Step(c.w, c.p, b) == b
  {
    hide Run, Find, At;
    if b.exns != [] {
      hide Step;
      ThreeSteps(c, b);
      StepPop(c, b);
      StepLabel(c, Step(c.w, c.p, b));
      StepElse(c, Step(c.w, c.p, Step(c.w, c.p, b)));
    }
  }

  lemma HandlerFalls(c: Site, c2: Site, r: Out, f: Fin, h: State, h1: State, k1: nat, nh: nat, gb: Gen, rest: nat)
    returns (k: nat)
    requires c.n < nh && nh + 2 <= gb.labels && c2 == Within(c, f, true, nh + 1, nh + 2) && r.x.Falls?
    requires h1 == h.(pc := h.pc + 1, err := false) && h1 == Run(c.w, c.p, h, 1)
    requires HandlerLayout(c, h.pc, gb.code, nh + 1, rest)
    requires Sim(c2, Land(c2.w, c2.fuel, c2.st, c2.env, r), h1.pc + |gb.code|, gb.labels, h1, k1)
    ensures HandlersDone(c, f, HandlerEnd(r), h.pc + 4 + |gb.code| + rest, gb.labels, h, k)
  {
    hide Run, Find, Sim, SameSaved, Step, HandlerLayout, Leave;
    LandFall(c2, r);
    FallMeans(c2, r.m, h1.pc + |gb.code|, gb.labels, h1, k1);
    var b := Run(c.w, c.p, h1, k1);
    RunAdd(c.w, c.p, h, 1, k1);
    HandlerEnds(c, b, h.pc, gb.code, nh + 1, rest);
    WidenSaved(h1, b, nh + 2, gb.labels, c.n, gb.labels);
    var end := h.pc + 4 + |gb.code| + rest;
    if b.exns == [] {
      StuckSim(c, 0, gb.labels, h, 1 + k1);
      k := 1 + k1 + c.bound;
    } else {
      RunAdd(c.w, c.p, h, 1 + k1, 3);
      k := (1 + k1) + 3;
      SavedOn(h, h1, b, Run(c.w, c.p, h, k), c.n, gb.labels);
      FallIs(c, HandlerEnd(r).m, end, gb.labels, h, k);
    }
  }

  /** A raise in a handler goes past the line that would pop the exception. */
  lemma HandlerRaises(c: Site, c2: Site, r: Out, f: Fin, h: State, h1: State, k1: nat, nh: nat, gb: Gen, rest: nat)
    returns (k: nat)
    requires c.n < nh && nh + 2 <= gb.labels && c2 == Within(c, f, true, nh + 1, nh + 2) && r.x.Jumps?
    requires h1 == h.(pc := h.pc + 1, err := false) && h1 == Run(c.w, c.p, h, 1)
    requires HandlerLayout(c, h.pc, gb.code, nh + 1, rest)
    requires Sim(c2, Land(c2.w, c2.fuel, c2.st, c2.env, r), h1.pc + |gb.code|, gb.labels, h1, k1)
    ensures HandlersDone(c, f, HandlerEnd(r), h.pc + 4 + |gb.code| + rest, gb.labels, h, k)
  {
    hide Run, Find, SameSaved, Step, At;
    var b := Run(c.w, c.p, h1, k1);
    RunAdd(c.w, c.p, h, 1, k1);
    TwoSteps(c, b);
    StepLabel(c, b);
    StepElse(c, Step(c.w, c.p, b));
    RunAdd(c.w, c.p, h, 1 + k1, 2);
    k := (1 + k1) + 2;
    WidenSaved(h1, b, nh + 2, gb.labels, c.n, gb.labels);
    SavedOn(h, h1, b, Run(c.w, c.p, h, k), c.n, gb.labels);
  }

  // ---------- the whole try statement ----------

  ghost predicate TryLayout(c: Site, pc: nat, body: Code, hs: Handlers, lab: nat, handlers: Code, fin: Code) {
    var sec := pc + |body|;
    var at := if hs.Handler? then sec + 1 else sec;
    && at < |c.p|
    && At(c.p, pc, body)
    && (hs.Handler? ==> c.p[sec] == CIfErr(1 + |handlers|))
    && (hs.NoHandler? ==> handlers == [])
    && c.p[at] == CLabel(CodeLabel(lab)) && Find(c.p, CodeLabel(lab)) == at
    && At(c.p, at + 1, handlers) && At(c.p, at + 1 + |handlers|, fin)
  }

  ghost function FinPc(pc: nat, body: Code, hs: Handlers, handlers: Code): nat {
    pc + |body| + (if hs.Handler? then 2 else 1) + |handlers|
  }

  lemma SectionIs(hs: Handlers, lab: nat, handlers: Code)
    ensures var open := if hs.Handler? then [CIfErr(1 + |handlers|)] else [];
      && HandlerSection(hs, lab, handlers) == open + ([CLabel(CodeLabel(lab))] + handlers)
      && |HandlerSection(hs, lab, handlers)| == |open| + 1 + |handlers|
  {
  }

  lemma TrySplits(c: Site, pc: nat, body: Code, hs: Handlers, lab: nat, handlers: Code, fin: Code, open: Code)
    requires open == if hs.Handler? then [CIfErr(1 + |handlers|)] else []
    requires At(c.p, pc, body + (HandlerSection(hs, lab, handlers) + fin))
    ensures var sec := pc + |body|;
      && At(c.p, pc, body) && At(c.p, sec, open) && At(c.p, sec + |open|, [CLabel(CodeLabel(lab))])
      && At(c.p, sec + |open| + 1, handlers) && At(c.p, sec + |open| + 1 + |handlers|, fin)
  {
    hide At, HandlerSection;
    var lbl := [CLabel(CodeLabel(lab))];
    var sec := pc + |body|;
    SectionIs(hs, lab, handlers);
    AtSplit(c.p, pc, body, HandlerSection(hs, lab, handlers) + fin);
    AtSplit(c.p, sec, HandlerSection(hs, lab, handlers), fin);
    AtSplit(c.p, sec, open, lbl + handlers);
    AtSplit(c.p, sec + |open|, lbl, handlers);
  }

  lemma TryLaidOut(c: Site, pc: nat, body: Code, hs: Handlers, lab: nat, handlers: Code, fin: Code)
    requires Labels(c.p, c.ids) && (hs.NoHandler? ==> handlers == [])
    requires At(c.p, pc, body + (HandlerSection(hs, lab, handlers) + fin))
    ensures TryLayout(c, pc, body, hs, lab, handlers, fin)
    ensures At(c.p, FinPc(pc, body, hs, handlers), fin)
  {
    hide At, Labels, Find, HandlerSection;
    var open := if hs.Handler? then [CIfErr(1 + |handlers|)] else [];
    var lbl := [CLabel(CodeLabel(lab))];
    var sec := pc + |body|;
    TrySplits(c, pc, body, hs, lab, handlers, fin, open);
    if hs.Handler? {
      AtLine(c.p, sec, open, 0);
    }
    AtLine(c.p, sec + |open|, lbl, 0);
    FindUnique(c.p, sec + |open|, c.ids);
  }

  lemma TryLayoutAt(c: Site, pc: nat, body: Code, hs: Handlers, lab: nat, handlers: Code, fin: Code)
    requires TryLayout(c, pc, body, hs, lab, handlers, fin)
    ensures At(c.p, pc, body) && At(c.p, FinPc(pc, body, hs, handlers) - |handlers|, handlers)
  {
  }

  lemma TryUnfolds(c: Site, s: Stmt, m: Mem, gb: Gen, gh: Gen, gf: Gen)
    requires s.Try?
    requires gb == GenStmt(s.body, Push(Entry(s.fin, false, c.n + 1), c.st), c.env, c.n + 1)
    requires gh == GenHandlers(s.handlers, s.fin, c.st, c.env, gb.labels + 1)
    requires gf == GenFin(s.fin, c.st, c.env, c.n + 1, gh.labels)
    ensures GenStmt(s, c.st, c.env, c.n) == Gen(gb.code + (HandlerSection(s.handlers, c.n + 1, gh.code) + gf.code),
      gf.labels)
    ensures |GenStmt(s, c.st, c.env, c.n).code| == FinPc(0, gb.code, s.handlers, gh.code) + |gf.code|
    ensures c.n + 1 <= gb.labels < gh.labels <= gf.labels
    ensures s.handlers.NoHandler? ==> gh.code == []
    ensures Flow(c.w, s, c.fuel, m) ==
      FlowFin(c.w, s.fin, c.fuel, FlowHandled(c.w, s.handlers, c.fuel, Flow(c.w, s.body, c.fuel, m)))
  {
    hide FlowFin, FlowHandled, GenFin, HandlerCode, CanRaise;
  }

  lemma TrySuits(c: Site, s: Stmt)
    requires s.Try? && Suits(c, s)
    ensures FinSuits(c, s.fin) && HandlersSuit(c, s.handlers, s.fin)
    ensures Suits(c, s.body) && Decl(s.body) !! FreeFin(s.fin)
  {
  }

  lemma SimTry(c: Site, s: Stmt, a: State) returns (k: nat)
    requires s.Try? && Pre(c, s, a)
    ensures Result(c, s, a, k)
    decreases Size(s) + StackSize(c.st), 9
  {
    hide Context, Suits, GenStmt, GenHandlers, GenFin, HandlerSection, Sim, Run, Land, At, Flow, FinSuits, HandlersSuit,
      TryLayout, FlowHandled, FlowFin, HandlersDone, FinPc, SameSaved;
    var f, hs := s.fin, s.handlers;
    var lab := c.n + 1;
    var gb := GenStmt(s.body, Push(Entry(f, false, lab), c.st), c.env, lab);
    var gh := GenHandlers(hs, f, c.st, c.env, gb.labels + 1);
    var gf := GenFin(f, c.st, c.env, lab, gh.labels);
    TryUnfolds(c, s, MemOf(a), gb, gh, gf);
    ContextFacts(c);
    TryLaidOut(c, a.pc, gb.code, hs, lab, gh.code, gf.code);
    TryLayoutAt(c, a.pc, gb.code, hs, lab, gh.code, gf.code);
    TrySuits(c, s);
    WithinFits(c, s.body, f, false, lab, lab);
    var k1 := SimStmt(Within(c, f, false, lab, lab), s.body, a);
    var kh := BodyDone(c, s, a, gb, gh, gf, k1);
    var r := FlowHandled(c.w, hs, c.fuel, Flow(c.w, s.body, c.fuel, MemOf(a)));
    var pcFin := FinPc(a.pc, gb.code, hs, gh.code);
    FinPcIs(a.pc, gb.code, hs, gh.code);
    if r.x.Falls? {
      var h := AtFin(c, f, r, pcFin, gh.labels, a, kh);
      var k2 := SimFin(c, f, h, gh.labels);
      k := TryEnds(c, s, a, r, gh, gf, kh, h, k2);
    } else {
      k := kh;
      GoneElsewhere(c, f, r, pcFin, gh.labels, a, kh, pcFin + |gf.code|, gf.labels);
    }
    Conclude(c, s, a, Goal(c, s, a), pcFin + |gf.code|, gf.labels, k);
  }

  lemma FinPcIs(pc: nat, body: Code, hs: Handlers, handlers: Code)
    ensures FinPc(pc, body, hs, handlers) == pc + FinPc(0, body, hs, handlers)
  {
  }

  lemma AtFin(c: Site, f: Fin, r: Out, end: nat, hi: nat, a: State, k: nat) returns (h: State)
    requires HandlersDone(c, f, r, end, hi, a, k) && r.x.Falls?
    ensures h == Run(c.w, c.p, a, k) && h.pc == end && MemOf(h) == r.m && SameSaved(a, h, c.n, hi)
  {
    hide Run;
    h := Run(c.w, c.p, a, k);
  }

  lemma TryEnds(c: Site, s: Stmt, a: State, r: Out, gh: Gen, gf: Gen, kh: nat, h: State, k2: nat) returns (k: nat)
    requires s.Try? && r.x.Falls? && c.n < gh.labels <= gf.labels && Context(c) && FinSuits(c, s.fin)
    requires gf == GenFin(s.fin, c.st, c.env, c.n + 1, gh.labels)
    requires h == Run(c.w, c.p, a, kh) && MemOf(h) == r.m && SameSaved(a, h, c.n, gh.labels)
    requires FinDone(c, s.fin, h, gh.labels, k2)
    ensures Sim(c, Land(c.w, c.fuel, c.st, c.env, FlowFin(c.w, s.fin, c.fuel, r)), h.pc + |gf.code|, gf.labels, a, k)
  {
    hide Context, FinSuits, Sim, Run, Land, FlowFin, SameSaved, GenFin;
    var x := Land(c.w, c.fuel, c.st, c.env, FlowFin(c.w, s.fin, c.fuel, r));
    assert r == Out(Falls, MemOf(h));
    FinKnown(c, s.fin, r);
    AtLabel(c, c.n, x);
    WidenSaved(a, h, c.n, gh.labels, c.n, gf.labels);
    Onward(c, x, h.pc + |gf.code|, gf.labels, a, kh, h, c, h.pc + |gf.code|, gf.labels, k2);
    k := kh + k2;
  }

  lemma GoneElsewhere(c: Site, f: Fin, r: Out, end: nat, hi: nat, a: State, k: nat, end': nat, hi': nat)
    requires HandlersDone(c, f, r, end, hi, a, k) && !r.x.Falls? && hi <= hi'
    requires Known(c, Land(c.w, c.fuel, c.st, c.env, FlowFin(c.w, f, c.fuel, r))) && Leaves(r.x)
    ensures Sim(c, Land(c.w, c.fuel, c.st, c.env, FlowFin(c.w, f, c.fuel, r)), end', hi', a, k)
  {
    hide Land, FlowFin, Sim;
    var x := Land(c.w, c.fuel, c.st, c.env, FlowFin(c.w, f, c.fuel, r));
    FinLeaves(c, f, r);
    Seen(c, x, end', hi', a, c, 0, hi, k);
  }

  /** From the end of the body to the start of the `finally` section, through the handlers if need be. */
  lemma BodyDone(c: Site, s: Stmt, a: State, gb: Gen, gh: Gen, gf: Gen, k1: nat) returns (k: nat)
    requires s.Try? && Context(c) && Suits(c, s)
    requires gh == GenHandlers(s.handlers, s.fin, c.st, c.env, gb.labels + 1)
    requires c.n + 1 <= gb.labels < gh.labels
    requires TryLayout(c, a.pc, gb.code, s.handlers, c.n + 1, gh.code, gf.code)
    requires var c1 := Within(c, s.fin, false, c.n + 1, c.n + 1);
      Sim(c1, Goal(c1, s.body, a), a.pc + |gb.code|, gb.labels, a, k1)
    ensures var r := FlowHandled(c.w, s.handlers, c.fuel, Flow(c.w, s.body, c.fuel, MemOf(a)));
      && HandlersDone(c, s.fin, r, FinPc(a.pc, gb.code, s.handlers, gh.code), gh.labels, a, k)
      && Known(c, Land(c.w, c.fuel, c.st, c.env, FlowFin(c.w, s.fin, c.fuel, r))) && !r.x.Jumps?
    decreases Size(s) + StackSize(c.st), 8
  {
    hide Context, GenHandlers, Sim, Run, Land, At, Flow, FinSuits, HandlersSuit, TryLayout, FlowHandlers, FlowFin,
      HandlersDone, Suits, FinPc, SameSaved;
    var r1 := Flow(c.w, s.body, c.fuel, MemOf(a));
    var end := FinPc(a.pc, gb.code, s.handlers, gh.code);
    TrySuits(c, s);
    if Leaves(r1.x) {
      k := k1;
      LeavesTry(c, s.body, s.fin, false, c.n + 1, c.n + 1, a, a.pc + |gb.code|, gb.labels, k1);
      BodyGone(c, s, a, end, a.pc + |gb.code|, gb.labels, gh.labels, k1);
    } else if r1.x.Jumps? || r1.m.err {
      var h := BodyRaises(c, s, a, gb, gh, gf, k1);
      var k2 := SimHandlers(c, s.handlers, s.fin, h, gb.labels + 1);
      HandlersExit(c, s.handlers, s.fin, MemOf(h));
      var b := Run(c.w, c.p, a, k1);
      var more := if r1.x.Falls? && s.handlers.Handler? then 2 else 1;
      WidenSaved(a, h, c.n, gb.labels, c.n, gh.labels);
      DoneOnward(c, s.fin, FlowHandlers(c.w, s.handlers, c.fuel, MemOf(h)), end, gh.labels, a, k1 + more, h,
        gh.labels, k2);
      k := (k1 + more) + k2;
    } else {
      k := BodyFalls(c, s, a, gb, gh, gf, k1);
      RaiseExitKnown(c, r1.m);
      FinKnown(c, s.fin, r1);
    }
  }

  lemma BodyGone(c: Site, s: Stmt, a: State, end: nat, end': nat, hi: nat, hi': nat, k: nat)
    requires s.Try? && Context(c) && FinSuits(c, s.fin) && Suits(c, s.body) && hi <= hi'
    requires var r := Flow(c.w, s.body, c.fuel, MemOf(a)); Leaves(r.x) && HandlersDone(c, s.fin, r, end', hi, a, k)
    ensures var r := Flow(c.w, s.body, c.fuel, MemOf(a));
      && HandlersDone(c, s.fin, r, end, hi', a, k)
        && Known(c, Land(c.w, c.fuel, c.st, c.env, FlowFin(c.w, s.fin, c.fuel, r)))
  {
    hide Sim, Context, FinSuits, Flow, FlowFin, Land;
    var r := Flow(c.w, s.body, c.fuel, MemOf(a));
    BreaksIsFree(c.w, s.body, c.fuel, MemOf(a));
    FinKnown(c, s.fin, r);
    FinLeaves(c, s.fin, r);
    var x := Land(c.w, c.fuel, c.st, c.env, FlowFin(c.w, s.fin, c.fuel, r));
    Seen(c, x, 0, hi', a, c, 0, hi, k);
  }

  lemma BodyFalls(c: Site, s: Stmt, a: State, gb: Gen, gh: Gen, gf: Gen, k1: nat) returns (k: nat)
    requires s.Try? && c.n + 1 <= gb.labels < gh.labels
    requires TryLayout(c, a.pc, gb.code, s.handlers, c.n + 1, gh.code, gf.code)
    requires var r := Flow(c.w, s.body, c.fuel, MemOf(a)); r.x.Falls? && !r.m.err
    requires var c1 := Within(c, s.fin, false, c.n + 1, c.n + 1);
      Sim(c1, Goal(c1, s.body, a), a.pc + |gb.code|, gb.labels, a, k1)
    ensures HandlersDone(c, s.fin, Flow(c.w, s.body, c.fuel, MemOf(a)), FinPc(a.pc, gb.code, s.handlers, gh.code),
      gh.labels, a, k)
  {
    hide Run, Find, At, Flow, SameSaved;
    var r := Flow(c.w, s.body, c.fuel, MemOf(a));
    var b := Run(c.w, c.p, a, k1);
    OneStep(c.w, c.p, b);
    RunAdd(c.w, c.p, a, k1, 1);
    k := k1 + 1;
    WidenSaved(a, b, c.n + 1, gb.labels, c.n, gh.labels);
    SavedOn(a, a, b, Run(c.w, c.p, a, k), c.n, gh.labels);
  }

  /** With the flag on or by a jump, control comes to the first handler. */
  lemma BodyRaises(c: Site, s: Stmt, a: State, gb: Gen, gh: Gen, gf: Gen, k1: nat) returns (h: State)
    requires s.Try? && c.n + 1 <= gb.labels < gh.labels
    requires TryLayout(c, a.pc, gb.code, s.handlers, c.n + 1, gh.code, gf.code)
    requires var r := Flow(c.w, s.body, c.fuel, MemOf(a)); r.x.Jumps? || (r.x.Falls? && r.m.err)
    requires var c1 := Within(c, s.fin, false, c.n + 1, c.n + 1);
      Sim(c1, Goal(c1, s.body, a), a.pc + |gb.code|, gb.labels, a, k1)
    ensures var r := Flow(c.w, s.body, c.fuel, MemOf(a));
      h == Run(c.w, c.p, a, k1 + if r.x.Falls? && s.handlers.Handler? then 2 else 1) && MemOf(h) == r.m
    ensures h.pc == FinPc(a.pc, gb.code, s.handlers, gh.code) - |gh.code| && At(c.p, h.pc, gh.code)
    ensures SameSaved(a, h, c.n, gb.labels)
  {
    hide Run, Find, Flow, SameSaved, At;
    var r := Flow(c.w, s.body, c.fuel, MemOf(a));
    var b := Run(c.w, c.p, a, k1);
    WidenSaved(a, b, c.n + 1, gb.labels, c.n, gb.labels);
    if r.x.Falls? && s.handlers.Handler? {
      TwoSteps(c, b);
      RunAdd(c.w, c.p, a, k1, 2);
      h := Run(c.w, c.p, a, k1 + 2);
    } else {
      OneStep(c.w, c.p, b);
      RunAdd(c.w, c.p, a, k1, 1);
      h := Run(c.w, c.p, a, k1 + 1);
    }
    SavedOn(a, a, b, h, c.n, gb.labels);
  }

  lemma SimStmt(c: Site, s: Stmt, a: State) returns (k: nat)
    requires Pre(c, s, a)
    ensures Result(c, s, a, k)
    decreases Size(s) + StackSize(c.st), 10
  {
    if s.Skip? {
      k := 0;
    } else if s.Call? {
      k := SimCall(c, s, a);
    } else if s.Raise? {
      k := SimRaise(c, s, a);
    } else if s.Seq? {
      k := SimSeq(c, s, a);
    } else if s.If? {
      k := SimIf(c, s, a);
    } else if s.Block? {
      k := SimBlock(c, s, a);
    } else if s.While? {
      k := SimWhile(c, s, a);
    } else if s.Break? {
      k := SimBreak(c, s, a);
    } else if s.Return? {
      k := SimReturn(c, s, a);
    } else {
      k := SimTry(c, s, a);
    }
  }
}
