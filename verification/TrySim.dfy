/**
 The invariant with which the generated code is shown to do what `TryFlow` says.
 The difficulty is that a break or return runs the `finally` bodies it leaves where
 it stands (they are copied there), while in `TryFlow` the enclosing `try`
 statements run them.
 */
module TrySim {
  import opened Basics
  import opened TryLang
  import opened TryCode
  import opened TryFlow

  // ---------- where control goes ----------

  /**
   Where the code of a statement passes control to once everything it has to
   run has been run: past its end, to the label of the `try` stack `at`, to the
   end of a block, to the end of the proc, or nowhere within the fuel.
   */
  datatype Landing =
    | Fall(m: Mem)
    | AtRaise(at: TryStack, m: Mem)
    | AtBlock(lbl: nat, m: Mem)
    | AtReturn(m: Mem)
    | NoLanding

  datatype Left = Done(m: Mem) | Diverted(to: Landing)

  function TryDepthOf(env: Env, l: nat): nat {
    if l in env then env[l].tryDepth else 0
  }

  /** The pops before the `goto` of a break to `l` that has left `p` handlers already. */
  function PopsFor(st: TryStack, env: Env, l: nat, p: nat): nat {
    var n := p + ExceptDepth(st) - if l in env then env[l].exceptDepth else 0;
    if n > 0 then n else 0
  }

  function Land(w: World, fuel: nat, st: TryStack, env: Env, r: Out): Landing
    decreases st, 1
  {
    match r.x
    case Falls => Fall(r.m)
    case Jumps => AtRaise(st, r.m)
    case Breaks(l, p) =>
      var x := Leave(w, fuel, st, TryDepthOf(env, l), env, r.m);
      if x.Diverted? then x.to else BreakEnd(l, Popped(x.m, PopsFor(st, env, l, p)))
    case Returns(p) =>
      var x := Leave(w, fuel, st, 0, env, r.m);
      if x.Diverted? then x.to else ReturnEnd(Popped(x.m, p + ExceptDepth(st)))
    case Hangs => NoLanding
  }

  function BreakEnd(l: nat, m: Option<Mem>): Landing {
    if m.Some? then AtBlock(l, m.value) else NoLanding
  }

  function ReturnEnd(m: Option<Mem>): Landing {
    if m.Some? then AtReturn(m.value) else NoLanding
  }

  /** Run the `finally` bodies above `depth`; one of them may divert control. */
  function Leave(w: World, fuel: nat, st: TryStack, depth: nat, env: Env, m: Mem): Left
    decreases st, 0
  {
    if Depth(st) <= depth then Done(m)
    else if st.top.fin.NoFin? then Leave(w, fuel, st.below, depth, env, m)
    else
      var r := Flow(w, st.top.fin.body, fuel, m);
      if r.x.Falls? then Leave(w, fuel, st.below, depth, env, r.m)
      else Diverted(Land(w, fuel, st.below, env, r))
  }

  function StackFree(st: TryStack): set<nat> {
    if st.Empty? then {} else FreeFin(st.top.fin) + StackFree(st.below)
  }

  ghost predicate LandingOk(x: Landing, st: TryStack, o: Exit) {
    && (x.Fall? <==> o.Falls?)
    && (x.AtBlock? ==> (o.Breaks? && o.lbl == x.lbl) || x.lbl in StackFree(st))
  }

  ghost predicate DivertedOk(x: Left, st: TryStack) {
    x.Diverted? ==> !x.to.Fall? && (x.to.AtBlock? ==> x.to.lbl in StackFree(st))
  }

  lemma {:induction false} LandFacts(w: World, fuel: nat, st: TryStack, env: Env, r: Out)
    ensures LandingOk(Land(w, fuel, st, env, r), st, r.x)
    decreases st, 1
  {
    match r.x
    case Breaks(l, p) => LeaveFacts(w, fuel, st, TryDepthOf(env, l), env, r.m);
    case Returns(p) => LeaveFacts(w, fuel, st, 0, env, r.m);
    case _ =>
  }

  lemma {:induction false} LeaveFacts(w: World, fuel: nat, st: TryStack, depth: nat, env: Env, m: Mem)
    ensures DivertedOk(Leave(w, fuel, st, depth, env, m), st)
    decreases st, 0
  {
    if Depth(st) > depth {
      if st.top.fin.NoFin? {
        LeaveFacts(w, fuel, st.below, depth, env, m);
      } else {
        var r := Flow(w, st.top.fin.body, fuel, m);
        BreaksIsFree(w, st.top.fin.body, fuel, m);
        LeaveFacts(w, fuel, st.below, depth, env, r.m);
        LandFacts(w, fuel, st.below, env, r);
      }
    }
  }

  /** A block that no `finally` below can break to does not matter to where control goes. */
  lemma {:induction false} LandEnv(w: World, fuel: nat, st: TryStack, env: Env, l: nat, i: BlockInfo, r: Out)
    requires l !in StackFree(st) && (r.x.Breaks? ==> r.x.lbl != l)
    ensures Land(w, fuel, st, env[l := i], r) == Land(w, fuel, st, env, r)
    decreases st, 1
  {
    match r.x
    case Breaks(k, p) => LeaveEnv(w, fuel, st, TryDepthOf(env, k), env, l, i, r.m);
    case Returns(p) => LeaveEnv(w, fuel, st, 0, env, l, i, r.m);
    case _ =>
  }

  lemma {:induction false} LeaveEnv(w: World, fuel: nat, st: TryStack, depth: nat, env: Env, l: nat, i: BlockInfo,
                                    m: Mem)
    requires l !in StackFree(st)
    ensures Leave(w, fuel, st, depth, env[l := i], m) == Leave(w, fuel, st, depth, env, m)
    decreases st, 0
  {
    if Depth(st) > depth {
      if st.top.fin.NoFin? {
        LeaveEnv(w, fuel, st.below, depth, env, l, i, m);
      } else {
        var r := Flow(w, st.top.fin.body, fuel, m);
        BreaksIsFree(w, st.top.fin.body, fuel, m);
        LeaveEnv(w, fuel, st.below, depth, env, l, i, r.m);
        LandEnv(w, fuel, st.below, env, l, i, r);
      }
    }
  }

  /** A break or return out of the body of a `try`, or out of one of its handlers. */
  ghost predicate Leaves(x: Exit) {
    x.Breaks? || x.Returns? || x.Hangs?
  }

  lemma LeaveTop(w: World, fuel: nat, e: Entry, st: TryStack, depth: nat, env: Env, m: Mem)
    requires depth <= Depth(st)
    ensures Leave(w, fuel, Push(e, st), depth, env, m) ==
      if e.fin.NoFin? then Leave(w, fuel, st, depth, env, m)
      else
        var g := Flow(w, e.fin.body, fuel, m);
        if g.x.Falls? then Leave(w, fuel, st, depth, env, g.m) else Diverted(Land(w, fuel, st, env, g))
  {
    hide Flow, Land;
  }

  /**
   Leaving a `try` by break or return: running its `finally` on the spot is the
   same as letting the `try` statement run it.
   */
  lemma FinishLand(w: World, fuel: nat, f: Fin, lbl: nat, st: TryStack, env: Env, r: Out)
    requires Leaves(r.x)
    requires r.x.Breaks? ==> TryDepthOf(env, r.x.lbl) <= Depth(st)
    ensures Land(w, fuel, Push(Entry(f, false, lbl), st), env, r) == Land(w, fuel, st, env, FlowFin(w, f, fuel, r))
  {
    hide Flow, Leave, Popped;
    if !r.x.Hangs? {
      LeaveTop(w, fuel, Entry(f, false, lbl), st, if r.x.Breaks? then TryDepthOf(env, r.x.lbl) else 0, env, r.m);
    }
  }

  lemma FinishHandler(w: World, fuel: nat, f: Fin, lbl: nat, st: TryStack, env: Env, r: Out)
    requires Leaves(r.x)
    requires r.x.Breaks? ==> TryDepthOf(env, r.x.lbl) <= Depth(st)
    ensures Land(w, fuel, Push(Entry(f, true, lbl), st), env, r) ==
      Land(w, fuel, st, env, FlowFin(w, f, fuel, HandlerEnd(r)))
  {
    hide Flow, Leave, Popped;
    if !r.x.Hangs? {
      LeaveTop(w, fuel, Entry(f, true, lbl), st, if r.x.Breaks? then TryDepthOf(env, r.x.lbl) else 0, env, r.m);
    }
  }

  // ---------- the invariant of the simulation ----------

  ghost predicate SameSaved(a: State, b: State, lo: nat, hi: nat) {
    forall x: nat | !(lo < x <= hi) ::
      (x in a.saved <==> x in b.saved) && (x in a.saved ==> a.saved[x] == b.saved[x])
  }

  lemma SameSavedTrans(a: State, b: State, c: State, lo: nat, hi: nat, lo': nat, hi': nat)
    requires SameSaved(a, b, lo, hi) && SameSaved(b, c, lo', hi') && lo <= lo' && hi' <= hi
    ensures SameSaved(a, c, lo, hi)
  {
  }

  /** A point of the program: the code it is part of and the codegen state there. */
  datatype Site = Site(w: World, p: Code, ids: set<nat>, fuel: nat, bound: nat, st: TryStack, env: Env, n: nat)

  ghost predicate LabelFits(l: nat, st: TryStack, env: Env) {
    l in env && env[l].tryDepth <= Depth(st)
  }

  ghost predicate StackFits(st: TryStack, env: Env) {
    st.Push? ==>
      && ScopedFin(st.top.fin)
      && (forall l | l in FreeFin(st.top.fin) :: LabelFits(l, st.below, env))
      && DeclFin(st.top.fin) !! StackFree(st.below)
      && StackFits(st.below, env)
  }

  ghost predicate Context(c: Site) {
    Labels(c.p, c.ids) && c.bound <= c.fuel && StackFits(c.st, c.env)
  }

  ghost predicate Suits(c: Site, s: Stmt) {
    Scoped(s) && (forall l | l in Free(s) :: LabelFits(l, c.st, c.env)) && Decl(s) !! StackFree(c.st)
  }

  function MemOf(a: State): Mem {
    Mem(a.err, a.exns, a.tr)
  }

  ghost function Target(c: Site, x: Landing, end: nat): nat {
    match x
    case Fall(_) => end
    case AtRaise(at, _) => Find(c.p, RaiseLabel(at))
    case AtBlock(l, _) => if l in c.env then Find(c.p, BlockLabel(c.env[l].id)) else end
    case AtReturn(_) => Find(c.p, BeforeRet)
    case NoLanding => end
  }

  /** After `k` steps from `a` the machine is in `b`, which is where `x` says. */
  ghost predicate Arrives(c: Site, x: Landing, end: nat, hi: nat, a: State, b: State, k: nat) {
    if x.NoLanding? then k >= c.bound && b.pc < |c.p|
    else
      && (x.AtBlock? ==> x.lbl in c.env)
      && b.pc == Target(c, x, end) && MemOf(b) == x.m && SameSaved(a, b, c.n, hi)
  }

  ghost predicate Sim(c: Site, x: Landing, end: nat, hi: nat, a: State, k: nat) {
    Arrives(c, x, end, hi, a, Run(c.w, c.p, a, k), k)
  }

  /** Both points are in the same program and agree on the block that `x` goes to. */
  ghost predicate Agree(c: Site, c': Site, x: Landing) {
    && c'.w == c.w && c'.p == c.p
    && (x.AtBlock? ==> x.lbl in c.env && x.lbl in c'.env && c'.env[x.lbl].id == c.env[x.lbl].id)
  }

  /** Going on from `b`, which was reached from `a`, and landing. */
  lemma Onward(c: Site, x: Landing, end: nat, hi: nat, a: State, k1: nat, b: State,
               c': Site, end': nat, hi': nat, k2: nat)
    requires b == Run(c.w, c.p, a, k1) && Sim(c', x, end', hi', b, k2) && Agree(c, c', x)
    requires c.bound <= k1 + c'.bound && c.n <= c'.n && hi' <= hi
    requires SameSaved(a, b, c.n, hi) && (x.Fall? ==> end' == end)
    ensures Sim(c, x, end, hi, a, k1 + k2)
  {
    hide Run, Find, SameSaved;
    RunAdd(c.w, c.p, a, k1, k2);
    if !x.NoLanding? {
      SameSavedTrans(a, b, Run(c.w, c.p, b, k2), c.n, hi, c'.n, hi');
    }
  }

  /** A landing seen from another point of the same program. */
  lemma Seen(c: Site, x: Landing, end: nat, hi: nat, a: State, c': Site, end': nat, hi': nat, k: nat)
    requires Sim(c', x, end', hi', a, k) && Agree(c, c', x)
    requires c.bound <= c'.bound && c.n <= c'.n && hi' <= hi && (x.Fall? ==> end' == end)
    ensures Sim(c, x, end, hi, a, k)
  {
    hide Find;
    assert Run(c.w, c.p, a, 0) == a;
    Onward(c, x, end, hi, a, 0, a, c', end', hi', k);
  }

  lemma FallMeans(c: Site, m: Mem, end: nat, hi: nat, a: State, k: nat)
    requires Sim(c, Fall(m), end, hi, a, k)
    ensures var b := Run(c.w, c.p, a, k); b.pc == end && MemOf(b) == m && SameSaved(a, b, c.n, hi)
  {
  }

  lemma FallIs(c: Site, m: Mem, end: nat, hi: nat, a: State, k: nat)
    requires var b := Run(c.w, c.p, a, k); b.pc == end && MemOf(b) == m && SameSaved(a, b, c.n, hi)
    ensures Sim(c, Fall(m), end, hi, a, k)
  {
  }

  /** After falling through, a few more lines that only move on. */
  lemma FallThrough(c: Site, m: Mem, mid: nat, hi: nat, a: State, k: nat, more: nat, end: nat)
    requires Sim(c, Fall(m), mid, hi, a, k)
    requires var b := Run(c.w, c.p, a, k); Run(c.w, c.p, b, more) == b.(pc := end)
    ensures Sim(c, Fall(m), end, hi, a, k + more)
  {
    hide Run, Find;
    RunAdd(c.w, c.p, a, k, more);
  }

  /** A machine that is stuck stays where it is. */
  lemma {:induction false} Stuck(w: World, p: Code, s: State, k: nat)
    requires Step(w, p, s) == s
    ensures Run(w, p, s, k) == s
    decreases k
  {
    if k > 0 {
      Stuck(w, p, s, k - 1);
    }
  }

  lemma StuckSim(c: Site, end: nat, hi: nat, a: State, k: nat)
    requires var b := Run(c.w, c.p, a, k); b.pc < |c.p| && Step(c.w, c.p, b) == b
    ensures Sim(c, NoLanding, end, hi, a, k + c.bound)
  {
    hide Step;
    Stuck(c.w, c.p, Run(c.w, c.p, a, k), c.bound);
    RunAdd(c.w, c.p, a, k, c.bound);
  }
}
