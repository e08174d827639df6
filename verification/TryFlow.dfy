/**
 What goto-based exception code does, statement by statement. Unlike the structured
 semantics this one has the state that the code has: an error flag that every
 statement shares, and the runtime's stack of current exceptions. A `finally` body
 that cannot raise runs with the flag as it is; a handler that is left by a raise
 leaves its exception on the stack.
 */
module TryFlow {
  import opened Basics
  import opened TryLang

  datatype Mem = Mem(err: bool, exns: seq<Exn>, tr: Trace)

  /**
   Where control goes after a statement: past its end, to the label of the
   enclosing `try`, or by break or return out of some handlers whose exceptions
   are popped on arrival.
   */
  datatype Exit = Falls | Jumps | Breaks(lbl: nat, pops: nat) | Returns(pops: nat) | Hangs
  datatype Out = Out(x: Exit, m: Mem)

  function PopsOf(x: Exit): nat {
    if x.Breaks? || x.Returns? then x.pops else 0
  }

  function Popped(m: Mem, n: nat): Option<Mem> {
    if n <= |m.exns| then Some(m.(exns := m.exns[n..])) else None
  }

  function Flow(w: World, s: Stmt, fuel: nat, m: Mem): Out
    decreases s, 1
  {
    match s
    case Skip => Out(Falls, m)
    case Call(id, canRaise) =>
      var t := m.tr + [Called(id)];
      var e := w.raises(id, t);
      var exns := w.leaves(id, t) + m.exns;
      if canRaise && e.Some? then Out(Jumps, Mem(true, [e.value] + exns, t))
      else Out(if canRaise && m.err then Jumps else Falls, Mem(m.err, exns, t))
    case Raise(e) => Out(Jumps, m.(err := true, exns := [e] + m.exns))
    case Seq(a, b) =>
      var r := Flow(w, a, fuel, m);
      if r.x.Falls? then Flow(w, b, fuel, r.m) else r
    case If(c, a, b) =>
      var go := w.test(c, m.tr);
      Flow(w, if go then a else b, fuel, m.(tr := m.tr + [Tested(c, go)]))
    case While(_, _, _) => FlowLoop(w, s, fuel, fuel, m)
    case Block(l, b) => Caught(l, Flow(w, b, fuel, m))
    case Break(l) => Out(Breaks(l, 0), m)
    case Return => Out(Returns(0), m)
    case Try(b, hs, f) => FlowFin(w, f, fuel, FlowHandled(w, hs, fuel, Flow(w, b, fuel, m)))
  }

  /** The end of block `l`. */
  function Caught(l: nat, r: Out): Out {
    if r.x.Breaks? && r.x.lbl == l then
      var m := Popped(r.m, r.x.pops);
      if m.Some? then Out(Falls, m.value) else Out(Hangs, r.m)
    else r
  }

  /** A `while` loop with `iters` iterations left. */
  function FlowLoop(w: World, s: Stmt, fuel: nat, iters: nat, m: Mem): Out
    requires s.While?
    decreases s, 0, iters
  {
    if iters == 0 then Out(Hangs, m)
    else
      var go := w.test(s.cond, m.tr);
      var m1 := m.(tr := m.tr + [Tested(s.cond, go)]);
      if !go then Out(Falls, m1)
      else
        var r := Flow(w, s.body, fuel, m1);
        if r.x.Falls? then FlowLoop(w, s, fuel, iters - 1, r.m) else Caught(s.lbl, r)
  }

  /** After the body of a `try`: with the error flag on, the handlers are tried. */
  function FlowHandled(w: World, hs: Handlers, fuel: nat, r: Out): Out
    decreases hs, 1
  {
    if r.x.Jumps? || (r.x.Falls? && r.m.err) then FlowHandlers(w, hs, fuel, r.m) else r
  }

  function FlowHandlers(w: World, hs: Handlers, fuel: nat, m: Mem): Out
    decreases hs, 0
  {
    if hs.NoHandler? then Out(Falls, m)
    else if hs.kinds.Only? && m.exns == [] then Out(Hangs, m)
    else if hs.kinds.Only? && !Catches(w, hs.kinds, m.exns[0]) then FlowHandlers(w, hs.rest, fuel, m)
    else HandlerEnd(Flow(w, hs.body, fuel, m.(err := false)))
  }

  /** Only a handler body that ends normally pops its exception; break and return pop it later. */
  function HandlerEnd(r: Out): Out {
    match r.x
    case Falls => if r.m.exns == [] then Out(Hangs, r.m) else Out(Falls, r.m.(exns := r.m.exns[1..]))
    case Jumps => Out(Falls, r.m)
    case Breaks(l, p) => Out(Breaks(l, p + 1), r.m)
    case Returns(p) => Out(Returns(p + 1), r.m)
    case Hangs => r
  }

  /**
   The `finally` section. It saves and clears the error flag only around a body that
   can raise; a break or return runs a copy of the body that does neither.
   */
  function FlowFin(w: World, f: Fin, fuel: nat, r: Out): Out
    decreases f
  {
    if r.x.Hangs? then r
    else if f.NoFin? then if r.x.Falls? then RaiseExit(r.m) else r
    else if r.x.Falls? then
      var loud := CanRaise(f.body);
      var g := Flow(w, f.body, fuel, if loud then r.m.(err := false) else r.m);
      if g.x.Falls? then RaiseExit(if loud then g.m.(err := r.m.err) else g.m) else g
    else
      var g := Flow(w, f.body, fuel, r.m);
      if g.x.Falls? then Out(r.x, g.m) else g
  }

  /** `raiseExit`: on with the flag off, to the label of the enclosing `try` with it on. */
  function RaiseExit(m: Mem): Out {
    Out(if m.err then Jumps else Falls, m)
  }

  /** What the proc leaves behind, if it ends. */
  function Final(r: Out): Option<Mem> {
    match r.x
    case Returns(p) => Popped(r.m, p)
    case Hangs => None
    case _ => Some(r.m)
  }

  /** Only free labels are broken to. */
  lemma {:induction false} BreaksIsFree(w: World, s: Stmt, fuel: nat, m: Mem)
    ensures var x := Flow(w, s, fuel, m).x; x.Breaks? ==> x.lbl in Free(s)
    decreases s, 1
  {
    match s
    case Seq(a, b) =>
      BreaksIsFree(w, a, fuel, m);
      BreaksIsFree(w, b, fuel, Flow(w, a, fuel, m).m);
    case If(c, a, b) =>
      BreaksIsFree(w, a, fuel, m.(tr := m.tr + [Tested(c, w.test(c, m.tr))]));
      BreaksIsFree(w, b, fuel, m.(tr := m.tr + [Tested(c, w.test(c, m.tr))]));
    case While(c, l, b) =>
      LoopBreaksIsFree(w, s, fuel, fuel, m);
    case Block(l, b) =>
      BreaksIsFree(w, b, fuel, m);
    case Try(b, hs, f) =>
      BreaksIsFree(w, b, fuel, m);
      var r := Flow(w, b, fuel, m);
      HandlersBreakFree(w, hs, fuel, r.m);
      FinBreaksFree(w, f, fuel, FlowHandled(w, hs, fuel, r));
    case _ =>
  }

  lemma {:induction false} LoopBreaksIsFree(w: World, s: Stmt, fuel: nat, iters: nat, m: Mem)
    requires s.While?
    ensures var x := FlowLoop(w, s, fuel, iters, m).x; x.Breaks? ==> x.lbl in Free(s)
    decreases s, 0, iters
  {
    if iters > 0 {
      var m1 := m.(tr := m.tr + [Tested(s.cond, w.test(s.cond, m.tr))]);
      BreaksIsFree(w, s.body, fuel, m1);
      LoopBreaksIsFree(w, s, fuel, iters - 1, Flow(w, s.body, fuel, m1).m);
    }
  }

  lemma {:induction false} HandlersBreakFree(w: World, hs: Handlers, fuel: nat, m: Mem)
    ensures var x := FlowHandlers(w, hs, fuel, m).x; !x.Jumps? && (x.Breaks? ==> x.lbl in FreeHandlers(hs))
    decreases hs
  {
    if hs.Handler? {
      BreaksIsFree(w, hs.body, fuel, m.(err := false));
      HandlersBreakFree(w, hs.rest, fuel, m);
    }
  }

  lemma {:induction false} FinBreaksFree(w: World, f: Fin, fuel: nat, r: Out)
    ensures var x := FlowFin(w, f, fuel, r).x; x.Breaks? ==> (r.x.Breaks? && x.lbl == r.x.lbl) || x.lbl in FreeFin(f)
    decreases f
  {
    if f.Fin? {
      BreaksIsFree(w, f.body, fuel, r.m);
      BreaksIsFree(w, f.body, fuel, r.m.(err := false));
    }
  }

  /** More fuel changes nothing once the code has ended. */
  lemma {:induction false} FlowMore(w: World, s: Stmt, fuel: nat, more: nat, m: Mem)
    requires fuel <= more && !Flow(w, s, fuel, m).x.Hangs?
    ensures Flow(w, s, more, m) == Flow(w, s, fuel, m)
    decreases s, 1
  {
    match s
    case Seq(a, b) =>
      FlowMore(w, a, fuel, more, m);
      var r := Flow(w, a, fuel, m);
      if r.x.Falls? {
        FlowMore(w, b, fuel, more, r.m);
      }
    case If(c, a, b) =>
      var go := w.test(c, m.tr);
      FlowMore(w, if go then a else b, fuel, more, m.(tr := m.tr + [Tested(c, go)]));
    case While(_, _, _) => FlowLoopMore(w, s, fuel, fuel, more, more, m);
    case Block(_, b) => FlowMore(w, b, fuel, more, m);
    case Try(b, hs, f) =>
      FlowMore(w, b, fuel, more, m);
      var r := Flow(w, b, fuel, m);
      HandledMore(w, hs, fuel, more, r);
      FinMore(w, f, fuel, more, FlowHandled(w, hs, fuel, r));
    case _ =>
  }

  lemma {:induction false} FlowLoopMore(w: World, s: Stmt, fuel: nat, iters: nat, more: nat, iters': nat, m: Mem)
    requires s.While? && fuel <= more && iters <= iters' && !FlowLoop(w, s, fuel, iters, m).x.Hangs?
    ensures FlowLoop(w, s, more, iters', m) == FlowLoop(w, s, fuel, iters, m)
    decreases s, 0, iters
  {
    var go := w.test(s.cond, m.tr);
    if go {
      var m1 := m.(tr := m.tr + [Tested(s.cond, go)]);
      FlowMore(w, s.body, fuel, more, m1);
      var r := Flow(w, s.body, fuel, m1);
      if r.x.Falls? {
        FlowLoopMore(w, s, fuel, iters - 1, more, iters' - 1, r.m);
      }
    }
  }

  lemma {:induction false} HandledMore(w: World, hs: Handlers, fuel: nat, more: nat, r: Out)
    requires fuel <= more && !FlowHandled(w, hs, fuel, r).x.Hangs?
    ensures FlowHandled(w, hs, more, r) == FlowHandled(w, hs, fuel, r)
    decreases hs
  {
    hide Catches;
    if hs.Handler? && (r.x.Jumps? || (r.x.Falls? && r.m.err)) {
      if hs.kinds.Only? && !Catches(w, hs.kinds, r.m.exns[0]) {
        HandledMore(w, hs.rest, fuel, more, r);
      } else {
        FlowMore(w, hs.body, fuel, more, r.m.(err := false));
      }
    }
  }

  lemma {:induction false} FinMore(w: World, f: Fin, fuel: nat, more: nat, r: Out)
    requires fuel <= more && !FlowFin(w, f, fuel, r).x.Hangs?
    ensures FlowFin(w, f, more, r) == FlowFin(w, f, fuel, r)
    decreases f
  {
    if f.Fin? && !r.x.Hangs? {
      FlowMore(w, f.body, fuel, more, if r.x.Falls? && CanRaise(f.body) then r.m.(err := false) else r.m);
    }
  }
}
