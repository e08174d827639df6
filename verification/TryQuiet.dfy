/**
 What code without raising statements does to the error flag and to the stack of
 current exceptions, with the flag off and, in a `finally`, with the flag on.
 */
module TryQuiet {
  import opened Basics
  import opened TryLang
  import opened TryFlow

  // ---------- the stack of current exceptions ----------

  /** `x` is `y` with more on top. */
  ghost predicate Extends(x: seq<Exn>, y: seq<Exn>) {
    |x| >= |y| && x[|x| - |y|..] == y
  }

  lemma ExtendsTrans(x: seq<Exn>, y: seq<Exn>, z: seq<Exn>)
    requires Extends(x, y) && Extends(y, z)
    ensures Extends(x, z)
  {
    assert x[|x| - |z|..] == x[|x| - |y|..][|y| - |z|..];
  }

  lemma ExtendsSelf(x: seq<Exn>)
    ensures Extends(x, x) && x[0..] == x
  {
  }

  /** Taking the same number off both leaves one an extension of the other. */
  lemma ExtendsDrop(x: seq<Exn>, y: seq<Exn>, n: nat)
    requires Extends(x, y) && n <= |y|
    ensures Extends(x[n..], y[n..])
  {
    assert x[n..][|x[n..]| - |y[n..]|..] == x[|x| - |y|..][n..];
  }

  lemma ExtendsOf(x: seq<Exn>, p: nat)
    requires p <= |x|
    ensures Extends(x, x[p..])
  {
  }

  lemma ExtendsLonger(x: seq<Exn>, y: seq<Exn>)
    requires Extends(x, y)
    ensures |x| >= |y|
  {
  }

  lemma ExtendsMore(x: seq<Exn>, y: seq<Exn>)
    ensures Extends(x + y, y)
  {
  }

  lemma DropDrop(x: seq<Exn>, p: nat, q: nat)
    requires p + q <= |x|
    ensures x[p..][q..] == x[p + q..]
  {
  }

  /** How the stack has to look after some pops. */
  ghost predicate Kept(exns: seq<Exn>, pops: nat, before: seq<Exn>, exact: bool) {
    pops <= |exns| && Extends(exns[pops..], before) && (exact ==> exns[pops..] == before)
  }

  lemma KeptSelf(x: seq<Exn>, exact: bool)
    ensures Kept(x, 0, x, exact)
  {
    ExtendsSelf(x);
  }

  lemma KeptStart(exns: seq<Exn>, before: seq<Exn>, exact: bool)
    requires Kept(exns, 0, before, exact)
    ensures Extends(exns, before) && (exact ==> exns == before)
  {
    ExtendsSelf(exns);
  }

  lemma KeptIf(exns: seq<Exn>, before: seq<Exn>, exact: bool)
    requires Extends(exns, before) && (exact ==> exns == before)
    ensures Kept(exns, 0, before, exact)
  {
    ExtendsSelf(exns);
  }

  lemma KeptAfter(exns: seq<Exn>, pops: nat, mid: seq<Exn>, before: seq<Exn>, exact: bool)
    requires Kept(exns, pops, mid, exact) && Extends(mid, before) && (exact ==> mid == before)
    ensures Kept(exns, pops, before, exact)
  {
    ExtendsTrans(exns[pops..], mid, before);
  }

  /** The exception of a handler is popped. */
  lemma KeptPop(exns: seq<Exn>, p: nat, mid: seq<Exn>, before: seq<Exn>, exact: bool, tidy: bool)
    requires Kept(exns, p, mid, exact) && mid != [] && Kept(mid, 1, before, tidy) && (exact ==> tidy)
    ensures Kept(exns, p + 1, before, exact)
    ensures p == 0 ==> exns != [] && Kept(exns[1..], 0, before, exact)
  {
    ExtendsDrop(exns[p..], mid, 1);
    DropDrop(exns, p, 1);
    ExtendsTrans(exns[p..][1..], mid[1..], before);
    ExtendsSelf(exns[p + 1..]);
  }

  /** An exception that stays below. */
  lemma KeptBelow(exns: seq<Exn>, p: nat, mid: seq<Exn>, before: seq<Exn>, exact: bool, exact': bool)
    requires Kept(exns, p, mid, exact) && mid != [] && Kept(mid, 1, before, exact')
    ensures Kept(exns, p, before, false)
  {
    ExtendsOf(mid, 1);
    ExtendsTrans(mid, mid[1..], before);
    ExtendsTrans(exns[p..], mid, before);
  }

  /** The same exception is on top again. */
  lemma KeptTop(exns: seq<Exn>, mid: seq<Exn>, before: seq<Exn>, exact: bool, exact': bool)
    requires Kept(exns, 0, mid, exact) && mid != [] && Kept(mid, 1, before, exact')
    ensures exns != [] && Kept(exns, 1, before, exact && exact')
  {
    KeptStart(exns, mid, exact);
    ExtendsDrop(exns, mid, 1);
    ExtendsTrans(exns[1..], mid[1..], before);
  }

  /** The `finally` copy kept the stack; the pops come after it. */
  lemma KeptThrough(exns: seq<Exn>, p: nat, mid: seq<Exn>, before: seq<Exn>, tidy: bool, exact: bool)
    requires Kept(exns, 0, mid, tidy) && Kept(mid, p, before, exact) && (exact ==> tidy)
    ensures Kept(exns, p, before, exact)
  {
    KeptStart(exns, mid, tidy);
    ExtendsDrop(exns, mid, p);
    ExtendsTrans(exns[p..], mid[p..], before);
  }

  /** The `finally` copy went its own way; the pops are forgotten. */
  lemma KeptOver(exns: seq<Exn>, q: nat, mid: seq<Exn>, p: nat, before: seq<Exn>, exact: bool, still: bool)
    requires Kept(exns, q, mid, still) && Kept(mid, p, before, exact) && (still ==> mid == before)
    ensures Kept(exns, q, before, still)
  {
    ExtendsOf(mid, p);
    ExtendsTrans(mid, mid[p..], before);
    ExtendsTrans(exns[q..], mid, before);
  }

  // ---------- code that cannot raise ----------

  lemma NeatCall(w: World, id: nat, tr: Trace)
    requires Neat(w)
    ensures w.leaves(id, tr) == []
  {
  }

  /** With the error flag off, what cannot raise leaves flag and stack alone, as far as called procs do. */
  ghost predicate Quiet(w: World, o: Out, m: Mem) {
    && !o.x.Jumps? && !o.m.err && PopsOf(o.x) == 0
    && Extends(o.m.exns, m.exns) && (Neat(w) ==> o.m.exns == m.exns)
  }

  lemma QuietThen(w: World, o: Out, m1: Mem, m: Mem)
    requires Quiet(w, o, m1) && Extends(m1.exns, m.exns) && (Neat(w) ==> m1.exns == m.exns)
    ensures Quiet(w, o, m)
  {
    hide Neat;
    ExtendsTrans(o.m.exns, m1.exns, m.exns);
  }

  lemma {:induction false} QuietKeeps(w: World, s: Stmt, fuel: nat, m: Mem)
    requires !CanRaise(s) && !m.err
    ensures Quiet(w, Flow(w, s, fuel, m), m)
    decreases s, 1
  {
    hide Neat, Extends;
    ExtendsSelf(m.exns);
    match s
    case Call(id, _) =>
      QuietCall(w, id, fuel, m);
    case Seq(a, b) =>
      QuietKeeps(w, a, fuel, m);
      var m1 := Flow(w, a, fuel, m).m;
      QuietKeeps(w, b, fuel, m1);
      QuietThen(w, Flow(w, b, fuel, m1), m1, m);
    case If(c, a, b) =>
      var go := w.test(c, m.tr);
      QuietKeeps(w, if go then a else b, fuel, m.(tr := m.tr + [Tested(c, go)]));
    case While(c, l, b) =>
      QuietLoopKeeps(w, s, fuel, fuel, m);
    case Block(l, b) =>
      QuietKeeps(w, b, fuel, m);
      ExtendsSelf(Flow(w, b, fuel, m).m.exns);
    case Try(b, hs, f) =>
      QuietKeeps(w, b, fuel, m);
      if f.Fin? {
        var m1 := Flow(w, b, fuel, m).m;
        QuietKeeps(w, f.body, fuel, m1);
        QuietThen(w, Flow(w, f.body, fuel, m1), m1, m);
      }
    case _ =>
  }

  lemma QuietCall(w: World, id: nat, fuel: nat, m: Mem)
    requires !m.err
    ensures Quiet(w, Flow(w, Call(id, false), fuel, m), m)
  {
    var left := w.leaves(id, m.tr + [Called(id)]);
    ExtendsMore(left, m.exns);
    assert [] + m.exns == m.exns;
  }

  lemma {:induction false} QuietLoopKeeps(w: World, s: Stmt, fuel: nat, iters: nat, m: Mem)
    requires s.While? && !CanRaise(s) && !m.err
    ensures Quiet(w, FlowLoop(w, s, fuel, iters, m), m)
    decreases s, 0, iters
  {
    hide Neat, Extends;
    ExtendsSelf(m.exns);
    if iters > 0 {
      var m1 := m.(tr := m.tr + [Tested(s.cond, w.test(s.cond, m.tr))]);
      QuietKeeps(w, s.body, fuel, m1);
      var m2 := Flow(w, s.body, fuel, m1).m;
      ExtendsSelf(m2.exns);
      QuietLoopKeeps(w, s, fuel, iters - 1, m2);
      QuietThen(w, FlowLoop(w, s, fuel, iters - 1, m2), m2, m);
    }
  }

  /**
   With the error flag on and an exception on the stack, what cannot raise keeps both,
   or one of its handlers has taken the exception and the flag is off for good.
   */
  ghost predicate Flagged(w: World, o: Out, m: Mem) {
    o.x.Hangs? ||
    if o.m.err then PopsOf(o.x) == 0 && Extends(o.m.exns, m.exns) && (Neat(w) ==> o.m.exns == m.exns)
    else !o.x.Jumps? && m.exns != [] && Kept(o.m.exns, PopsOf(o.x), m.exns[1..], false)
  }

  lemma FlaggedThen(w: World, o: Out, m1: Mem, m: Mem)
    requires Flagged(w, o, m1) && m.exns != [] && Extends(m1.exns, m.exns) && (Neat(w) ==> m1.exns == m.exns)
    ensures Flagged(w, o, m)
  {
    hide Neat;
    if !o.x.Hangs? {
      if o.m.err {
        ExtendsTrans(o.m.exns, m1.exns, m.exns);
      } else {
        ExtendsDrop(m1.exns, m.exns, 1);
        ExtendsTrans(o.m.exns[PopsOf(o.x)..], m1.exns[1..], m.exns[1..]);
      }
    }
  }

  /** After the flag has gone off. */
  lemma FlaggedQuiet(w: World, o: Out, m1: Mem, p: nat, m: Mem)
    requires Quiet(w, o, m1) && m.exns != [] && Kept(m1.exns, p, m.exns[1..], false)
    ensures Flagged(w, o, m)
    ensures o.x.Falls? ==> Kept(o.m.exns, p, m.exns[1..], false)
  {
    hide Neat;
    KeptIf(o.m.exns, m1.exns, false);
    KeptOver(o.m.exns, 0, m1.exns, p, m.exns[1..], false, false);
    if o.x.Falls? {
      KeptThrough(o.m.exns, p, m1.exns, m.exns[1..], false, false);
    }
  }

  lemma {:induction false} FlaggedKeeps(w: World, s: Stmt, fuel: nat, m: Mem)
    requires !CanRaise(s) && m.err && m.exns != []
    ensures Flagged(w, Flow(w, s, fuel, m), m)
    decreases s, 1
  {
    hide Neat, Extends, Kept, Flagged;
    if s.Seq? {
      FlaggedSeq(w, s, fuel, m);
    } else if s.If? {
      var go := w.test(s.cond, m.tr);
      var m1 := m.(tr := m.tr + [Tested(s.cond, go)]);
      FlaggedKeeps(w, if go then s.thn else s.els, fuel, m1);
      FlaggedTrace(w, Flow(w, s, fuel, m), m, m1.tr);
    } else if s.While? {
      FlaggedLoop(w, s, fuel, fuel, m);
    } else if s.Block? {
      FlaggedKeeps(w, s.body, fuel, m);
      FlaggedCaught(w, s.lbl, Flow(w, s.body, fuel, m), m);
    } else if s.Try? {
      FlaggedTry(w, s, fuel, m);
    } else {
      FlaggedOne(w, s, fuel, m);
    }
  }

  lemma FlaggedOne(w: World, s: Stmt, fuel: nat, m: Mem)
    requires !CanRaise(s) && m.err && m.exns != []
    requires s.Skip? || s.Call? || s.Break? || s.Return?
    ensures Flagged(w, Flow(w, s, fuel, m), m)
  {
    ExtendsSelf(m.exns);
    if s.Call? {
      ExtendsMore(w.leaves(s.id, m.tr + [Called(s.id)]), m.exns);
      assert [] + m.exns == m.exns;
    }
  }

  lemma FlaggedTrace(w: World, o: Out, m: Mem, tr: Trace)
    requires Flagged(w, o, m.(tr := tr))
    ensures Flagged(w, o, m)
  {
  }

  lemma FlaggedCaught(w: World, l: nat, o: Out, m: Mem)
    requires Flagged(w, o, m)
    ensures Flagged(w, Caught(l, o), m)
  {
    if o.x.Breaks? && !o.m.err {
      ExtendsSelf(o.m.exns[o.x.pops..]);
    }
    if o.x.Breaks? {
      ExtendsSelf(o.m.exns);
    }
  }

  lemma FlaggedMeans(w: World, o: Out, m: Mem)
    requires Flagged(w, o, m) && !o.x.Hangs?
    ensures o.m.err ==> PopsOf(o.x) == 0 && Extends(o.m.exns, m.exns) && (Neat(w) ==> o.m.exns == m.exns)
    ensures !o.m.err ==> !o.x.Jumps? && m.exns != [] && Kept(o.m.exns, PopsOf(o.x), m.exns[1..], false)
  {
    hide Neat, Extends, Kept;
  }

  /** Going on after a flagged part that fell through. */
  lemma {:induction false} FlaggedNext(w: World, s: Stmt, fuel: nat, o: Out, m: Mem)
    requires !CanRaise(s) && m.exns != [] && Flagged(w, o, m) && o.x.Falls?
    requires o.m.err ==> o.m.exns != [] && Flagged(w, Flow(w, s, fuel, o.m), o.m)
    ensures Flagged(w, Flow(w, s, fuel, o.m), m)
  {
    hide Neat, Extends, Kept, Flagged, Flow;
    FlaggedMeans(w, o, m);
    if o.m.err {
      FlaggedThen(w, Flow(w, s, fuel, o.m), o.m, m);
    } else {
      QuietKeeps(w, s, fuel, o.m);
      FlaggedQuiet(w, Flow(w, s, fuel, o.m), o.m, 0, m);
    }
  }

  lemma NonEmpty(w: World, o: Out, m: Mem)
    requires Flagged(w, o, m) && m.exns != [] && !o.x.Hangs? && o.m.err
    ensures o.m.exns != []
  {
  }

  lemma {:induction false} FlaggedSeq(w: World, s: Stmt, fuel: nat, m: Mem)
    requires s.Seq? && !CanRaise(s) && m.err && m.exns != []
    ensures Flagged(w, Flow(w, s, fuel, m), m)
    decreases s, 0
  {
    hide Neat, Extends, Kept, Flagged;
    FlaggedKeeps(w, s.first, fuel, m);
    var o := Flow(w, s.first, fuel, m);
    if o.x.Falls? {
      if o.m.err {
        NonEmpty(w, o, m);
        FlaggedKeeps(w, s.second, fuel, o.m);
      }
      FlaggedNext(w, s.second, fuel, o, m);
    }
  }

  lemma {:induction false} FlaggedLoop(w: World, s: Stmt, fuel: nat, iters: nat, m: Mem)
    requires s.While? && !CanRaise(s) && m.err && m.exns != []
    ensures Flagged(w, FlowLoop(w, s, fuel, iters, m), m)
    decreases s, 0, iters
  {
    hide Neat, Extends, Kept, Flagged;
    FlaggedStart(w, m);
    if iters > 0 {
      var go := w.test(s.cond, m.tr);
      var m1 := m.(tr := m.tr + [Tested(s.cond, go)]);
      FlaggedStart(w, m1);
      if go {
        FlaggedKeeps(w, s.body, fuel, m1);
        var o := Flow(w, s.body, fuel, m1);
        if o.x.Falls? {
          FlaggedMeans(w, o, m1);
          if o.m.err {
            NonEmpty(w, o, m1);
            FlaggedLoop(w, s, fuel, iters - 1, o.m);
            FlaggedThen(w, FlowLoop(w, s, fuel, iters - 1, o.m), o.m, m);
          } else {
            QuietLoopKeeps(w, s, fuel, iters - 1, o.m);
            FlaggedQuiet(w, FlowLoop(w, s, fuel, iters - 1, o.m), o.m, 0, m);
          }
        } else {
          FlaggedCaught(w, s.lbl, o, m1);
          FlaggedTrace(w, Caught(s.lbl, o), m, m1.tr);
        }
      } else {
        FlaggedTrace(w, Out(Falls, m1), m, m1.tr);
      }
    }
  }

  lemma FlaggedStart(w: World, m: Mem)
    requires m.exns != [] && m.err
    ensures Flagged(w, Out(Falls, m), m) && Flagged(w, Out(Hangs, m), m)
  {
    ExtendsSelf(m.exns);
  }

  lemma {:induction false} FlaggedTry(w: World, s: Stmt, fuel: nat, m: Mem)
    requires s.Try? && !CanRaise(s) && m.err && m.exns != []
    ensures Flagged(w, Flow(w, s, fuel, m), m)
    decreases s, 0
  {
    hide Neat, Extends, Kept, Flagged, FlowHandled, FlowFin;
    FlaggedKeeps(w, s.body, fuel, m);
    var o := Flow(w, s.body, fuel, m);
    FlaggedHandled(w, s.handlers, fuel, o, m);
    FlaggedFin(w, s.fin, fuel, FlowHandled(w, s.handlers, fuel, o), m);
  }

  lemma {:induction false} FlaggedHandled(w: World, hs: Handlers, fuel: nat, o: Out, m: Mem)
    requires !HandlersCanRaise(hs) && m.exns != [] && Flagged(w, o, m)
    ensures var h := FlowHandled(w, hs, fuel, o); !h.x.Jumps? && Flagged(w, h, m)
    decreases hs, 1
  {
    hide Neat, Extends, Kept, FlowHandlers;
    if o.x.Jumps? || (o.x.Falls? && o.m.err) {
      FlaggedMeans(w, o, m);
      NonEmpty(w, o, m);
      FlaggedHandlers(w, hs, fuel, o.m);
      FlaggedThen(w, FlowHandlers(w, hs, fuel, o.m), o.m, m);
    }
  }

  lemma {:induction false} FlaggedHandlers(w: World, hs: Handlers, fuel: nat, m: Mem)
    requires !HandlersCanRaise(hs) && m.err && m.exns != []
    ensures var h := FlowHandlers(w, hs, fuel, m); !h.x.Jumps? && Flagged(w, h, m)
    decreases hs, 0
  {
    hide Neat, Extends, Catches;
    FlaggedStart(w, m);
    if hs.Handler? {
      if hs.kinds.Only? && !Catches(w, hs.kinds, m.exns[0]) {
        FlaggedHandlers(w, hs.rest, fuel, m);
      } else {
        var m1 := m.(err := false);
        QuietKeeps(w, hs.body, fuel, m1);
        var o := Flow(w, hs.body, fuel, m1);
        ExtendsLonger(o.m.exns, m.exns);
        ExtendsDrop(o.m.exns, m.exns, 1);
        ExtendsSelf(o.m.exns[1..]);
      }
    }
  }

  lemma {:induction false} FlaggedFin(w: World, f: Fin, fuel: nat, h: Out, m: Mem)
    requires !FinCanRaise(f) && m.exns != [] && !h.x.Jumps? && Flagged(w, h, m)
    ensures Flagged(w, FlowFin(w, f, fuel, h), m)
    decreases f
  {
    hide Neat, Extends, Kept;
    if f.Fin? && !h.x.Hangs? {
      hide Flagged;
      FlaggedMeans(w, h, m);
      var g := Flow(w, f.body, fuel, h.m);
      if h.m.err {
        NonEmpty(w, h, m);
        FlaggedKeeps(w, f.body, fuel, h.m);
        FlaggedThen(w, g, h.m, m);
      } else {
        QuietKeeps(w, f.body, fuel, h.m);
        FlaggedQuiet(w, g, h.m, PopsOf(h.x), m);
      }
      FlaggedEnds(w, h, g, m);
    }
  }

  lemma FlaggedEnds(w: World, h: Out, g: Out, m: Mem)
    requires Flagged(w, h, m) && Flagged(w, g, m) && !h.x.Jumps? && !h.x.Hangs?
    requires g.x.Falls? && h.m.err && !g.m.err ==> PopsOf(h.x) == 0
    requires g.x.Falls? && !h.m.err ==> !g.m.err && Kept(g.m.exns, PopsOf(h.x), m.exns[1..], false)
    ensures Flagged(w, if !g.x.Falls? then g else if h.x.Falls? then RaiseExit(g.m) else Out(h.x, g.m), m)
  {
    hide Neat, Extends, Kept;
  }

  // ---------- straight code ----------

  /** The way out of straight code, in both semantics. */
  ghost predicate SameExit(o: Out, r: Res) {
    match r.o
    case Normal => o.x.Falls?
    case Raised(_) => false
    case Broke(l) => o.x == Breaks(l, 0)
    case Returned => o.x == Returns(0)
    case Timeout => o.x.Hangs?
  }

  /** Straight code does the same whatever the error flag says, and leaves it alone. */
  lemma {:induction false} StraightFlow(w: World, s: Stmt, fuel: nat, m: Mem)
    requires Straight(s) && Neat(w)
    ensures var o, r := Flow(w, s, fuel, m), Exec(w, s, fuel, m.tr);
      SameExit(o, r) && o.m == m.(tr := r.tr)
    decreases s, 1
  {
    hide Neat;
    match s
    case Call(id, _) =>
      NeatCall(w, id, m.tr + [Called(id)]);
      assert [] + m.exns == m.exns;
    case Seq(a, b) =>
      StraightFlow(w, a, fuel, m);
      StraightFlow(w, b, fuel, Flow(w, a, fuel, m).m);
    case If(c, a, b) =>
      var go := w.test(c, m.tr);
      StraightFlow(w, if go then a else b, fuel, m.(tr := m.tr + [Tested(c, go)]));
    case While(c, l, b) =>
      StraightLoop(w, s, fuel, fuel, m);
    case Block(l, b) =>
      StraightFlow(w, b, fuel, m);
    case _ =>
  }

  lemma {:induction false} StraightLoop(w: World, s: Stmt, fuel: nat, iters: nat, m: Mem)
    requires s.While? && Straight(s) && Neat(w)
    ensures var o, r := FlowLoop(w, s, fuel, iters, m), Loop(w, s, fuel, iters, m.tr);
      SameExit(o, r) && o.m == m.(tr := r.tr)
    decreases s, 0, iters
  {
    hide Neat;
    if iters > 0 {
      var m1 := m.(tr := m.tr + [Tested(s.cond, w.test(s.cond, m.tr))]);
      StraightFlow(w, s.body, fuel, m1);
      StraightLoop(w, s, fuel, iters - 1, Flow(w, s.body, fuel, m1).m);
    }
  }
}
