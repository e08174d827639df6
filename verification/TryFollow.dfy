/**
 When goto-based exception code means what was written: a condition on each `finally`
 that a run reaches with an exception in flight, which is exact for the `try` that
 the `finally` belongs to.
 */
module TryFollow {
  import opened Basics
  import opened TryLang
  import opened TryFlow
  import opened TryQuiet

  // ---------- how exactly the stack is kept ----------

  /**
   What is asked of the stack of current exceptions: nothing may be lost from it, or it
   is as before when a statement ends normally or breaks to a label in `loc`; with
   `clean`, a raise adds nothing but the exception raised; with `ret`, a return adds
   nothing.
   */
  datatype Wish = Loose | Exact(loc: set<nat>, clean: bool, ret: bool) {
    function With(l: nat): Wish {
      if Loose? then this else this.(loc := loc + {l})
    }

    function Clean(c: bool): Wish {
      if Loose? then this else this.(clean := c)
    }

    predicate AtRaise() {
      Exact? && clean
    }

    predicate AtBreak(l: nat) {
      Exact? && l in loc
    }

    predicate AtReturn() {
      Exact? && ret
    }
  }

  /**
   The text grants the wish. What can leave more on the stack is an exception that
   replaces another one, raised in a handler or in a `finally`, and a `finally` that
   is left by break or return.
   */
  predicate Tidy(s: Stmt, x: Wish)
    decreases s
  {
    x.Loose? ||
    match s
    case Seq(a, b) => Tidy(a, x) && Tidy(b, x)
    case If(_, a, b) => Tidy(a, x) && Tidy(b, x)
    case While(_, l, b) => Tidy(b, x.With(l))
    case Block(l, b) => Tidy(b, x.With(l))
    case Try(b, hs, f) =>
      && (CanRaise(b) ==> Tidy(b, x.Clean(x.clean || hs.Handler?)) && HandlersFit(hs, x))
      && FinFits(f, CanRaise(b), x)
    case _ => true
  }

  predicate TidyHandlers(hs: Handlers, x: Wish)
    decreases hs, 0
  {
    hs.Handler? ==> Tidy(hs.body, x) && TidyHandlers(hs.rest, x)
  }

  predicate HandlersFit(hs: Handlers, x: Wish)
    decreases hs, 1
  {
    TidyHandlers(hs, x.Clean(false)) && (x.AtRaise() ==> !HandlersCanRaise(hs))
  }

  /** `raises`: the `finally` can be reached with an exception on the stack. */
  predicate FinFits(f: Fin, raises: bool, x: Wish)
    decreases f
  {
    f.Fin? && x.Exact? ==>
      && Tidy(f.body, x)
      && (raises ==> Free(f.body) !! x.loc && (x.clean ==> !CanRaise(f.body)) && (x.ret ==> !HasReturn(f.body)))
  }

  const TIDY := Exact({}, false, false)
  const CLEAN := Exact({}, true, false)

  /** Exactness at a raise is the stronger wish. */
  lemma {:induction false} CleanIsTidy(s: Stmt, x: Wish)
    requires x.Exact? && Tidy(s, x.Clean(true))
    ensures Tidy(s, x.Clean(false))
  {
    match s
    case Seq(a, b) =>
      CleanIsTidy(a, x);
      CleanIsTidy(b, x);
    case If(_, a, b) =>
      CleanIsTidy(a, x);
      CleanIsTidy(b, x);
    case While(_, l, b) => CleanIsTidy(b, x.With(l));
    case Block(l, b) => CleanIsTidy(b, x.With(l));
    case Try(b, hs, f) =>
      var c, d := x.Clean(true), x.Clean(false);
      assert c.Clean(true) == c && d.Clean(true) == c && d.Clean(false) == d && c.Clean(false) == d;
      if CanRaise(b) && hs.NoHandler? {
        CleanIsTidy(b, x);
      }
      if f.Fin? {
        CleanIsTidy(f.body, x);
      }
      assert HandlersFit(hs, c) ==> HandlersFit(hs, d);
      assert FinFits(f, CanRaise(b), c) ==> FinFits(f, CanRaise(b), d);
    case _ =>
  }

  // ---------- following the structured semantics ----------

  /** `o`, from state `m`, ends like `r`. */
  ghost predicate Follows(m: Mem, o: Out, r: Res, x: Wish) {
    match r.o
    case Normal => o.x.Falls? && o.m.tr == r.tr && !o.m.err && Kept(o.m.exns, 0, m.exns, x.Exact?)
    case Raised(e) =>
      && o.x.Jumps? && o.m.tr == r.tr && o.m.err
      && o.m.exns != [] && o.m.exns[0] == e && Kept(o.m.exns, 1, m.exns, x.AtRaise())
    case Broke(l) =>
      && o.x.Breaks? && o.x.lbl == l && o.m.tr == r.tr && !o.m.err
      && Kept(o.m.exns, o.x.pops, m.exns, x.AtBreak(l))
    case Returned => o.x.Returns? && o.m.tr == r.tr && !o.m.err && Kept(o.m.exns, o.x.pops, m.exns, x.AtReturn())
    case Timeout => o.x.Hangs?
  }

  /** Following from a later state, from which the stack has been kept. */
  lemma FollowsAfter(m: Mem, m1: Mem, o: Out, r: Res, x: Wish)
    requires Follows(m1, o, r, x) && Extends(m1.exns, m.exns) && (x.Exact? ==> m1.exns == m.exns)
    ensures Follows(m, o, r, x)
  {
    hide Kept, Extends;
    match r.o
    case Normal => KeptAfter(o.m.exns, 0, m1.exns, m.exns, x.Exact?);
    case Raised(e) => KeptAfter(o.m.exns, 1, m1.exns, m.exns, x.AtRaise());
    case Broke(l) => KeptAfter(o.m.exns, o.x.pops, m1.exns, m.exns, x.AtBreak(l));
    case Returned => KeptAfter(o.m.exns, o.x.pops, m1.exns, m.exns, x.AtReturn());
    case Timeout =>
  }

  lemma FollowsTrace(m: Mem, tr: Trace, o: Out, r: Res, x: Wish)
    requires Follows(m.(tr := tr), o, r, x)
    ensures Follows(m, o, r, x)
  {
    ExtendsSelf(m.exns);
    FollowsAfter(m, m.(tr := tr), o, r, x);
  }

  /** What cannot raise keeps the stack as exactly as one could wish. */
  lemma QuietFollows(w: World, s: Stmt, fuel: nat, m: Mem, x: Wish)
    requires !CanRaise(s) && !m.err && Follows(m, Flow(w, s, fuel, m), Exec(w, s, fuel, m.tr), Loose)
    requires x.Exact? ==> Neat(w)
    ensures Follows(m, Flow(w, s, fuel, m), Exec(w, s, fuel, m.tr), x)
  {
    hide Flow, Exec, Neat;
    QuietKeeps(w, s, fuel, m);
    ExtendsSelf(m.exns);
  }

  // ---------- the condition on a run ----------

  /**
   What a `finally` body that is run with the flag on has to do: the same as without
   it. Where it is meant to end normally it has to keep the exception in flight.
   */
  ghost predicate SameWay(g: Out, r: Res, e: Exn) {
    match r.o
    case Normal => (g.x.Falls? || g.x.Jumps?) && g.m.err && g.m.tr == r.tr && g.m.exns != [] && g.m.exns[0] == e
    case Raised(_) => false
    case Broke(l) => g.x.Breaks? && g.x.lbl == l && !g.m.err && g.m.tr == r.tr
    case Returned => g.x.Returns? && !g.m.err && g.m.tr == r.tr
    case Timeout => g.x.Hangs?
  }

  predicate Pending(h: Out) {
    h.x.Falls? && h.m.err
  }

  /**
   The `finally` body, begun with an exception in flight, hands it on: around a body that
   can raise the flag is saved, but the exception has to be back on top of the stack; one
   that cannot raise runs with the flag on.
   */
  ghost predicate HandsOn(w: World, f: Fin, fuel: nat, h: Out) {
    f.Fin? && Pending(h) && h.m.exns != [] ==>
      var r := Exec(w, f.body, fuel, h.m.tr);
      if CanRaise(f.body) then
        r.o.Normal? ==>
          var exns := Flow(w, f.body, fuel, h.m.(err := false)).m.exns;
          exns != [] && exns[0] == h.m.exns[0]
      else SameWay(Flow(w, f.body, fuel, h.m), r, h.m.exns[0])
  }

  /** Every `finally` that the run reaches with an exception in flight hands it on. */
  ghost predicate Meets(w: World, s: Stmt, fuel: nat, m: Mem)
    decreases s, 1
  {
    match s
    case Seq(a, b) =>
      Meets(w, a, fuel, m) && (Flow(w, a, fuel, m).x.Falls? ==> Meets(w, b, fuel, Flow(w, a, fuel, m).m))
    case If(c, a, b) =>
      var go := w.test(c, m.tr);
      Meets(w, if go then a else b, fuel, m.(tr := m.tr + [Tested(c, go)]))
    case While(_, _, _) => MeetsLoop(w, s, fuel, fuel, m)
    case Block(_, b) => Meets(w, b, fuel, m)
    case Try(b, hs, f) =>
      var o := Flow(w, b, fuel, m);
      && Meets(w, b, fuel, m) && MeetsHandled(w, hs, fuel, o)
      && MeetsFin(w, f, fuel, FlowHandled(w, hs, fuel, o)) && HandsOn(w, f, fuel, FlowHandled(w, hs, fuel, o))
    case _ => true
  }

  ghost predicate MeetsLoop(w: World, s: Stmt, fuel: nat, iters: nat, m: Mem)
    requires s.While?
    decreases s, 0, iters
  {
    iters > 0 && w.test(s.cond, m.tr) ==>
      var m1 := m.(tr := m.tr + [Tested(s.cond, true)]);
      var o := Flow(w, s.body, fuel, m1);
      Meets(w, s.body, fuel, m1) && (o.x.Falls? ==> MeetsLoop(w, s, fuel, iters - 1, o.m))
  }

  /** In the handler that runs, if one does. */
  ghost predicate MeetsHandled(w: World, hs: Handlers, fuel: nat, o: Out)
    decreases hs, 1
  {
    o.x.Jumps? || Pending(o) ==> MeetsHandlers(w, hs, fuel, o.m)
  }

  ghost predicate MeetsHandlers(w: World, hs: Handlers, fuel: nat, m: Mem)
    decreases hs, 0
  {
    hs.NoHandler? || (hs.kinds.Only? && m.exns == []) ||
    if hs.kinds.Only? && !Catches(w, hs.kinds, m.exns[0]) then MeetsHandlers(w, hs.rest, fuel, m)
    else Meets(w, hs.body, fuel, m.(err := false))
  }

  /** Inside the `finally` body, which does not count if it is run with the flag on. */
  ghost predicate MeetsFin(w: World, f: Fin, fuel: nat, h: Out)
    decreases f
  {
    f.Fin? && !h.x.Hangs? ==>
      if !Pending(h) then Meets(w, f.body, fuel, h.m)
      else CanRaise(f.body) ==> Meets(w, f.body, fuel, h.m.(err := false))
  }

  /** Without raising statements no exception is ever in flight. */
  lemma {:induction false} QuietMeets(w: World, s: Stmt, fuel: nat, m: Mem)
    requires !CanRaise(s) && !m.err
    ensures Meets(w, s, fuel, m)
    decreases s, 1
  {
    hide Neat, Extends;
    if s.Seq? {
      QuietMeets(w, s.first, fuel, m);
      QuietKeeps(w, s.first, fuel, m);
      QuietMeets(w, s.second, fuel, Flow(w, s.first, fuel, m).m);
    } else if s.If? {
      var go := w.test(s.cond, m.tr);
      QuietMeets(w, if go then s.thn else s.els, fuel, m.(tr := m.tr + [Tested(s.cond, go)]));
    } else if s.While? {
      QuietLoopMeets(w, s, fuel, fuel, m);
    } else if s.Block? {
      QuietMeets(w, s.body, fuel, m);
    } else if s.Try? {
      QuietMeets(w, s.body, fuel, m);
      QuietKeeps(w, s.body, fuel, m);
      if s.fin.Fin? {
        QuietMeets(w, s.fin.body, fuel, Flow(w, s.body, fuel, m).m);
      }
    }
  }

  lemma {:induction false} QuietLoopMeets(w: World, s: Stmt, fuel: nat, iters: nat, m: Mem)
    requires s.While? && !CanRaise(s) && !m.err
    ensures MeetsLoop(w, s, fuel, iters, m)
    decreases s, 0, iters
  {
    hide Neat, Extends, Flow, Meets;
    if iters > 0 {
      var m1 := m.(tr := m.tr + [Tested(s.cond, true)]);
      QuietMeets(w, s.body, fuel, m1);
      QuietKeeps(w, s.body, fuel, m1);
      QuietLoopMeets(w, s, fuel, iters - 1, Flow(w, s.body, fuel, m1).m);
    }
  }

  // ---------- statements other than try ----------

  /**
   A run in which every `finally` hands on the exception in flight is as in the structured
   semantics: the same events and the same way out. The stack is kept as the text grants,
   if called procs leave it alone.
   */
  lemma {:induction false} Follow(w: World, s: Stmt, fuel: nat, m: Mem, x: Wish)
    requires !m.err && Meets(w, s, fuel, m) && Tidy(s, x) && (x.Exact? ==> Neat(w))
    ensures Follows(m, Flow(w, s, fuel, m), Exec(w, s, fuel, m.tr), x)
    decreases s, 2
  {
    hide Follows, Neat;
    if s.Seq? {
      FollowSeq(w, s, fuel, m, x);
    } else if s.If? {
      var go := w.test(s.cond, m.tr);
      Follow(w, if go then s.thn else s.els, fuel, m.(tr := m.tr + [Tested(s.cond, go)]), x);
      FollowsTrace(m, m.tr + [Tested(s.cond, go)], Flow(w, s, fuel, m), Exec(w, s, fuel, m.tr), x);
    } else if s.While? {
      FollowLoop(w, s, fuel, fuel, m, x);
    } else if s.Block? {
      Follow(w, s.body, fuel, m, x.With(s.lbl));
      CaughtFollows(s.lbl, m, Flow(w, s.body, fuel, m), Exec(w, s.body, fuel, m.tr), x);
    } else if s.Try? {
      FollowTry(w, s, fuel, m, x);
    } else {
      FollowOne(w, s, fuel, m, x);
    }
  }

  lemma FollowOne(w: World, s: Stmt, fuel: nat, m: Mem, x: Wish)
    requires (s.Skip? || s.Call? || s.Raise? || s.Break? || s.Return?) && !m.err && (x.Exact? ==> Neat(w))
    ensures Follows(m, Flow(w, s, fuel, m), Exec(w, s, fuel, m.tr), x)
  {
    ExtendsSelf(m.exns);
    if s.Raise? {
      assert ([s.exn] + m.exns)[1..] == m.exns;
    } else if s.Call? {
      var t := m.tr + [Called(s.id)];
      CallKeeps(w.leaves(s.id, t), m.exns, if s.canRaise then w.raises(s.id, t) else None);
    }
  }

  lemma CallKeeps(left: seq<Exn>, exns: seq<Exn>, e: Option<Exn>)
    ensures Kept(left + exns, 0, exns, left == [])
    ensures e.Some? ==> Kept([e.value] + (left + exns), 1, exns, left == [])
  {
    ExtendsMore(left, exns);
    ExtendsSelf(left + exns);
    assert [] + exns == exns;
    if e.Some? {
      assert ([e.value] + (left + exns))[1..] == left + exns;
    }
  }

  lemma {:induction false} FollowSeq(w: World, s: Stmt, fuel: nat, m: Mem, x: Wish)
    requires s.Seq? && !m.err && Meets(w, s, fuel, m) && Tidy(s, x) && (x.Exact? ==> Neat(w))
    ensures Follows(m, Flow(w, s, fuel, m), Exec(w, s, fuel, m.tr), x)
    decreases s, 0
  {
    hide Kept, Extends, Neat;
    Follow(w, s.first, fuel, m, x);
    var o, r := Flow(w, s.first, fuel, m), Exec(w, s.first, fuel, m.tr);
    if r.o.Normal? {
      KeptStart(o.m.exns, m.exns, x.Exact?);
      Follow(w, s.second, fuel, o.m, x);
      FollowsAfter(m, o.m, Flow(w, s.second, fuel, o.m), Exec(w, s.second, fuel, o.m.tr), x);
    }
  }

  lemma CaughtFollows(l: nat, m: Mem, o: Out, r: Res, x: Wish)
    requires Follows(m, o, r, x.With(l))
    ensures Follows(m, Caught(l, o), if r.o == Broke(l) then Res(Normal, r.tr) else r, x)
  {
    hide Kept, Extends;
    if r.o == Broke(l) {
      KeptPopped(o.m.exns, o.x.pops, m.exns, x.Exact?);
    }
  }

  lemma KeptPopped(exns: seq<Exn>, pops: nat, before: seq<Exn>, exact: bool)
    requires Kept(exns, pops, before, exact)
    ensures pops <= |exns| && Kept(exns[pops..], 0, before, exact)
  {
    ExtendsSelf(exns[pops..]);
  }

  lemma {:induction false} FollowLoop(w: World, s: Stmt, fuel: nat, iters: nat, m: Mem, x: Wish)
    requires s.While? && !m.err && MeetsLoop(w, s, fuel, iters, m) && Tidy(s, x) && (x.Exact? ==> Neat(w))
    ensures Follows(m, FlowLoop(w, s, fuel, iters, m), Loop(w, s, fuel, iters, m.tr), x)
    decreases s, 0, iters
  {
    hide Kept, Extends, Neat;
    if iters > 0 {
      var go := w.test(s.cond, m.tr);
      var m1 := m.(tr := m.tr + [Tested(s.cond, go)]);
      if go {
        Follow(w, s.body, fuel, m1, x.With(s.lbl));
        var o, r := Flow(w, s.body, fuel, m1), Exec(w, s.body, fuel, m1.tr);
        if r.o.Normal? {
          KeptStart(o.m.exns, m1.exns, x.Exact?);
          FollowLoop(w, s, fuel, iters - 1, o.m, x);
          FollowsAfter(m, o.m, FlowLoop(w, s, fuel, iters - 1, o.m), Loop(w, s, fuel, iters - 1, o.m.tr), x);
        } else {
          CaughtFollows(s.lbl, m1, o, r, x);
          FollowsTrace(m, m1.tr, Caught(s.lbl, o), if r.o == Broke(s.lbl) then Res(Normal, r.tr) else r, x);
        }
      } else {
        KeptSelf(m.exns, x.Exact?);
      }
    }
  }

  // ---------- try ----------

  /** At the `finally` section an exception in flight is only known by the flag. */
  function AtFin(h: Out): Out {
    if h.x.Falls? then RaiseExit(h.m) else h
  }

  function Handled(w: World, hs: Handlers, fuel: nat, r: Res): Res {
    if r.o.Raised? then Handle(w, hs, r.o.exn, fuel, r.tr) else r
  }

  lemma TryFlows(w: World, s: Stmt, fuel: nat, m: Mem)
    requires s.Try?
    ensures Flow(w, s, fuel, m) == FlowFin(w, s.fin, fuel, FlowHandled(w, s.handlers, fuel, Flow(w, s.body, fuel, m)))
    ensures Exec(w, s, fuel, m.tr) == Finish(w, s.fin, fuel, Handled(w, s.handlers, fuel, Exec(w, s.body, fuel, m.tr)))
  {
  }

  lemma TryMeets(w: World, s: Stmt, fuel: nat, m: Mem)
    requires s.Try?
    ensures var o := Flow(w, s.body, fuel, m);
      var h := FlowHandled(w, s.handlers, fuel, o);
      Meets(w, s, fuel, m) <==>
      Meets(w, s.body, fuel, m) && MeetsHandled(w, s.handlers, fuel, o) && MeetsFin(w, s.fin, fuel, h)
        && HandsOn(w, s.fin, fuel, h)
  {
  }

  lemma NoFinMeets(w: World, b: Stmt, hs: Handlers, fuel: nat, m: Mem)
    ensures Meets(w, Try(b, hs, NoFin), fuel, m) <==>
      Meets(w, b, fuel, m) && MeetsHandled(w, hs, fuel, Flow(w, b, fuel, m))
  {
  }

  lemma TryParts(s: Stmt, x: Wish)
    requires s.Try? && Tidy(s, x)
    ensures x.Exact? && CanRaise(s.body) ==> Tidy(s.body, x.Clean(x.clean || s.handlers.Handler?))
    ensures CanRaise(s.body) ==> HandlersFit(s.handlers, x)
    ensures FinFits(s.fin, CanRaise(s.body), x)
  {
    if x.Loose? {
      LooseFits(s.handlers);
    }
  }

  lemma {:induction false} LooseFits(hs: Handlers)
    ensures HandlersFit(hs, Loose)
  {
    if hs.Handler? {
      LooseFits(hs.rest);
    }
  }

  lemma BodyRaises(w: World, b: Stmt, fuel: nat, tr: Trace)
    ensures Exec(w, b, fuel, tr).o.Raised? ==> CanRaise(b)
  {
    if !CanRaise(b) {
      QuietNeverRaises(w, b, fuel, tr);
    }
  }

  /** A body that cannot raise leaves the stack alone, and no handler runs. */
  lemma QuietHandled(w: World, b: Stmt, hs: Handlers, fuel: nat, m: Mem)
    requires !m.err
    ensures !CanRaise(b) && Neat(w) ==> FlowHandled(w, hs, fuel, Flow(w, b, fuel, m)).m.exns == m.exns
  {
    hide Neat;
    if !CanRaise(b) {
      QuietKeeps(w, b, fuel, m);
    }
  }

  /** Up to the `finally` section. */
  lemma {:induction false} FollowBody(w: World, s: Stmt, fuel: nat, m: Mem, x: Wish)
    requires s.Try? && !m.err && Tidy(s, x) && (x.Exact? ==> Neat(w))
    requires Meets(w, s.body, fuel, m) && MeetsHandled(w, s.handlers, fuel, Flow(w, s.body, fuel, m))
    ensures var h := FlowHandled(w, s.handlers, fuel, Flow(w, s.body, fuel, m));
      !h.x.Jumps? && Follows(m, AtFin(h), Handled(w, s.handlers, fuel, Exec(w, s.body, fuel, m.tr)), x)
    decreases s, 0
  {
    hide Follows, FlowHandled, Handled, Tidy, Meets, Neat, HandlersFit, FinFits;
    var b, hs := s.body, s.handlers;
    var o, r := Flow(w, b, fuel, m), Exec(w, b, fuel, m.tr);
    TryParts(s, x);
    var xb := if x.Loose? then Loose else x.Clean(x.clean || hs.Handler?);
    if CanRaise(b) {
      LooseTidy(b);
      Follow(w, b, fuel, m, xb);
    } else {
      LooseTidy(b);
      Follow(w, b, fuel, m, Loose);
      QuietFollows(w, b, fuel, m, xb);
    }
    BodyRaises(w, b, fuel, m.tr);
    BodyHandled(w, hs, fuel, m, o, r, x);
  }

  lemma LooseTidy(s: Stmt)
    ensures Tidy(s, Loose)
  {
  }

  lemma {:induction false} BodyHandled(w: World, hs: Handlers, fuel: nat, m: Mem, o: Out, r: Res, x: Wish)
    requires MeetsHandled(w, hs, fuel, o) && (r.o.Raised? ==> HandlersFit(hs, x)) && (x.Exact? ==> Neat(w))
    requires Follows(m, o, r, if x.Loose? then Loose else x.Clean(x.clean || hs.Handler?))
    ensures var h := FlowHandled(w, hs, fuel, o);
      !h.x.Jumps? && Follows(m, AtFin(h), Handled(w, hs, fuel, r), x)
    decreases hs, 1
  {
    hide Kept, Extends, FlowHandlers, Handle, Neat, HandlersFit, MeetsHandlers;
    if r.o.Raised? {
      FollowHandlers(w, hs, r.o.exn, fuel, m, o.m, x);
    }
  }

  lemma {:induction false} FollowHandlers(w: World, hs: Handlers, e: Exn, fuel: nat, m: Mem, h: Mem, x: Wish)
    requires MeetsHandlers(w, hs, fuel, h) && HandlersFit(hs, x) && (x.Exact? ==> Neat(w))
    requires h.err && h.exns != [] && h.exns[0] == e
    requires Kept(h.exns, 1, m.exns, x.Exact? && (x.clean || hs.Handler?))
    ensures var o := FlowHandlers(w, hs, fuel, h);
      !o.x.Jumps? && Follows(m, AtFin(o), Handle(w, hs, e, fuel, h.tr), x)
    decreases hs, 0
  {
    hide Extends, Catches, Neat, Meets;
    if hs.Handler? {
      AllOrCaught(w, hs.kinds, e);
      if Catches(w, hs.kinds, e) {
        var m1 := h.(err := false);
        Follow(w, hs.body, fuel, m1, x.Clean(false));
        BodyRaises(w, hs.body, fuel, h.tr);
        HandlerFollows(m, h, Flow(w, hs.body, fuel, m1), Exec(w, hs.body, fuel, h.tr), x);
      } else {
        FollowHandlers(w, hs.rest, e, fuel, m, h, x);
      }
    }
  }

  lemma AllOrCaught(w: World, k: Kinds, e: Exn)
    ensures k.All? ==> Catches(w, k, e)
  {
  }

  /** The end of a handler, seen from before the `try`. */
  lemma HandlerFollows(m: Mem, h: Mem, o: Out, r: Res, x: Wish)
    requires Follows(h.(err := false), o, r, x.Clean(false))
    requires h.exns != [] && Kept(h.exns, 1, m.exns, x.Exact?) && (x.AtRaise() ==> !r.o.Raised?)
    ensures !HandlerEnd(o).x.Jumps? && Follows(m, AtFin(HandlerEnd(o)), r, x)
  {
    hide Kept, Extends;
    match r.o
    case Normal => KeptPop(o.m.exns, 0, h.exns, m.exns, x.Exact?, x.Exact?);
    case Raised(_) => KeptBelow(o.m.exns, 1, h.exns, m.exns, false, x.Exact?);
    case Broke(l) => KeptPop(o.m.exns, o.x.pops, h.exns, m.exns, x.AtBreak(l), x.Exact?);
    case Returned => KeptPop(o.m.exns, o.x.pops, h.exns, m.exns, x.AtReturn(), x.Exact?);
    case Timeout =>
  }

  lemma {:induction false} FollowTry(w: World, s: Stmt, fuel: nat, m: Mem, x: Wish)
    requires s.Try? && !m.err && Meets(w, s, fuel, m) && Tidy(s, x) && (x.Exact? ==> Neat(w))
    ensures Follows(m, Flow(w, s, fuel, m), Exec(w, s, fuel, m.tr), x)
    decreases s, 1
  {
    hide Follows, FlowFin, FlowHandled, Handle, Tidy, Meets, MeetsHandled, MeetsFin, HandsOn, Neat, FinFits;
    TryMeets(w, s, fuel, m);
    FollowBody(w, s, fuel, m, x);
    var r := Exec(w, s.body, fuel, m.tr);
    TryParts(s, x);
    BodyRaises(w, s.body, fuel, m.tr);
    QuietHandled(w, s.body, s.handlers, fuel, m);
    FollowFin(w, s.fin, fuel, m, FlowHandled(w, s.handlers, fuel, Flow(w, s.body, fuel, m)),
              Handled(w, s.handlers, fuel, r), CanRaise(s.body), x);
    TryFlows(w, s, fuel, m);
  }

  // ---------- finally ----------

  /** The `finally` section runs however the rest ended and hands on an exception in flight. */
  lemma {:induction false} FollowFin(w: World, f: Fin, fuel: nat, m: Mem, h: Out, rh: Res, raises: bool, x: Wish)
    requires MeetsFin(w, f, fuel, h) && HandsOn(w, f, fuel, h) && (rh.o.Raised? ==> raises) && FinFits(f, raises, x)
    requires !h.x.Jumps? && Follows(m, AtFin(h), rh, x)
    requires x.Exact? ==> Neat(w) && (!raises ==> h.m.exns == m.exns)
    ensures Follows(m, FlowFin(w, f, fuel, h), Finish(w, f, fuel, rh), x)
    decreases f
  {
    hide Kept, Extends, Neat;
    if f.Fin? && !rh.o.Timeout? {
      hide FlowFin, Meets, Tidy;
      if rh.o.Normal? {
        Follow(w, f.body, fuel, h.m, x);
        FinAfterNormal(w, f, fuel, m, h, rh, x);
      } else if rh.o.Raised? {
        FinAfterRaise(w, f, fuel, m, h, rh, x);
      } else {
        Follow(w, f.body, fuel, h.m, x);
        FinAfterLeave(w, f, fuel, m, h, rh, raises, x);
      }
    }
  }

  lemma FinAfterNormal(w: World, f: Fin, fuel: nat, m: Mem, h: Out, rh: Res, x: Wish)
    requires f.Fin? && rh.o.Normal? && !h.x.Jumps? && Follows(m, AtFin(h), rh, x)
    requires Follows(h.m, Flow(w, f.body, fuel, h.m), Exec(w, f.body, fuel, h.m.tr), x)
    ensures Follows(m, FlowFin(w, f, fuel, h), Finish(w, f, fuel, rh), x)
  {
    hide Kept, Extends, Flow, Exec;
    KeptStart(h.m.exns, m.exns, x.Exact?);
    var g, rg := Flow(w, f.body, fuel, h.m), Exec(w, f.body, fuel, rh.tr);
    FollowsAfter(m, h.m, g, rg, x);
    assert h.m.(err := false) == h.m;
    assert rg.o.Normal? ==> g.m.(err := false) == g.m;
  }

  lemma {:induction false} FinAfterRaise(w: World, f: Fin, fuel: nat, m: Mem, h: Out, rh: Res, x: Wish)
    requires f.Fin? && FinFits(f, true, x) && MeetsFin(w, f, fuel, h) && HandsOn(w, f, fuel, h)
    requires x.Exact? ==> Neat(w)
    requires rh.o.Raised? && !h.x.Jumps? && Follows(m, AtFin(h), rh, x)
    ensures Follows(m, FlowFin(w, f, fuel, h), Finish(w, f, fuel, rh), x)
    decreases f, 0
  {
    hide Kept, Extends, FlowFin, Meets, Tidy, Neat, Follows;
    PendingNow(m, h, rh, x);
    LeavesFin(w, f, fuel, h.m.tr, x);
    if CanRaise(f.body) {
      LooseTidy(f.body);
      Follow(w, f.body, fuel, h.m.(err := false), Loose);
      LoudFollows(w, f, fuel, m, h, x);
    } else {
      FlaggedKeeps(w, f.body, fuel, h.m);
      QuietPending(w, f, fuel, m, h, x);
    }
  }

  /** What is known about the state at the `finally` section with an exception in flight. */
  lemma PendingNow(m: Mem, h: Out, rh: Res, x: Wish)
    requires rh.o.Raised? && !h.x.Jumps? && Follows(m, AtFin(h), rh, x)
    ensures Pending(h) && h.m.exns != [] && rh == Res(Raised(h.m.exns[0]), h.m.tr)
    ensures Kept(h.m.exns, 1, m.exns, x.AtRaise())
  {
    hide Kept;
  }

  /** A `finally` that is left by its own break or return gives up the wish for exactness. */
  lemma LeavesFin(w: World, f: Fin, fuel: nat, tr: Trace, x: Wish)
    requires f.Fin? && FinFits(f, true, x)
    ensures var o := Exec(w, f.body, fuel, tr).o;
      && (o.Broke? ==> !x.AtBreak(o.lbl))
      && (o.Returned? ==> !x.AtReturn())
      && (o.Raised? ==> !x.AtRaise())
    ensures CanRaise(f.body) ==> !x.AtRaise()
  {
    hide Tidy;
    BrokeIsFree(w, f.body, fuel, tr);
    BodyRaises(w, f.body, fuel, tr);
    if !HasReturn(f.body) {
      NeverReturns(w, f.body, fuel, tr);
    }
  }

  /** The section around a body that can raise, begun with an exception in flight. */
  lemma LoudFollows(w: World, f: Fin, fuel: nat, m: Mem, h: Out, x: Wish)
    requires f.Fin? && CanRaise(f.body) && Pending(h) && h.m.exns != [] && Kept(h.m.exns, 1, m.exns, x.AtRaise())
    requires HandsOn(w, f, fuel, h) && !x.AtRaise()
    requires var o := Exec(w, f.body, fuel, h.m.tr).o;
      (o.Broke? ==> !x.AtBreak(o.lbl)) && (o.Returned? ==> !x.AtReturn())
    requires var m1 := h.m.(err := false); Follows(m1, Flow(w, f.body, fuel, m1), Exec(w, f.body, fuel, h.m.tr), Loose)
    ensures Follows(m, FlowFin(w, f, fuel, h), Finish(w, f, fuel, Res(Raised(h.m.exns[0]), h.m.tr)), x)
  {
    hide Kept, Extends, Flow, Exec;
    var g, rg := Flow(w, f.body, fuel, h.m.(err := false)), Exec(w, f.body, fuel, h.m.tr);
    match rg.o
    case Normal => KeptTop(g.m.exns, h.m.exns, m.exns, false, false);
    case Raised(_) => KeptBelow(g.m.exns, 1, h.m.exns, m.exns, false, false);
    case Broke(_) => KeptBelow(g.m.exns, g.x.pops, h.m.exns, m.exns, false, false);
    case Returned => KeptBelow(g.m.exns, g.x.pops, h.m.exns, m.exns, false, false);
    case Timeout =>
  }

  /** The section around a body that cannot raise, begun with an exception in flight. */
  lemma QuietPending(w: World, f: Fin, fuel: nat, m: Mem, h: Out, x: Wish)
    requires f.Fin? && !CanRaise(f.body) && Pending(h) && h.m.exns != [] && Kept(h.m.exns, 1, m.exns, x.AtRaise())
    requires Flagged(w, Flow(w, f.body, fuel, h.m), h.m) && (x.Exact? ==> Neat(w))
    requires SameWay(Flow(w, f.body, fuel, h.m), Exec(w, f.body, fuel, h.m.tr), h.m.exns[0])
    requires var o := Exec(w, f.body, fuel, h.m.tr).o;
      (o.Broke? ==> !x.AtBreak(o.lbl)) && (o.Returned? ==> !x.AtReturn())
    ensures Follows(m, FlowFin(w, f, fuel, h), Finish(w, f, fuel, Res(Raised(h.m.exns[0]), h.m.tr)), x)
  {
    hide Kept, Extends, Flow, Exec, Neat;
    var g, rg := Flow(w, f.body, fuel, h.m), Exec(w, f.body, fuel, h.m.tr);
    if !rg.o.Timeout? {
      FlaggedMeans(w, g, h.m);
      KeptUnder(h.m.exns, m.exns, x.AtRaise());
      if rg.o.Normal? {
        KeptIf(g.m.exns, h.m.exns, x.Exact?);
        KeptTop(g.m.exns, h.m.exns, m.exns, x.Exact?, x.AtRaise());
      } else {
        KeptAfter(g.m.exns, PopsOf(g.x), h.m.exns[1..], m.exns, false);
      }
    }
  }

  lemma KeptUnder(exns: seq<Exn>, before: seq<Exn>, exact: bool)
    requires exns != [] && Kept(exns, 1, before, exact)
    ensures Extends(exns[1..], before)
  {
  }

  lemma {:induction false} FinAfterLeave(w: World, f: Fin, fuel: nat, m: Mem, h: Out, rh: Res, raises: bool, x: Wish)
    requires f.Fin? && FinFits(f, raises, x) && (x.Exact? && !raises ==> h.m.exns == m.exns)
    requires (rh.o.Broke? || rh.o.Returned?) && !h.x.Jumps? && Follows(m, AtFin(h), rh, x)
    requires Follows(h.m, Flow(w, f.body, fuel, h.m), Exec(w, f.body, fuel, h.m.tr), x)
    ensures Follows(m, FlowFin(w, f, fuel, h), Finish(w, f, fuel, rh), x)
  {
    hide Kept, Extends, Tidy, Flow, Exec;
    var g, rg := Flow(w, f.body, fuel, h.m), Exec(w, f.body, fuel, rh.tr);
    var p := h.x.pops;
    if raises {
      LeavesFin(w, f, fuel, rh.tr, x);
    }
    var exact := if rh.o.Broke? then x.AtBreak(rh.o.lbl) else x.AtReturn();
    match rg.o
    case Normal => KeptThrough(g.m.exns, p, h.m.exns, m.exns, x.Exact?, exact);
    case Raised(_) => KeptOver(g.m.exns, 1, h.m.exns, p, m.exns, exact, x.AtRaise());
    case Broke(l) => KeptOver(g.m.exns, g.x.pops, h.m.exns, p, m.exns, exact, x.AtBreak(l));
    case Returned => KeptOver(g.m.exns, g.x.pops, h.m.exns, p, m.exns, exact, x.AtReturn());
    case Timeout =>
  }

  // ---------- the condition is exact ----------

  /**
   In a `try` with nothing wrong inside, the code does what was written if and only if its
   `finally` hands on the exception in flight, if there is one.
   */
  lemma FollowsIff(w: World, b: Stmt, hs: Handlers, f: Fin, fuel: nat, m: Mem)
    requires !m.err && Meets(w, Try(b, hs, NoFin), fuel, m)
    requires MeetsFin(w, f, fuel, FlowHandled(w, hs, fuel, Flow(w, b, fuel, m)))
    ensures Follows(m, Flow(w, Try(b, hs, f), fuel, m), Exec(w, Try(b, hs, f), fuel, m.tr), Loose) <==>
      HandsOn(w, f, fuel, FlowHandled(w, hs, fuel, Flow(w, b, fuel, m)))
  {
    hide Follows, FlowFin, FlowHandled, Handle, Tidy, Meets, MeetsHandled, MeetsFin, HandsOn, FinFits;
    var s, t := Try(b, hs, f), Try(b, hs, NoFin);
    var h := FlowHandled(w, hs, fuel, Flow(w, b, fuel, m));
    LooseTidy(s);
    LooseTidy(t);
    TryMeets(w, s, fuel, m);
    NoFinMeets(w, b, hs, fuel, m);
    if HandsOn(w, f, fuel, h) {
      Follow(w, s, fuel, m, Loose);
    } else {
      FollowBody(w, t, fuel, m, Loose);
      TryFlows(w, s, fuel, m);
      LostFin(w, f, fuel, m, h, Handled(w, hs, fuel, Exec(w, b, fuel, m.tr)));
    }
  }

  lemma LostFin(w: World, f: Fin, fuel: nat, m: Mem, h: Out, rh: Res)
    requires MeetsFin(w, f, fuel, h) && !HandsOn(w, f, fuel, h) && !h.x.Jumps? && Follows(m, AtFin(h), rh, Loose)
    ensures !Follows(m, FlowFin(w, f, fuel, h), Finish(w, f, fuel, rh), Loose)
  {
    hide Kept, Extends, Meets, Tidy, Flow, Exec;
    LooseTidy(f.body);
    if CanRaise(f.body) {
      var m1 := h.m.(err := false);
      Follow(w, f.body, fuel, m1, Loose);
      var g := Flow(w, f.body, fuel, m1);
      KeptStart(g.m.exns, m1.exns, false);
      ExtendsLonger(g.m.exns, m1.exns);
    } else {
      QuietNeverRaises(w, f.body, fuel, h.m.tr);
    }
  }

  /** Every statement of the run does what was written. */
  ghost predicate Faithful(w: World, s: Stmt, fuel: nat, m: Mem)
    decreases s, 1
  {
    && Follows(m, Flow(w, s, fuel, m), Exec(w, s, fuel, m.tr), Loose)
    && match s
       case Seq(a, b) =>
         Faithful(w, a, fuel, m) && (Flow(w, a, fuel, m).x.Falls? ==> Faithful(w, b, fuel, Flow(w, a, fuel, m).m))
       case If(c, a, b) =>
         var go := w.test(c, m.tr);
         Faithful(w, if go then a else b, fuel, m.(tr := m.tr + [Tested(c, go)]))
       case While(_, _, _) => FaithfulLoop(w, s, fuel, fuel, m)
       case Block(_, b) => Faithful(w, b, fuel, m)
       case Try(b, hs, f) =>
         var o := Flow(w, b, fuel, m);
         && Faithful(w, b, fuel, m) && FaithfulHandled(w, hs, fuel, o)
         && FaithfulFin(w, f, fuel, FlowHandled(w, hs, fuel, o))
       case _ => true
  }

  ghost predicate FaithfulLoop(w: World, s: Stmt, fuel: nat, iters: nat, m: Mem)
    requires s.While?
    decreases s, 0, iters
  {
    iters > 0 && w.test(s.cond, m.tr) ==>
      var m1 := m.(tr := m.tr + [Tested(s.cond, true)]);
      var o := Flow(w, s.body, fuel, m1);
      Faithful(w, s.body, fuel, m1) && (o.x.Falls? ==> FaithfulLoop(w, s, fuel, iters - 1, o.m))
  }

  ghost predicate FaithfulHandled(w: World, hs: Handlers, fuel: nat, o: Out)
    decreases hs, 1
  {
    o.x.Jumps? || Pending(o) ==> FaithfulHandlers(w, hs, fuel, o.m)
  }

  ghost predicate FaithfulHandlers(w: World, hs: Handlers, fuel: nat, m: Mem)
    decreases hs, 0
  {
    hs.NoHandler? || (hs.kinds.Only? && m.exns == []) ||
    if hs.kinds.Only? && !Catches(w, hs.kinds, m.exns[0]) then FaithfulHandlers(w, hs.rest, fuel, m)
    else Faithful(w, hs.body, fuel, m.(err := false))
  }

  ghost predicate FaithfulFin(w: World, f: Fin, fuel: nat, h: Out)
    decreases f
  {
    f.Fin? && !h.x.Hangs? ==>
      if !Pending(h) then Faithful(w, f.body, fuel, h.m)
      else CanRaise(f.body) ==> Faithful(w, f.body, fuel, h.m.(err := false))
  }

  /**
   For every program and every run: all statements do what was written if and only if every
   `finally` that is reached with an exception in flight hands it on.
   */
  lemma {:induction false} MeetsIff(w: World, s: Stmt, fuel: nat, m: Mem)
    requires !m.err
    ensures Meets(w, s, fuel, m) <==> Faithful(w, s, fuel, m)
    decreases s, 2
  {
    hide Follows;
    if Meets(w, s, fuel, m) {
      LooseTidy(s);
      Follow(w, s, fuel, m, Loose);
    }
    if s.Seq? {
      SeqMeetsIff(w, s, fuel, m);
    } else if s.If? {
      var go := w.test(s.cond, m.tr);
      MeetsIff(w, if go then s.thn else s.els, fuel, m.(tr := m.tr + [Tested(s.cond, go)]));
    } else if s.While? {
      LoopMeetsIff(w, s, fuel, fuel, m);
    } else if s.Block? {
      MeetsIff(w, s.body, fuel, m);
    } else if s.Try? {
      TryMeetsIff(w, s, fuel, m);
    } else {
      FollowOne(w, s, fuel, m, Loose);
    }
  }

  /** After a part that did what was written the flag is off. */
  lemma NormalMeans(m: Mem, o: Out, r: Res)
    requires Follows(m, o, r, Loose)
    ensures o.x.Falls? ==> !o.m.err
    ensures o.x.Jumps? ==> r.o.Raised? && o.m.err
  {
  }

  lemma {:induction false} SeqMeetsIff(w: World, s: Stmt, fuel: nat, m: Mem)
    requires !m.err && s.Seq?
    ensures Meets(w, s, fuel, m) <==>
      Faithful(w, s.first, fuel, m) &&
      (Flow(w, s.first, fuel, m).x.Falls? ==> Faithful(w, s.second, fuel, Flow(w, s.first, fuel, m).m))
    decreases s, 0
  {
    hide Follows, Flow, Exec;
    MeetsIff(w, s.first, fuel, m);
    var o := Flow(w, s.first, fuel, m);
    if Meets(w, s.first, fuel, m) && o.x.Falls? {
      NormalMeans(m, o, Exec(w, s.first, fuel, m.tr));
      MeetsIff(w, s.second, fuel, o.m);
    }
  }

  lemma {:induction false} LoopMeetsIff(w: World, s: Stmt, fuel: nat, iters: nat, m: Mem)
    requires !m.err && s.While?
    ensures MeetsLoop(w, s, fuel, iters, m) <==> FaithfulLoop(w, s, fuel, iters, m)
    decreases s, 0, iters
  {
    hide Follows, Flow, Exec;
    if iters > 0 && w.test(s.cond, m.tr) {
      var m1 := m.(tr := m.tr + [Tested(s.cond, true)]);
      MeetsIff(w, s.body, fuel, m1);
      var o := Flow(w, s.body, fuel, m1);
      if Meets(w, s.body, fuel, m1) && o.x.Falls? {
        NormalMeans(m1, o, Exec(w, s.body, fuel, m1.tr));
        LoopMeetsIff(w, s, fuel, iters - 1, o.m);
      }
    }
  }

  lemma {:induction false} HandlersMeetIff(w: World, hs: Handlers, fuel: nat, m: Mem)
    ensures MeetsHandlers(w, hs, fuel, m) <==> FaithfulHandlers(w, hs, fuel, m)
    decreases hs
  {
    hide Meets, Faithful;
    if hs.Handler? {
      HandlersMeetIff(w, hs.rest, fuel, m);
      MeetsIff(w, hs.body, fuel, m.(err := false));
    }
  }

  lemma {:induction false} TryMeetsIff(w: World, s: Stmt, fuel: nat, m: Mem)
    requires !m.err && s.Try?
    ensures var o := Flow(w, s.body, fuel, m);
      Meets(w, s, fuel, m) <==>
      && Follows(m, Flow(w, s, fuel, m), Exec(w, s, fuel, m.tr), Loose)
      && Faithful(w, s.body, fuel, m) && FaithfulHandled(w, s.handlers, fuel, o)
      && FaithfulFin(w, s.fin, fuel, FlowHandled(w, s.handlers, fuel, o))
    decreases s, 1
  {
    hide Follows, Flow, Exec, FlowHandled, Meets, Faithful, MeetsHandlers, FaithfulHandlers, HandsOn;
    var b, hs, f, o := s.body, s.handlers, s.fin, Flow(w, s.body, fuel, m);
    var h := FlowHandled(w, hs, fuel, o);
    TryMeets(w, s, fuel, m);
    MeetsIff(w, b, fuel, m);
    HandlersMeetIff(w, hs, fuel, o.m);
    if Meets(w, b, fuel, m) && MeetsHandled(w, hs, fuel, o) {
      FinMeetsIff(w, s, fuel, m);
      NoFinMeets(w, b, hs, fuel, m);
      if MeetsFin(w, f, fuel, h) {
        FollowsIff(w, b, hs, f, fuel, m);
      }
    }
  }

  lemma {:induction false} FinMeetsIff(w: World, s: Stmt, fuel: nat, m: Mem)
    requires !m.err && s.Try?
    requires Meets(w, s.body, fuel, m) && MeetsHandled(w, s.handlers, fuel, Flow(w, s.body, fuel, m))
    ensures var h := FlowHandled(w, s.handlers, fuel, Flow(w, s.body, fuel, m));
      MeetsFin(w, s.fin, fuel, h) <==> FaithfulFin(w, s.fin, fuel, h)
    decreases s, 0
  {
    hide Flow, Exec, FlowHandled, Meets, Faithful, MeetsHandlers, Handle;
    var t := Try(s.body, s.handlers, NoFin);
    LooseTidy(t);
    FollowBody(w, t, fuel, m, Loose);
    var h := FlowHandled(w, s.handlers, fuel, Flow(w, s.body, fuel, m));
    if s.fin.Fin? && !h.x.Hangs? {
      MeetsIff(w, s.fin.body, fuel, h.m.(err := false));
      assert !h.m.err ==> h.m.(err := false) == h.m;
    }
  }
}
