/**
 A condition on the text of a program under which goto-based exception code means what
 was written.
 */
module TrySound {
  import opened Basics
  import opened TryLang
  import opened TryFlow
  import opened TryQuiet
  import opened TryFollow

  // ---------- what code that cannot raise does before its first call or test ----------

  /** It makes one, ends normally, breaks or returns. */
  datatype Trip = Noisy | Through | Away(lbl: nat) | Back

  function TripOf(s: Stmt): Trip {
    match s
    case Seq(a, b) => if TripOf(a).Through? then TripOf(b) else TripOf(a)
    case Block(l, b) => if TripOf(b) == Away(l) then Through else TripOf(b)
    case Break(l) => Away(l)
    case Return => Back
    case Skip => Through
    case Try(b, _, f) =>
      if TripOf(b).Noisy? || f.NoFin? || TripOf(f.body).Through? then TripOf(b) else TripOf(f.body)
    case _ => Noisy
  }

  /** Running it shows: it makes a call or a test, or loops. */
  predicate Shows(s: Stmt) {
    TripOf(s).Noisy?
  }

  lemma {:induction false} TraceGrows(w: World, s: Stmt, fuel: nat, tr: Trace)
    ensures |Exec(w, s, fuel, tr).tr| >= |tr|
    decreases s, 1
  {
    match s
    case Seq(a, b) =>
      TraceGrows(w, a, fuel, tr);
      TraceGrows(w, b, fuel, Exec(w, a, fuel, tr).tr);
    case If(c, a, b) =>
      TraceGrows(w, if w.test(c, tr) then a else b, fuel, tr + [Tested(c, w.test(c, tr))]);
    case While(_, _, _) => LoopGrows(w, s, fuel, fuel, tr);
    case Block(_, b) => TraceGrows(w, b, fuel, tr);
    case Try(b, hs, f) =>
      TraceGrows(w, b, fuel, tr);
      var r := Exec(w, b, fuel, tr);
      if r.o.Raised? {
        HandleGrows(w, hs, r.o.exn, fuel, r.tr);
      }
      if f.Fin? {
        TraceGrows(w, f.body, fuel, (if r.o.Raised? then Handle(w, hs, r.o.exn, fuel, r.tr) else r).tr);
      }
    case _ =>
  }

  lemma {:induction false} LoopGrows(w: World, s: Stmt, fuel: nat, iters: nat, tr: Trace)
    requires s.While?
    ensures |Loop(w, s, fuel, iters, tr).tr| >= |tr| + if iters > 0 then 1 else 0
    decreases s, 0, iters
  {
    if iters > 0 {
      var t := tr + [Tested(s.cond, w.test(s.cond, tr))];
      TraceGrows(w, s.body, fuel, t);
      LoopGrows(w, s, fuel, iters - 1, Exec(w, s.body, fuel, t).tr);
    }
  }

  lemma {:induction false} HandleGrows(w: World, hs: Handlers, e: Exn, fuel: nat, tr: Trace)
    ensures |Handle(w, hs, e, fuel, tr).tr| >= |tr|
    decreases hs
  {
    if hs.Handler? {
      TraceGrows(w, hs.body, fuel, tr);
      HandleGrows(w, hs.rest, e, fuel, tr);
    }
  }

  lemma {:induction false} TripMeans(w: World, s: Stmt, fuel: nat, tr: Trace)
    requires !CanRaise(s)
    ensures match TripOf(s)
      case Noisy => Exec(w, s, fuel, tr).o.Timeout? || |Exec(w, s, fuel, tr).tr| > |tr|
      case Through => Exec(w, s, fuel, tr) == Res(Normal, tr)
      case Away(l) => Exec(w, s, fuel, tr) == Res(Broke(l), tr)
      case Back => Exec(w, s, fuel, tr) == Res(Returned, tr)
  {
    match s
    case Seq(a, b) =>
      TripMeans(w, a, fuel, tr);
      var r := Exec(w, a, fuel, tr);
      if r.o.Normal? {
        TraceGrows(w, b, fuel, r.tr);
        if TripOf(a).Through? {
          TripMeans(w, b, fuel, tr);
        }
      }
    case If(c, a, b) =>
      TraceGrows(w, if w.test(c, tr) then a else b, fuel, tr + [Tested(c, w.test(c, tr))]);
    case While(_, _, _) => LoopGrows(w, s, fuel, fuel, tr);
    case Block(_, b) => TripMeans(w, b, fuel, tr);
    case Try(b, _, f) =>
      TripMeans(w, b, fuel, tr);
      QuietNeverRaises(w, b, fuel, tr);
      if f.Fin? {
        TraceGrows(w, f.body, fuel, Exec(w, b, fuel, tr).tr);
        if !TripOf(b).Noisy? {
          TripMeans(w, f.body, fuel, tr);
        }
      }
    case _ =>
  }

  // ---------- the condition ----------

  predicate CatchesAll(hs: Handlers) {
    hs.Handler? && (hs.kinds.All? || CatchesAll(hs.rest))
  }

  /** An exception can be in flight when the `finally` of this `try` is reached. */
  predicate MayPend(b: Stmt, hs: Handlers) {
    CanRaise(b) && (HandlersCanRaise(hs) || !CatchesAll(hs))
  }

  /**
   Code that cannot raise and does the same with the flag on: it has no way out, a `try`
   in it has no handlers, and nothing shows after one.
   */
  predicate Calm(s: Stmt) {
    Plain(s) ||
    match s
    case Seq(a, b) => Calm(a) && Calm(b) && (Plain(a) || TripOf(b).Through?)
    case If(_, a, b) => Calm(a) && Calm(b)
    case Block(_, b) => Calm(b)
    case Try(b, hs, f) => hs.NoHandler? && Calm(b) && (f.Fin? ==> Calm(f.body))
    case _ => false
  }

  /**
   Where an exception can be in flight, a `finally` body that cannot raise must be
   calm, because it runs with the error flag on; one that can raise must be tidy,
   because the exception in flight has to be back on top of the stack after it.
   */
  predicate Sound(s: Stmt) {
    match s
    case Seq(a, b) => Sound(a) && Sound(b)
    case If(_, a, b) => Sound(a) && Sound(b)
    case While(_, _, b) => Sound(b)
    case Block(_, b) => Sound(b)
    case Try(b, hs, f) => Sound(b) && SoundHandlers(hs) && SoundFin(f, MayPend(b, hs))
    case _ => true
  }

  predicate SoundHandlers(hs: Handlers) {
    hs.Handler? ==> Sound(hs.body) && SoundHandlers(hs.rest)
  }

  predicate SoundFin(f: Fin, mayPend: bool) {
    f.Fin? ==>
      && Sound(f.body)
      && (mayPend ==> if CanRaise(f.body) then Tidy(f.body, Exact({}, false, false)) else Calm(f.body))
  }

  // ---------- calm code ----------

  lemma {:induction false} CalmIsQuiet(s: Stmt)
    requires Calm(s)
    ensures !CanRaise(s)
  {
    if Plain(s) {
      StraightIsQuiet(s);
    } else {
      match s
      case Seq(a, b) =>
        CalmIsQuiet(a);
        CalmIsQuiet(b);
      case If(_, a, b) =>
        CalmIsQuiet(a);
        CalmIsQuiet(b);
      case Block(_, b) => CalmIsQuiet(b);
      case Try(b, hs, f) =>
        CalmIsQuiet(b);
        if f.Fin? {
          CalmIsQuiet(f.body);
        }
      case _ =>
    }
  }

  /** With the flag on, calm code does what it does without, but may end with a jump. */
  ghost predicate Stays(o: Out, r: Res, m: Mem) {
    if r.o.Timeout? then o.x.Hangs? else r.o.Normal? && (o.x.Falls? || o.x.Jumps?) && o.m == m.(tr := r.tr)
  }

  lemma {:induction false} CalmFlow(w: World, s: Stmt, fuel: nat, m: Mem)
    requires Calm(s) && Neat(w) && m.err
    ensures Stays(Flow(w, s, fuel, m), Exec(w, s, fuel, m.tr), m)
    ensures Plain(s) ==> !Flow(w, s, fuel, m).x.Jumps?
    decreases s, 1
  {
    hide Neat;
    if Plain(s) {
      StraightFlow(w, s, fuel, m);
      PlainEnds(w, s, fuel, m.tr);
    } else if s.Seq? {
      CalmFlow(w, s.first, fuel, m);
      var o := Flow(w, s.first, fuel, m);
      if o.x.Falls? {
        CalmFlow(w, s.second, fuel, o.m);
      } else if o.x.Jumps? {
        CalmIsQuiet(s.second);
        TripMeans(w, s.second, fuel, o.m.tr);
      }
    } else if s.If? {
      var go := w.test(s.cond, m.tr);
      CalmFlow(w, if go then s.thn else s.els, fuel, m.(tr := m.tr + [Tested(s.cond, go)]));
    } else if s.Block? {
      CalmFlow(w, s.body, fuel, m);
    } else {
      CalmTry(w, s, fuel, m);
    }
  }

  lemma {:induction false} CalmTry(w: World, s: Stmt, fuel: nat, m: Mem)
    requires s.Try? && Calm(s) && !Plain(s) && Neat(w) && m.err
    ensures Stays(Flow(w, s, fuel, m), Exec(w, s, fuel, m.tr), m)
    decreases s, 0
  {
    hide Neat, Plain;
    CalmIsQuiet(s);
    CalmFlow(w, s.body, fuel, m);
    var o, r := Flow(w, s.body, fuel, m), Exec(w, s.body, fuel, m.tr);
    assert !o.x.Hangs? ==> FlowHandled(w, NoHandler, fuel, o) == Out(Falls, o.m);
    if s.fin.Fin? && !o.x.Hangs? {
      CalmFlow(w, s.fin.body, fuel, o.m);
    }
  }

  // ---------- sound programs ----------

  lemma {:induction false} HandleRaises(w: World, hs: Handlers, e: Exn, fuel: nat, tr: Trace)
    requires Handle(w, hs, e, fuel, tr).o.Raised?
    ensures HandlersCanRaise(hs) || !CatchesAll(hs)
    decreases hs
  {
    if hs.Handler? {
      if Catches(w, hs.kinds, e) {
        if !CanRaise(hs.body) {
          QuietNeverRaises(w, hs.body, fuel, tr);
        }
      } else {
        HandleRaises(w, hs.rest, e, fuel, tr);
      }
    }
  }

  lemma PendsOnlyIf(w: World, b: Stmt, hs: Handlers, fuel: nat, tr: Trace)
    ensures Handled(w, hs, fuel, Exec(w, b, fuel, tr)).o.Raised? ==> MayPend(b, hs)
  {
    var r := Exec(w, b, fuel, tr);
    if !CanRaise(b) {
      QuietNeverRaises(w, b, fuel, tr);
    } else if r.o.Raised? && Handle(w, hs, r.o.exn, fuel, r.tr).o.Raised? {
      HandleRaises(w, hs, r.o.exn, fuel, r.tr);
    }
  }

  /**
   In a sound program every `finally` that is reached with an exception in flight hands it
   on, if called procs leave the stack alone.
   */
  lemma {:induction false} SoundMeets(w: World, s: Stmt, fuel: nat, m: Mem)
    requires Sound(s) && Neat(w) && !m.err
    ensures Meets(w, s, fuel, m)
    decreases s, 1
  {
    hide Neat, Follows, HandsOn, FlowHandled;
    if s.Seq? {
      SoundMeets(w, s.first, fuel, m);
      LooseTidy(s.first);
      Follow(w, s.first, fuel, m, Loose);
      var o := Flow(w, s.first, fuel, m);
      NormalMeans(m, o, Exec(w, s.first, fuel, m.tr));
      if o.x.Falls? {
        SoundMeets(w, s.second, fuel, o.m);
      }
    } else if s.If? {
      var go := w.test(s.cond, m.tr);
      SoundMeets(w, if go then s.thn else s.els, fuel, m.(tr := m.tr + [Tested(s.cond, go)]));
    } else if s.While? {
      SoundLoopMeets(w, s, fuel, fuel, m);
    } else if s.Block? {
      SoundMeets(w, s.body, fuel, m);
    } else if s.Try? {
      SoundTryMeets(w, s, fuel, m);
    }
  }

  lemma {:induction false} SoundLoopMeets(w: World, s: Stmt, fuel: nat, iters: nat, m: Mem)
    requires s.While? && Sound(s) && Neat(w) && !m.err
    ensures MeetsLoop(w, s, fuel, iters, m)
    decreases s, 0, iters
  {
    hide Neat, Follows, Flow, Exec, Meets;
    if iters > 0 && w.test(s.cond, m.tr) {
      var m1 := m.(tr := m.tr + [Tested(s.cond, true)]);
      SoundMeets(w, s.body, fuel, m1);
      LooseTidy(s.body);
      Follow(w, s.body, fuel, m1, Loose);
      var o := Flow(w, s.body, fuel, m1);
      NormalMeans(m1, o, Exec(w, s.body, fuel, m1.tr));
      if o.x.Falls? {
        SoundLoopMeets(w, s, fuel, iters - 1, o.m);
      }
    }
  }

  lemma {:induction false} SoundHandlersMeet(w: World, hs: Handlers, fuel: nat, m: Mem)
    requires SoundHandlers(hs) && Neat(w)
    ensures MeetsHandlers(w, hs, fuel, m)
    decreases hs
  {
    hide Neat, Meets;
    if hs.Handler? {
      SoundHandlersMeet(w, hs.rest, fuel, m);
      SoundMeets(w, hs.body, fuel, m.(err := false));
    }
  }

  lemma {:induction false} SoundTryMeets(w: World, s: Stmt, fuel: nat, m: Mem)
    requires s.Try? && Sound(s) && Neat(w) && !m.err
    ensures Meets(w, s, fuel, m)
    decreases s, 0
  {
    hide Neat, Meets, MeetsHandlers, MeetsFin, HandsOn, Follows, Flow, Exec, FlowHandled, Handled, MayPend;
    var b, hs, f := s.body, s.handlers, s.fin;
    var o := Flow(w, b, fuel, m);
    var h := FlowHandled(w, hs, fuel, o);
    SoundMeets(w, b, fuel, m);
    SoundHandlersMeet(w, hs, fuel, o.m);
    LooseTidy(s);
    FollowBody(w, s, fuel, m, Loose);
    PendsOnlyIf(w, b, hs, fuel, m.tr);
    SoundFinMeets(w, f, fuel, m, h, Handled(w, hs, fuel, Exec(w, b, fuel, m.tr)), MayPend(b, hs));
    TryMeets(w, s, fuel, m);
  }

  lemma {:induction false} SoundFinMeets(w: World, f: Fin, fuel: nat, m: Mem, h: Out, rh: Res, mayPend: bool)
    requires SoundFin(f, mayPend) && Neat(w) && (rh.o.Raised? ==> mayPend)
    requires !h.x.Jumps? && Follows(m, AtFin(h), rh, Loose)
    ensures MeetsFin(w, f, fuel, h) && HandsOn(w, f, fuel, h)
    decreases f
  {
    hide Neat, Meets, Kept, Extends, Flow, Exec, Tidy, Calm, Sound;
    if f.Fin? && !h.x.Hangs? {
      if !Pending(h) {
        SoundMeets(w, f.body, fuel, h.m);
      } else if CanRaise(f.body) {
        var m1 := h.m.(err := false);
        SoundMeets(w, f.body, fuel, m1);
        Follow(w, f.body, fuel, m1, Exact({}, false, false));
        if Exec(w, f.body, fuel, m1.tr).o.Normal? {
          KeptStart(Flow(w, f.body, fuel, m1).m.exns, m1.exns, true);
        }
      } else {
        CalmFlow(w, f.body, fuel, h.m);
      }
    }
  }

  // ---------- the static notions, one level at a time ----------

  lemma TryIs(b: Stmt, hs: Handlers, f: Fin)
    ensures var s := Try(b, hs, f);
      && Free(s) == Free(b) + FreeHandlers(hs) + FreeFin(f)
      && Decl(s) == Decl(b) + DeclHandlers(hs) + DeclFin(f)
      && (CanRaise(s) <==> CanRaise(b) || HandlersCanRaise(hs) || FinCanRaise(f))
      && Scoped(s) == (Scoped(b) && ScopedHandlers(hs) && ScopedFin(f) && Decl(b) !! FreeFin(f)
        && DeclHandlers(hs) !! FreeFin(f))
      && (Sound(s) <==> Sound(b) && SoundHandlers(hs) && SoundFin(f, MayPend(b, hs)))
      && forall x: Wish | x.Exact? ::
           Tidy(s, x) == ((CanRaise(b) ==> Tidy(b, x.Clean(x.clean || hs.Handler?)) && HandlersFit(hs, x))
             && FinFits(f, CanRaise(b), x))
  {
  }

  lemma FinIs(f: Stmt)
    ensures FreeFin(Fin(f)) == Free(f) && DeclFin(Fin(f)) == Decl(f) && FinCanRaise(Fin(f)) == CanRaise(f)
    ensures ScopedFin(Fin(f)) == Scoped(f)
    ensures forall mayPend :: SoundFin(Fin(f), mayPend) <==>
      Sound(f) && (mayPend ==> if CanRaise(f) then Tidy(f, Exact({}, false, false)) else Calm(f))
  {
  }

  lemma NoHandlers()
    ensures FreeHandlers(NoHandler) == {} && DeclHandlers(NoHandler) == {} && !HandlersCanRaise(NoHandler)
    ensures ScopedHandlers(NoHandler) && SoundHandlers(NoHandler)
    ensures forall x :: HandlersFit(NoHandler, x)
    ensures FreeFin(NoFin) == {} && DeclFin(NoFin) == {} && !FinCanRaise(NoFin) && ScopedFin(NoFin)
    ensures forall mayPend :: SoundFin(NoFin, mayPend)
  {
  }

  lemma OneHandler(k: Kinds, b: Stmt)
    ensures var hs := Handler(k, b, NoHandler);
      && FreeHandlers(hs) == Free(b) && DeclHandlers(hs) == Decl(b) && HandlersCanRaise(hs) == CanRaise(b)
      && ScopedHandlers(hs) == Scoped(b) && SoundHandlers(hs) == Sound(b)
      && forall x :: HandlersFit(hs, x) <==> Tidy(b, x.Clean(false)) && (x.AtRaise() ==> !CanRaise(b))
  {
    var hs := Handler(k, b, NoHandler);
    assert !HandlersCanRaise(NoHandler);
    forall x: Wish
      ensures HandlersFit(hs, x) <==> Tidy(b, x.Clean(false)) && (x.AtRaise() ==> !CanRaise(b))
    {
      assert TidyHandlers(hs, x.Clean(false)) == (Tidy(b, x.Clean(false)) && TidyHandlers(NoHandler, x.Clean(false)));
      assert TidyHandlers(NoHandler, x.Clean(false));
    }
  }

  lemma CallsAre(c: nat)
    ensures var s := Call(c, true);
      Scoped(s) && Sound(s) && Free(s) == {} && Decl(s) == {} && CanRaise(s) && forall x :: Tidy(s, x)
  {
  }
}
