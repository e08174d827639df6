/**
 Exactly when goto-based exception code is right for `try` statements whose
 `finally` body is not sound: one that cannot raise, but exits or holds a `try`;
 and one that can, and in which an exception replaces another. Each result comes twice:
 for the statement in one run, wherever it stands, and for a proc made of it. With
 `TryTheorem.RightAfter` the second is also for procs that do other things first.
 */
module TryFinally {
  import opened Basics
  import opened TryLang
  import opened TryCode
  import opened TryFlow
  import opened TryQuiet
  import opened TryFollow
  import opened TrySound
  import opened TryTheorem

  // ---------- at the finally section ----------

  /** What a `try` does before its `finally`. */
  function Before(w: World, b: Stmt, hs: Handlers, fuel: nat, tr: Trace): Res {
    Exec(w, Try(b, hs, NoFin), fuel, tr)
  }

  function BeforeFlow(w: World, b: Stmt, hs: Handlers, fuel: nat, m: Mem): Out {
    FlowHandled(w, hs, fuel, Flow(w, b, fuel, m))
  }

  /** Nothing has gone wrong before the `finally`. */
  ghost predicate Clear(w: World, b: Stmt, hs: Handlers, fuel: nat, m: Mem) {
    !m.err && Meets(w, Try(b, hs, NoFin), fuel, m)
  }

  lemma SoundClear(w: World, b: Stmt, hs: Handlers, fuel: nat, m: Mem)
    requires Sound(b) && SoundHandlers(hs) && Neat(w) && !m.err
    ensures Clear(w, b, hs, fuel, m)
  {
    hide Meets;
    NoHandlers();
    TryIs(b, hs, NoFin);
    SoundMeets(w, Try(b, hs, NoFin), fuel, m);
  }

  /** With an exception in flight the `finally` starts with the flag on and the exception on top. */
  lemma Pends(w: World, b: Stmt, hs: Handlers, fuel: nat, m: Mem)
    requires Clear(w, b, hs, fuel, m)
    ensures var h, r := BeforeFlow(w, b, hs, fuel, m), Before(w, b, hs, fuel, m.tr);
      && (if r.o.Raised? then Pending(h) && h.m.exns != [] && r == Res(Raised(h.m.exns[0]), h.m.tr)
          else !Pending(h) && (!h.x.Hangs? ==> !h.m.err))
  {
    hide Flow, Exec, FlowHandled, Kept, Meets;
    NoFinMeets(w, b, hs, fuel, m);
    LooseTidy(Try(b, hs, NoFin));
    FollowBody(w, Try(b, hs, NoFin), fuel, m, Loose);
    TryFlows(w, Try(b, hs, NoFin), fuel, m);
  }

  lemma BeforeUnfolds(w: World, b: Stmt, hs: Handlers, f: Fin, fuel: nat, m: Mem)
    ensures Flow(w, Try(b, hs, f), fuel, m) == FlowFin(w, f, fuel, BeforeFlow(w, b, hs, fuel, m))
    ensures Exec(w, Try(b, hs, f), fuel, m.tr) == Finish(w, f, fuel, Before(w, b, hs, fuel, m.tr))
  {
    TryFlows(w, Try(b, hs, f), fuel, m);
    TryFlows(w, Try(b, hs, NoFin), fuel, m);
  }

  /** With nothing in flight a `finally` is right as soon as its body is. */
  lemma NothingPends(w: World, b: Stmt, hs: Handlers, f: Stmt, fuel: nat, m: Mem)
    requires Clear(w, b, hs, fuel, m) && MeetsFin(w, Fin(f), fuel, BeforeFlow(w, b, hs, fuel, m))
    requires !Before(w, b, hs, fuel, m.tr).o.Raised?
    ensures Follows(m, Flow(w, Try(b, hs, Fin(f)), fuel, m), Exec(w, Try(b, hs, Fin(f)), fuel, m.tr), Loose)
  {
    hide Follows, Flow, Exec, Before, BeforeFlow, Meets, MeetsFin, SameWay;
    Pends(w, b, hs, fuel, m);
    BeforeFlowIs(w, b, hs, fuel, m);
    FollowsIff(w, b, hs, Fin(f), fuel, m);
  }

  lemma BeforeFlowIs(w: World, b: Stmt, hs: Handlers, fuel: nat, m: Mem)
    ensures BeforeFlow(w, b, hs, fuel, m) == FlowHandled(w, hs, fuel, Flow(w, b, fuel, m))
  {
  }

  /**
   Around a `finally` body that cannot raise: the statement does what was written if and
   only if the body, run with the flag on, does what it does without.
   */
  lemma QuietFin(w: World, b: Stmt, hs: Handlers, f: Stmt, fuel: nat, m: Mem)
    requires Clear(w, b, hs, fuel, m) && !CanRaise(f)
    ensures var r, h := Before(w, b, hs, fuel, m.tr), BeforeFlow(w, b, hs, fuel, m);
      Follows(m, Flow(w, Try(b, hs, Fin(f)), fuel, m), Exec(w, Try(b, hs, Fin(f)), fuel, m.tr), Loose) <==>
      (r.o.Raised? ==> SameWay(Flow(w, f, fuel, h.m), Exec(w, f, fuel, r.tr), r.o.exn))
  {
    hide Follows, Flow, Exec, FlowHandled, Before, Meets, SameWay;
    Pends(w, b, hs, fuel, m);
    var h := BeforeFlow(w, b, hs, fuel, m);
    if !Pending(h) && !h.x.Hangs? {
      QuietMeets(w, f, fuel, h.m);
    }
    FollowsIff(w, b, hs, Fin(f), fuel, m);
  }

  // ---------- a finally body that cannot raise, left by break or return ----------

  /** `block l: try: b except ... finally: f` */
  function Guarded(l: nat, b: Stmt, hs: Handlers, f: Stmt): Stmt {
    Block(l, Try(b, hs, Fin(f)))
  }

  /** The `finally` body is to discard the exception. */
  ghost predicate Discards(w: World, b: Stmt, hs: Handlers, f: Stmt, fuel: nat, tr: Trace) {
    var r := Before(w, b, hs, fuel, tr);
    r.o.Raised? && (var o := Exec(w, f, fuel, r.tr).o; o.Broke? || o.Returned?)
  }

  /** The flag is on, and should not be. */
  ghost predicate Strays(o: Out, r: Res) {
    o.m.err && !o.x.Hangs? && PopsOf(o.x) == 0 && !r.o.Timeout? && !r.o.Raised?
  }

  /**
   The error flag stays on when a body without raising statements leaves its
   `finally` by break or return: the statement does what was written if and only if that
   does not happen with an exception in flight.
   */
  lemma QuietExitsAt(w: World, l: nat, b: Stmt, hs: Handlers, f: Stmt, fuel: nat, m: Mem)
    requires Clear(w, b, hs, fuel, m) && Straight(f) && Neat(w)
    ensures Follows(m, Flow(w, Guarded(l, b, hs, f), fuel, m), Exec(w, Guarded(l, b, hs, f), fuel, m.tr), Loose) <==>
      !Discards(w, b, hs, f, fuel, m.tr)
  {
    hide Flow, Exec, Clear, Discards, Neat, Kept, Guarded;
    QuietExit(w, l, b, hs, f, fuel, m);
  }

  lemma QuietExit(w: World, l: nat, b: Stmt, hs: Handlers, f: Stmt, fuel: nat, m: Mem)
    requires Clear(w, b, hs, fuel, m) && Straight(f) && Neat(w)
    ensures var o, r := Flow(w, Guarded(l, b, hs, f), fuel, m), Exec(w, Guarded(l, b, hs, f), fuel, m.tr);
      if Discards(w, b, hs, f, fuel, m.tr) then Strays(o, r) else Follows(m, o, r, Loose)
  {
    hide Flow, Exec, Clear, Neat, Kept, BeforeFlow, Before, Extends;
    var t := Try(b, hs, Fin(f));
    var o, r := Flow(w, t, fuel, m), Exec(w, t, fuel, m.tr);
    BlockFlows(w, l, t, fuel, m);
    StraightIsQuiet(f);
    Pends(w, b, hs, fuel, m);
    var h, rb := BeforeFlow(w, b, hs, fuel, m), Before(w, b, hs, fuel, m.tr);
    StraightFlow(w, f, fuel, h.m);
    if Discards(w, b, hs, f, fuel, m.tr) {
      BeforeUnfolds(w, b, hs, Fin(f), fuel, m);
    } else {
      QuietFin(w, b, hs, f, fuel, m);
      CaughtFollows(l, m, o, r, Loose);
    }
  }

  lemma BlockFlows(w: World, l: nat, t: Stmt, fuel: nat, m: Mem)
    ensures Flow(w, Block(l, t), fuel, m) == Caught(l, Flow(w, t, fuel, m))
    ensures var r := Exec(w, t, fuel, m.tr);
      Exec(w, Block(l, t), fuel, m.tr) == if r.o == Broke(l) then Res(Normal, r.tr) else r
  {
  }

  lemma StrayDiffers(w: World, s: Stmt, fuel: nat, m: Mem)
    requires Strays(Flow(w, s, fuel, m), Exec(w, s, fuel, m.tr))
    ensures Differs(w, s, fuel, m)
  {
    hide Flow, Exec;
  }

  /** The code of the proc is right if and only if no exception is ever to be discarded. */
  lemma QuietExits(w: World, l: nat, b: Stmt, hs: Handlers, f: Stmt, m: Mem)
    requires Scoped(Guarded(l, b, hs, f)) && Free(Guarded(l, b, hs, f)) == {}
    requires Sound(b) && SoundHandlers(hs) && Straight(f) && Neat(w) && !m.err
    ensures Right(w, Guarded(l, b, hs, f), m) <==> forall fuel: nat :: !Discards(w, b, hs, f, fuel, m.tr)
  {
    hide Right, RightFor, Discards, Differs, Neat, Strays, Follows, Flow, Exec, Guarded, Clear;
    var s := Guarded(l, b, hs, f);
    forall fuel: nat
      ensures if Discards(w, b, hs, f, fuel, m.tr) then Differs(w, s, fuel, m) else RightFor(w, s, fuel, m)
    {
      SoundClear(w, b, hs, fuel, m);
      QuietExit(w, l, b, hs, f, fuel, m);
      if Discards(w, b, hs, f, fuel, m.tr) {
        StrayDiffers(w, s, fuel, m);
      } else {
        FollowsRight(w, s, fuel, m);
      }
    }
    if fuel: nat :| Discards(w, b, hs, f, fuel, m.tr) {
      WrongAt(w, s, fuel, m);
    } else {
      RightIf(w, s, m);
    }
  }

  /** A body that always ends by break or return, and has no loop in which it could stay. */
  predicate Exits(s: Stmt) {
    match s
    case Seq(a, b) => Exits(a) || (LoopFree(a) && Exits(b))
    case If(_, a, b) => Exits(a) && Exits(b)
    case Break(_) => true
    case Return => true
    case _ => false
  }

  predicate LoopFree(s: Stmt) {
    match s
    case Seq(a, b) => LoopFree(a) && LoopFree(b)
    case If(_, a, b) => LoopFree(a) && LoopFree(b)
    case Block(_, b) => LoopFree(b)
    case While(_, _, _) => false
    case _ => true
  }

  lemma {:induction false} LoopFreeEnds(w: World, s: Stmt, fuel: nat, tr: Trace)
    requires Straight(s) && LoopFree(s)
    ensures !Exec(w, s, fuel, tr).o.Timeout?
  {
    match s
    case Seq(a, b) =>
      LoopFreeEnds(w, a, fuel, tr);
      LoopFreeEnds(w, b, fuel, Exec(w, a, fuel, tr).tr);
    case If(c, a, b) =>
      LoopFreeEnds(w, if w.test(c, tr) then a else b, fuel, tr + [Tested(c, w.test(c, tr))]);
    case Block(_, b) => LoopFreeEnds(w, b, fuel, tr);
    case _ =>
  }

  lemma {:induction false} ExitsMeans(w: World, s: Stmt, fuel: nat, tr: Trace)
    requires Straight(s) && Exits(s)
    ensures var o := Exec(w, s, fuel, tr).o; o.Broke? || o.Returned?
  {
    StraightIsQuiet(s);
    match s
    case Seq(a, b) =>
      if Exits(a) {
        ExitsMeans(w, a, fuel, tr);
      } else {
        LoopFreeEnds(w, a, fuel, tr);
        StraightIsQuiet(a);
        QuietNeverRaises(w, a, fuel, tr);
        ExitsMeans(w, b, fuel, Exec(w, a, fuel, tr).tr);
      }
    case If(c, a, b) =>
      ExitsMeans(w, if w.test(c, tr) then a else b, fuel, tr + [Tested(c, w.test(c, tr))]);
    case _ =>
  }

  /** `finally: ...; return` (or break) does what was written if and only if no exception is in flight. */
  lemma AlwaysExitsAt(w: World, l: nat, b: Stmt, hs: Handlers, f: Stmt, fuel: nat, m: Mem)
    requires Clear(w, b, hs, fuel, m) && Straight(f) && Exits(f) && Neat(w)
    ensures Follows(m, Flow(w, Guarded(l, b, hs, f), fuel, m), Exec(w, Guarded(l, b, hs, f), fuel, m.tr), Loose) <==>
      !Before(w, b, hs, fuel, m.tr).o.Raised?
  {
    hide Flow, Exec, Clear, Neat, Follows, Guarded, Before;
    QuietExitsAt(w, l, b, hs, f, fuel, m);
    ExitsMeans(w, f, fuel, Before(w, b, hs, fuel, m.tr).tr);
  }

  /** The code of the proc is right if and only if no exception can leave `b` and its handlers. */
  lemma AlwaysExits(w: World, l: nat, b: Stmt, hs: Handlers, f: Stmt, m: Mem)
    requires Scoped(Guarded(l, b, hs, f)) && Free(Guarded(l, b, hs, f)) == {}
    requires Sound(b) && SoundHandlers(hs) && Straight(f) && Exits(f) && Neat(w) && !m.err
    ensures Right(w, Guarded(l, b, hs, f), m) <==> forall fuel: nat :: !Before(w, b, hs, fuel, m.tr).o.Raised?
  {
    hide Right, Before, Exec, Neat, Guarded, Sound;
    QuietExits(w, l, b, hs, f, m);
    forall fuel: nat ensures Discards(w, b, hs, f, fuel, m.tr) <==> Before(w, b, hs, fuel, m.tr).o.Raised? {
      ExitsMeans(w, f, fuel, Before(w, b, hs, fuel, m.tr).tr);
    }
  }

  /** `try: raise e finally: return`, and the same with a break out of the `finally` body. */
  lemma FlagStaysOn(w: World, e: Exn, m: Mem)
    requires Neat(w) && !m.err
    ensures !Right(w, Guarded(0, Raise(e), NoHandler, Return), m)
    ensures !Right(w, Guarded(0, Raise(e), NoHandler, Break(0)), m)
  {
    hide Right, Neat;
    GuardFits(e, Return);
    GuardFits(e, Break(0));
    AlwaysExits(w, 0, Raise(e), NoHandler, Return, m);
    AlwaysExits(w, 0, Raise(e), NoHandler, Break(0), m);
    assert Before(w, Raise(e), NoHandler, 0, m.tr).o.Raised? by {
      RaisePends(w, e, 0, m.tr);
    }
  }

  lemma GuardFits(e: Exn, f: Stmt)
    requires f == Return || f == Break(0)
    ensures var s := Guarded(0, Raise(e), NoHandler, f);
      Scoped(s) && Free(s) == {} && Straight(f) && Exits(f) && Sound(Raise(e)) && SoundHandlers(NoHandler)
  {
    NoHandlers();
    FinIs(f);
    TryIs(Raise(e), NoHandler, Fin(f));
    assert Free(f) <= {0} && Free(Raise(e)) == {};
  }

  lemma RaisePends(w: World, e: Exn, fuel: nat, tr: Trace)
    ensures Before(w, Raise(e), NoHandler, fuel, tr) == Res(Raised(e), tr)
  {
    TryFlows(w, Try(Raise(e), NoHandler, NoFin), fuel, Mem(false, [], tr));
  }

  /** A call in front makes no difference. */
  lemma FlagStaysOnLater(w: World, e: Exn, c: nat, m: Mem)
    requires Neat(w) && !m.err
    ensures !Right(w, Seq(Call(c, false), Guarded(0, Raise(e), NoHandler, Return)), m)
  {
    hide Right;
    var a := Call(c, false);
    GuardFits(e, Return);
    QuietKeeps(w, a, 0, m);
    RightAfter(w, a, Guarded(0, Raise(e), NoHandler, Return), 0, m);
    FlagStaysOn(w, e, Flow(w, a, 0, m).m);
  }

  /**
   A statement that does not do what was written can go unnoticed: here a general handler
   around it clears the flag again. So for whole procs the condition of `MeetsRight` is
   sufficient but not necessary; `RightIff` is exact.
   */
  lemma RightByAccident(w: World, e: Exn, m: Mem)
    requires !m.err
    ensures var s := Try(Guarded(0, Raise(e), NoHandler, Break(0)), Handler(All, Skip, NoHandler), NoFin);
      Right(w, s, m) && forall fuel: nat :: !Meets(w, s, fuel, m)
  {
    hide Right, Meets;
    var b := Guarded(0, Raise(e), NoHandler, Break(0));
    var s := Try(b, Handler(All, Skip, NoHandler), NoFin);
    GuardFits(e, Break(0));
    NoHandlers();
    OneHandler(All, Skip);
    TryIs(b, Handler(All, Skip, NoHandler), NoFin);
    forall fuel: nat ensures RightFor(w, s, fuel, m) && !Meets(w, s, fuel, m) {
      FlagTaken(w, e, fuel, m);
      NoFinMeets(w, b, Handler(All, Skip, NoHandler), fuel, m);
      if Meets(w, b, fuel, m) {
        LooseTidy(b);
        Follow(w, b, fuel, m, Loose);
      }
    }
    RightIf(w, s, m);
  }

  lemma FlagTaken(w: World, e: Exn, fuel: nat, m: Mem)
    requires !m.err
    ensures var b := Guarded(0, Raise(e), NoHandler, Break(0));
      var s := Try(b, Handler(All, Skip, NoHandler), NoFin);
      && Flow(w, b, fuel, m) == Out(Falls, Mem(true, [e] + m.exns, m.tr)) && Exec(w, b, fuel, m.tr) == Res(Normal, m.tr)
      && Flow(w, s, fuel, m) == Out(Falls, m) && Exec(w, s, fuel, m.tr) == Res(Normal, m.tr)
  {
    var m1 := Mem(true, [e] + m.exns, m.tr);
    var t := Try(Raise(e), NoHandler, Fin(Break(0)));
    assert m1.exns[0..] == m1.exns && m1.exns[1..] == m.exns;
    assert FlowHandled(w, NoHandler, fuel, Out(Jumps, m1)) == Out(Falls, m1);
    assert Flow(w, t, fuel, m) == Out(Breaks(0, 0), m1);
    assert Exec(w, t, fuel, m.tr) == Res(Broke(0), m.tr);
    assert FlowHandled(w, Handler(All, Skip, NoHandler), fuel, Out(Falls, m1)) == Out(Falls, m);
  }

  // ---------- a finally body that cannot raise and holds a try ----------

  /** `pre`, then `try: a except ... finally: ...`, then `rest`. */
  function TryWithin(pre: Stmt, a: Stmt, ih: Handlers, g: Fin, rest: Stmt): Stmt {
    Seq(pre, Seq(Try(a, ih, g), rest))
  }

  /** Code that cannot raise and is not left by break or return; it may hold any `try`. */
  predicate Closed(s: Stmt) {
    !CanRaise(s) && !HasReturn(s) && Free(s) == {}
  }

  predicate CalmFin(f: Fin) {
    f.Fin? ==> Calm(f.body)
  }

  /** The parts of the `finally` body: the handlers of the inner `try` are any that cannot raise. */
  predicate QuietParts(pre: Stmt, a: Stmt, ih: Handlers, g: Fin, rest: Stmt) {
    Plain(pre) && Calm(a) && !HandlersCanRaise(ih) && CalmFin(g) && Closed(rest)
  }

  predicate SomeCatches(w: World, hs: Handlers, e: Exn) {
    hs.Handler? && (Catches(w, hs.kinds, e) || SomeCatches(w, hs.rest, e))
  }

  lemma ClosedEnds(w: World, s: Stmt, fuel: nat, tr: Trace)
    requires Closed(s)
    ensures var o := Exec(w, s, fuel, tr).o; o.Normal? || o.Timeout?
  {
    QuietNeverRaises(w, s, fuel, tr);
    BrokeIsFree(w, s, fuel, tr);
    NeverReturns(w, s, fuel, tr);
  }

  lemma CalmEnds(w: World, s: Stmt, fuel: nat, tr: Trace)
    requires Calm(s) && Neat(w)
    ensures var o := Exec(w, s, fuel, tr).o; o.Normal? || o.Timeout?
  {
    hide Neat, Exec, Flow;
    CalmFlow(w, s, fuel, Mem(true, [], tr));
  }

  /** Exception `e`, in flight, fits a handler of the inner `try`. */
  predicate Fits(w: World, pre: Stmt, ih: Handlers, e: Exn, fuel: nat, tr: Trace) {
    Exec(w, pre, fuel, tr).o.Normal? && SomeCatches(w, ih, e)
  }

  /** It does not, the inner `try` ends, and what follows it would show. */
  predicate Skips(w: World, pre: Stmt, a: Stmt, ih: Handlers, g: Fin, rest: Stmt, e: Exn, fuel: nat, tr: Trace) {
    var r := Exec(w, pre, fuel, tr);
    r.o.Normal? && !SomeCatches(w, ih, e) && Shows(rest) && !Exec(w, Try(a, ih, g), fuel, r.tr).o.Timeout?
  }

  /**
   The `finally` body, run with the flag on: a handler takes the exception and the flag goes
   off; or the body is left too early; or it does what it is to do.
   */
  ghost predicate WithinEnds(o: Out, r: Res, m: Mem, fits: bool, skips: bool)
    requires m.exns != []
  {
    && (r.o.Normal? || r.o.Timeout?)
    && if fits then o.x.Hangs? || !o.m.err
       else if skips then o.x.Jumps? && o.m.exns == m.exns && (r.o.Timeout? || o.m.tr != r.tr)
       else SameWay(o, r, m.exns[0])
  }

  lemma WithinSame(o: Out, r: Res, m: Mem, fits: bool, skips: bool)
    requires m.exns != [] && WithinEnds(o, r, m, fits, skips)
    ensures SameWay(o, r, m.exns[0]) <==> if fits then r.o.Timeout? && o.x.Hangs? else !skips
  {
  }

  lemma FlaggedWithin(w: World, pre: Stmt, a: Stmt, ih: Handlers, g: Fin, rest: Stmt, fuel: nat, m: Mem)
    requires QuietParts(pre, a, ih, g, rest) && Neat(w) && m.err && m.exns != []
    ensures var f, e := TryWithin(pre, a, ih, g, rest), m.exns[0];
      WithinEnds(Flow(w, f, fuel, m), Exec(w, f, fuel, m.tr), m, Fits(w, pre, ih, e, fuel, m.tr),
                 Skips(w, pre, a, ih, g, rest, e, fuel, m.tr))
  {
    hide Flow, Exec, SomeCatches, Shows, Neat, Calm, Plain, Closed;
    var inner := Try(a, ih, g);
    PlainFlow(w, pre, fuel, m);
    var rp := Exec(w, pre, fuel, m.tr);
    SeqFlows(w, pre, Seq(inner, rest), fuel, m);
    if rp.o.Normal? {
      var m1 := m.(tr := rp.tr);
      SeqFlows(w, inner, rest, fuel, m1);
      InnerFlow(w, a, ih, g, fuel, m1);
      InnerEnds(w, a, ih, g, fuel, m1.tr);
      var oi, ri := Flow(w, inner, fuel, m1), Exec(w, inner, fuel, m1.tr);
      ClosedEnds(w, rest, fuel, ri.tr);
      if oi.x.Falls? && !oi.m.err {
        RestQuiet(w, rest, fuel, oi.m);
      }
      RestShows(w, rest, fuel, ri.tr);
    }
  }

  lemma SeqFlows(w: World, a: Stmt, b: Stmt, fuel: nat, m: Mem)
    ensures var o := Flow(w, a, fuel, m);
      Flow(w, Seq(a, b), fuel, m) == if o.x.Falls? then Flow(w, b, fuel, o.m) else o
    ensures var r := Exec(w, a, fuel, m.tr);
      Exec(w, Seq(a, b), fuel, m.tr) == if r.o.Normal? then Exec(w, b, fuel, r.tr) else r
  {
  }

  lemma PlainFlow(w: World, s: Stmt, fuel: nat, m: Mem)
    requires Plain(s) && Neat(w)
    ensures var o, r := Flow(w, s, fuel, m), Exec(w, s, fuel, m.tr);
      if r.o.Normal? then o == Out(Falls, m.(tr := r.tr)) else r.o.Timeout? && o.x.Hangs?
  {
    hide Neat, Flow, Exec;
    StraightFlow(w, s, fuel, m);
    PlainEnds(w, s, fuel, m.tr);
  }

  lemma RestQuiet(w: World, rest: Stmt, fuel: nat, m: Mem)
    requires Closed(rest) && !m.err
    ensures !Flow(w, rest, fuel, m).m.err
  {
    hide Neat, Flow, Extends;
    QuietKeeps(w, rest, fuel, m);
  }

  lemma RestShows(w: World, s: Stmt, fuel: nat, tr: Trace)
    requires Closed(s)
    ensures var r := Exec(w, s, fuel, tr); if Shows(s) then r.o.Timeout? || r.tr != tr else r == Res(Normal, tr)
  {
    hide Exec, CanRaise, HasReturn, Free;
    ClosedEnds(w, s, fuel, tr);
    TripMeans(w, s, fuel, tr);
  }

  lemma InnerEnds(w: World, a: Stmt, ih: Handlers, g: Fin, fuel: nat, tr: Trace)
    requires Calm(a) && CalmFin(g) && Neat(w)
    ensures var r := Exec(w, Try(a, ih, g), fuel, tr); r.o.Normal? || r.o.Timeout?
  {
    hide Neat, Calm;
    CalmEnds(w, a, fuel, tr);
    if g.Fin? {
      CalmEnds(w, g.body, fuel, Exec(w, a, fuel, tr).tr);
    }
  }

  /** The inner `try`, entered with the flag on. */
  lemma InnerFlow(w: World, a: Stmt, ih: Handlers, g: Fin, fuel: nat, m: Mem)
    requires Calm(a) && !HandlersCanRaise(ih) && CalmFin(g) && Neat(w) && m.err && m.exns != []
    ensures var o, r := Flow(w, Try(a, ih, g), fuel, m), Exec(w, Try(a, ih, g), fuel, m.tr);
      if SomeCatches(w, ih, m.exns[0]) then o.x.Hangs? || !o.m.err
      else if r.o.Timeout? then o.x.Hangs?
      else o == Out(Jumps, m.(tr := r.tr))
  {
    hide Flow, Exec, FlowHandlers, SomeCatches, Neat, Calm, Extends, Handle;
    TryFlows(w, Try(a, ih, g), fuel, m);
    CalmFlow(w, a, fuel, m);
    var ra := Exec(w, a, fuel, m.tr);
    if !ra.o.Timeout? {
      var m1 := m.(tr := ra.tr);
      HandlersFlagged(w, ih, fuel, m1);
      var o1 := FlowHandlers(w, ih, fuel, m1);
      if g.Fin? {
        CalmIsQuiet(g.body);
        if o1.m.err {
          CalmFlow(w, g.body, fuel, o1.m);
        } else {
          QuietKeeps(w, g.body, fuel, o1.m);
        }
      }
    }
  }

  /** The handlers of the inner `try`: one runs, and with it the flag goes off, if and only if one fits. */
  lemma {:induction false} HandlersFlagged(w: World, hs: Handlers, fuel: nat, m: Mem)
    requires !HandlersCanRaise(hs) && m.err && m.exns != []
    ensures var o := FlowHandlers(w, hs, fuel, m);
      !o.x.Jumps? && if SomeCatches(w, hs, m.exns[0]) then o.x.Hangs? || !o.m.err else o == Out(Falls, m)
    decreases hs
  {
    hide Flow, Catches, Neat, Extends;
    if hs.Handler? {
      AllOrCaught(w, hs.kinds, m.exns[0]);
      if Catches(w, hs.kinds, m.exns[0]) {
        QuietKeeps(w, hs.body, fuel, m.(err := false));
      } else {
        HandlersFlagged(w, hs.rest, fuel, m);
      }
    }
  }

  /** A handler of the inner `try` takes the exception in flight. */
  ghost predicate Swallowed(w: World, b: Stmt, hs: Handlers, pre: Stmt, ih: Handlers, fuel: nat, tr: Trace) {
    var r := Before(w, b, hs, fuel, tr);
    r.o.Raised? && Fits(w, pre, ih, r.o.exn, fuel, r.tr)
  }

  /** What follows the inner `try` is left out. */
  ghost predicate Skipped(w: World, b: Stmt, hs: Handlers, pre: Stmt, a: Stmt, ih: Handlers, g: Fin, rest: Stmt,
                          fuel: nat, tr: Trace) {
    var r := Before(w, b, hs, fuel, tr);
    r.o.Raised? && Skips(w, pre, a, ih, g, rest, r.o.exn, fuel, r.tr)
  }

  /** What goes wrong in one run: an exception that is swallowed matters unless neither run nor code ends. */
  ghost predicate MisledAt(w: World, b: Stmt, hs: Handlers, pre: Stmt, a: Stmt, ih: Handlers, g: Fin, rest: Stmt,
                           fuel: nat, m: Mem) {
    var s := Try(b, hs, Fin(TryWithin(pre, a, ih, g, rest)));
    if Swallowed(w, b, hs, pre, ih, fuel, m.tr) then
      !(Exec(w, s, fuel, m.tr).o.Timeout? && Flow(w, s, fuel, m).x.Hangs?)
    else Skipped(w, b, hs, pre, a, ih, g, rest, fuel, m.tr)
  }

  /**
   `try: b ... finally: pre; (try: a except ih finally: g); rest` with nothing that raises in
   the outer `finally` body. The inner `try` finds the flag on: a handler that
   fits the exception in flight runs and swallows it; otherwise the code leaves the body
   early and skips `rest`. The statement does what was written if and only if neither happens.
   */
  lemma QuietTryAt(w: World, b: Stmt, hs: Handlers, pre: Stmt, a: Stmt, ih: Handlers, g: Fin, rest: Stmt,
                   fuel: nat, m: Mem)
    requires Clear(w, b, hs, fuel, m) && QuietParts(pre, a, ih, g, rest) && Neat(w)
    ensures var s := Try(b, hs, Fin(TryWithin(pre, a, ih, g, rest)));
      Follows(m, Flow(w, s, fuel, m), Exec(w, s, fuel, m.tr), Loose) <==>
      !MisledAt(w, b, hs, pre, a, ih, g, rest, fuel, m)
  {
    hide Flow, Exec, Neat, Clear, QuietParts, Before, BeforeFlow, Follows, TryWithin, SameWay, MisledAt;
    var f := TryWithin(pre, a, ih, g, rest);
    PartsQuiet(pre, a, ih, g, rest);
    QuietFin(w, b, hs, f, fuel, m);
    Pends(w, b, hs, fuel, m);
    if Before(w, b, hs, fuel, m.tr).o.Raised? {
      MisledIff(w, b, hs, pre, a, ih, g, rest, fuel, m);
    } else if MisledAt(w, b, hs, pre, a, ih, g, rest, fuel, m) {
      MisledPends(w, b, hs, pre, a, ih, g, rest, fuel, m);
    }
  }

  lemma MisledPends(w: World, b: Stmt, hs: Handlers, pre: Stmt, a: Stmt, ih: Handlers, g: Fin, rest: Stmt,
                    fuel: nat, m: Mem)
    requires MisledAt(w, b, hs, pre, a, ih, g, rest, fuel, m)
    ensures Before(w, b, hs, fuel, m.tr).o.Raised?
  {
    hide Before, Exec, Flow, Fits, Skips, TryWithin;
  }

  lemma MisledIff(w: World, b: Stmt, hs: Handlers, pre: Stmt, a: Stmt, ih: Handlers, g: Fin, rest: Stmt,
                  fuel: nat, m: Mem)
    requires QuietParts(pre, a, ih, g, rest) && Neat(w)
    requires var h, r := BeforeFlow(w, b, hs, fuel, m), Before(w, b, hs, fuel, m.tr);
      Pending(h) && h.m.exns != [] && r == Res(Raised(h.m.exns[0]), h.m.tr)
    ensures var f, h := TryWithin(pre, a, ih, g, rest), BeforeFlow(w, b, hs, fuel, m);
      MisledAt(w, b, hs, pre, a, ih, g, rest, fuel, m) <==>
      !SameWay(Flow(w, f, fuel, h.m), Exec(w, f, fuel, h.m.tr), h.m.exns[0])
  {
    hide Flow, Exec, Neat, QuietParts, Before, BeforeFlow, TryWithin, SameWay, FlowFin, Finish, Fits, Skips;
    var f := TryWithin(pre, a, ih, g, rest);
    PartsQuiet(pre, a, ih, g, rest);
    var h, r := BeforeFlow(w, b, hs, fuel, m), Before(w, b, hs, fuel, m.tr);
    BeforeUnfolds(w, b, hs, Fin(f), fuel, m);
    QuietFinEnds(w, f, fuel, h, r);
    WithinAt(w, pre, a, ih, g, rest, fuel, h.m);
  }

  lemma WithinAt(w: World, pre: Stmt, a: Stmt, ih: Handlers, g: Fin, rest: Stmt, fuel: nat, m: Mem)
    requires QuietParts(pre, a, ih, g, rest) && Neat(w) && m.err && m.exns != []
    ensures var f, e := TryWithin(pre, a, ih, g, rest), m.exns[0];
      var o, r := Flow(w, f, fuel, m), Exec(w, f, fuel, m.tr);
      && (r.o.Normal? || r.o.Timeout?)
      && (SameWay(o, r, e) <==>
          if Fits(w, pre, ih, e, fuel, m.tr) then r.o.Timeout? && o.x.Hangs?
          else !Skips(w, pre, a, ih, g, rest, e, fuel, m.tr))
  {
    hide Flow, Exec, SomeCatches, Shows, Neat, QuietParts, TryWithin, SameWay;
    var f, e := TryWithin(pre, a, ih, g, rest), m.exns[0];
    FlaggedWithin(w, pre, a, ih, g, rest, fuel, m);
    WithinSame(Flow(w, f, fuel, m), Exec(w, f, fuel, m.tr), m, Fits(w, pre, ih, e, fuel, m.tr),
      Skips(w, pre, a, ih, g, rest, e, fuel, m.tr));
  }

  /** The section around a quiet body, with an exception in flight. */
  lemma QuietFinEnds(w: World, f: Stmt, fuel: nat, h: Out, r: Res)
    requires !CanRaise(f) && Pending(h) && r.o.Raised? && r.tr == h.m.tr
    ensures var o, g := FlowFin(w, Fin(f), fuel, h), Flow(w, f, fuel, h.m);
      o.m == g.m && (o.x.Hangs? <==> g.x.Hangs?) && (g.x.Jumps? ==> o.x.Jumps?)
    ensures var rr, rf := Finish(w, Fin(f), fuel, r), Exec(w, f, fuel, r.tr);
      rr == if rf.o.Normal? then Res(r.o, rf.tr) else rf
  {
    hide Flow, Exec;
  }

  lemma PartsQuiet(pre: Stmt, a: Stmt, ih: Handlers, g: Fin, rest: Stmt)
    requires QuietParts(pre, a, ih, g, rest)
    ensures !CanRaise(TryWithin(pre, a, ih, g, rest))
  {
    hide Calm, Straight, HasReturn, Free;
    StraightIsQuiet(pre);
    CalmIsQuiet(a);
    if g.Fin? {
      CalmIsQuiet(g.body);
    }
    assert !CanRaise(Try(a, ih, g));
    assert !CanRaise(Seq(Try(a, ih, g), rest));
  }

  // the proc that is made of it

  /** An exception that is swallowed does not matter only if neither the run nor the code ever ends. */
  ghost predicate Misled(w: World, b: Stmt, hs: Handlers, pre: Stmt, a: Stmt, ih: Handlers, g: Fin, rest: Stmt,
                         fuel: nat, m: Mem) {
    var s := Try(b, hs, Fin(TryWithin(pre, a, ih, g, rest)));
    if Swallowed(w, b, hs, pre, ih, fuel, m.tr) then Terminates(w, s, m.tr) || Halts(w, s, m)
    else Skipped(w, b, hs, pre, a, ih, g, rest, fuel, m.tr)
  }

  lemma QuietTry(w: World, b: Stmt, hs: Handlers, pre: Stmt, a: Stmt, ih: Handlers, g: Fin, rest: Stmt, m: Mem)
    requires var s := Try(b, hs, Fin(TryWithin(pre, a, ih, g, rest))); Scoped(s) && Free(s) == {}
    requires Sound(b) && SoundHandlers(hs) && QuietParts(pre, a, ih, g, rest) && Neat(w) && !m.err
    ensures Right(w, Try(b, hs, Fin(TryWithin(pre, a, ih, g, rest))), m) <==>
      forall fuel: nat :: !Misled(w, b, hs, pre, a, ih, g, rest, fuel, m)
  {
    hide Right, Misled, Scoped, Free, Sound, QuietParts, Neat, TryWithin;
    if fuel: nat :| Misled(w, b, hs, pre, a, ih, g, rest, fuel, m) {
      MisledIsWrong(w, b, hs, pre, a, ih, g, rest, fuel, m);
    } else {
      NeverMisled(w, b, hs, pre, a, ih, g, rest, m);
    }
  }

  lemma NeverMisled(w: World, b: Stmt, hs: Handlers, pre: Stmt, a: Stmt, ih: Handlers, g: Fin, rest: Stmt, m: Mem)
    requires var s := Try(b, hs, Fin(TryWithin(pre, a, ih, g, rest))); Scoped(s) && Free(s) == {}
    requires Sound(b) && SoundHandlers(hs) && QuietParts(pre, a, ih, g, rest) && Neat(w) && !m.err
    requires forall fuel: nat :: !Misled(w, b, hs, pre, a, ih, g, rest, fuel, m)
    ensures Right(w, Try(b, hs, Fin(TryWithin(pre, a, ih, g, rest))), m)
  {
    hide Right, RightFor, Halts, Terminates, Swallowed, Skipped, Scoped, Free, Sound, QuietParts, Neat, TryWithin;
    var s := Try(b, hs, Fin(TryWithin(pre, a, ih, g, rest)));
    if !Terminates(w, s, m.tr) && !Halts(w, s, m) {
      NeitherEnds(w, s, m);
    } else {
      forall fuel: nat ensures RightFor(w, s, fuel, m) {
        assert !Misled(w, b, hs, pre, a, ih, g, rest, fuel, m);
        NotMisled(w, b, hs, pre, a, ih, g, rest, fuel, m);
      }
      RightIf(w, s, m);
    }
  }

  lemma NeitherEnds(w: World, s: Stmt, m: Mem)
    requires !Terminates(w, s, m.tr) && !Halts(w, s, m)
    ensures Right(w, s, m)
  {
    hide Exec, RunOf, Compile;
  }

  lemma NotMisled(w: World, b: Stmt, hs: Handlers, pre: Stmt, a: Stmt, ih: Handlers, g: Fin, rest: Stmt,
                  fuel: nat, m: Mem)
    requires Free(Try(b, hs, Fin(TryWithin(pre, a, ih, g, rest)))) == {}
    requires Sound(b) && SoundHandlers(hs) && QuietParts(pre, a, ih, g, rest) && Neat(w) && !m.err
    requires !Skipped(w, b, hs, pre, a, ih, g, rest, fuel, m.tr) && !Swallowed(w, b, hs, pre, ih, fuel, m.tr)
    ensures RightFor(w, Try(b, hs, Fin(TryWithin(pre, a, ih, g, rest))), fuel, m)
  {
    hide Flow, Exec, Follows, Skipped, Swallowed, Neat, QuietParts, TryWithin, RightFor, Free, Clear, Sound;
    SoundClear(w, b, hs, fuel, m);
    QuietTryAt(w, b, hs, pre, a, ih, g, rest, fuel, m);
    FollowsRight(w, Try(b, hs, Fin(TryWithin(pre, a, ih, g, rest))), fuel, m);
  }

  /** Where it goes wrong, both runs end differently, or one of them never does. */
  lemma MisledEnds(w: World, b: Stmt, hs: Handlers, pre: Stmt, a: Stmt, ih: Handlers, g: Fin, rest: Stmt,
                   fuel: nat, m: Mem)
    requires Sound(b) && SoundHandlers(hs) && QuietParts(pre, a, ih, g, rest) && Neat(w) && !m.err
    requires Skipped(w, b, hs, pre, a, ih, g, rest, fuel, m.tr) || Swallowed(w, b, hs, pre, ih, fuel, m.tr)
    ensures var s := Try(b, hs, Fin(TryWithin(pre, a, ih, g, rest)));
      var o, r := Ends(w, s, fuel, m), Exec(w, s, fuel, m.tr);
      && (o.Some? && !r.o.Timeout? ==> Differs(w, s, fuel, m))
      && (!Swallowed(w, b, hs, pre, ih, fuel, m.tr) ==> o.Some?)
  {
    hide Flow, Exec, Before, BeforeFlow, Fits, Skips, Neat, QuietParts, TryWithin, Clear, Sound;
    SoundClear(w, b, hs, fuel, m);
    Pends(w, b, hs, fuel, m);
    var f, h, r := TryWithin(pre, a, ih, g, rest), BeforeFlow(w, b, hs, fuel, m), Before(w, b, hs, fuel, m.tr);
    FlaggedWithin(w, pre, a, ih, g, rest, fuel, h.m);
    BeforeUnfolds(w, b, hs, Fin(f), fuel, m);
    PartsQuiet(pre, a, ih, g, rest);
    WrongWithin(w, f, fuel, h, r, Fits(w, pre, ih, r.o.exn, fuel, r.tr));
  }

  lemma WrongWithin(w: World, f: Stmt, fuel: nat, h: Out, r: Res, fits: bool)
    requires !CanRaise(f) && Pending(h) && r.o.Raised? && r.tr == h.m.tr && h.m.exns != []
    requires WithinEnds(Flow(w, f, fuel, h.m), Exec(w, f, fuel, r.tr), h.m, fits, true)
    ensures var o, rr := Final(FlowFin(w, Fin(f), fuel, h)), Finish(w, Fin(f), fuel, r);
      (o.Some? && !rr.o.Timeout? ==> !SameEnd(o.value, rr)) && (!fits ==> o.Some?)
  {
    hide Flow, Exec, FlowFin, Finish;
    QuietFinEnds(w, f, fuel, h, r);
  }

  lemma SwallowedMore(w: World, b: Stmt, hs: Handlers, pre: Stmt, ih: Handlers, fuel: nat, more: nat, tr: Trace)
    requires fuel <= more && Swallowed(w, b, hs, pre, ih, fuel, tr)
    ensures Swallowed(w, b, hs, pre, ih, more, tr)
  {
    hide Exec, SomeCatches;
    var r := Before(w, b, hs, fuel, tr);
    ExecMore(w, Try(b, hs, NoFin), fuel, more, tr);
    ExecMore(w, pre, fuel, more, r.tr);
  }

  lemma SkippedMore(w: World, b: Stmt, hs: Handlers, pre: Stmt, a: Stmt, ih: Handlers, g: Fin, rest: Stmt,
                    fuel: nat, more: nat, tr: Trace)
    requires fuel <= more && Skipped(w, b, hs, pre, a, ih, g, rest, fuel, tr)
    ensures Skipped(w, b, hs, pre, a, ih, g, rest, more, tr)
  {
    hide Exec, SomeCatches, Shows;
    var r := Before(w, b, hs, fuel, tr);
    ExecMore(w, Try(b, hs, NoFin), fuel, more, tr);
    ExecMore(w, pre, fuel, more, r.tr);
    ExecMore(w, Try(a, ih, g), fuel, more, Exec(w, pre, fuel, r.tr).tr);
  }

  lemma MisledIsWrong(w: World, b: Stmt, hs: Handlers, pre: Stmt, a: Stmt, ih: Handlers, g: Fin, rest: Stmt,
                      fuel: nat, m: Mem)
    requires var s := Try(b, hs, Fin(TryWithin(pre, a, ih, g, rest))); Scoped(s) && Free(s) == {}
    requires Sound(b) && SoundHandlers(hs) && QuietParts(pre, a, ih, g, rest) && Neat(w) && !m.err
    requires Misled(w, b, hs, pre, a, ih, g, rest, fuel, m)
    ensures !Right(w, Try(b, hs, Fin(TryWithin(pre, a, ih, g, rest))), m)
  {
    hide Exec, Ends, Swallowed, Skipped, Right, Differs, Scoped, Free, Sound, QuietParts, Neat, TryWithin, RightFor;
    var s := Try(b, hs, Fin(TryWithin(pre, a, ih, g, rest)));
    RightIff(w, s, m);
    CodeIsFlow(w, s, m);
    MisledEnds(w, b, hs, pre, a, ih, g, rest, fuel, m);
    if Terminates(w, s, m.tr) && FlowEnds(w, s, m) {
      var enough := TerminatesLate(w, s, m.tr, fuel);
      var more := EndsLate(w, s, m, enough);
      ExecMore(w, s, enough, more, m.tr);
      if Swallowed(w, b, hs, pre, ih, fuel, m.tr) {
        SwallowedMore(w, b, hs, pre, ih, fuel, more, m.tr);
      } else {
        SkippedMore(w, b, hs, pre, a, ih, g, rest, fuel, more, m.tr);
      }
      MisledEnds(w, b, hs, pre, a, ih, g, rest, more, m);
    }
  }

  /** What follows the inner `try` is skipped. */
  lemma CallIsSkipped(w: World, e: Exn, m: Mem)
    requires Neat(w) && !m.err
    ensures !Right(w, Try(Raise(e), NoHandler, Fin(TryWithin(Skip, Skip, NoHandler, Fin(Skip), Call(0, false)))), m)
  {
    hide Right, Neat;
    WithinSkipFits(e, NoHandler, Fin(Skip), Call(0, false));
    RaisePends(w, e, 0, m.tr);
    QuietTry(w, Raise(e), NoHandler, Skip, Skip, NoHandler, Fin(Skip), Call(0, false), m);
    assert Skips(w, Skip, Skip, NoHandler, Fin(Skip), Call(0, false), e, 0, m.tr);
    assert Misled(w, Raise(e), NoHandler, Skip, Skip, NoHandler, Fin(Skip), Call(0, false), 0, m);
  }

  /** A general handler swallows the exception. */
  lemma ExceptionIsSwallowed(w: World, e: Exn, m: Mem)
    requires Neat(w) && !m.err
    ensures !Right(w, Try(Raise(e), NoHandler,
      Fin(TryWithin(Skip, Skip, Handler(All, Skip, NoHandler), NoFin, Skip))), m)
  {
    hide Right, Neat;
    var ih := Handler(All, Skip, NoHandler);
    var s := Try(Raise(e), NoHandler, Fin(TryWithin(Skip, Skip, ih, NoFin, Skip)));
    WithinSkipFits(e, ih, NoFin, Skip);
    RaisePends(w, e, 0, m.tr);
    QuietTry(w, Raise(e), NoHandler, Skip, Skip, ih, NoFin, Skip, m);
    BeforeUnfolds(w, Raise(e), NoHandler, s.fin, 0, m);
    assert !Exec(w, s, 0, m.tr).o.Timeout?;
    assert Fits(w, Skip, ih, e, 0, m.tr);
    assert Misled(w, Raise(e), NoHandler, Skip, Skip, ih, NoFin, Skip, 0, m);
  }

  lemma WithinSkipFits(e: Exn, ih: Handlers, g: Fin, rest: Stmt)
    requires ih == NoHandler || ih == Handler(All, Skip, NoHandler)
    requires g == NoFin || g == Fin(Skip)
    requires rest == Skip || rest == Call(0, false)
    ensures QuietParts(Skip, Skip, ih, g, rest) && Sound(Raise(e)) && SoundHandlers(NoHandler)
    ensures var s := Try(Raise(e), NoHandler, Fin(TryWithin(Skip, Skip, ih, g, rest))); Scoped(s) && Free(s) == {}
  {
    NoHandlers();
    OneHandler(All, Skip);
    FinIs(Skip);
    var f := TryWithin(Skip, Skip, ih, g, rest);
    TryIs(Skip, ih, g);
    assert Free(rest) == {} && Scoped(rest);
    assert Free(Seq(Try(Skip, ih, g), rest)) == {} && Scoped(Seq(Try(Skip, ih, g), rest));
    FinIs(f);
    TryIs(Raise(e), NoHandler, Fin(f));
  }

  // ---------- a finally body that can raise and leaves exceptions behind ----------

  /** The stack that the `finally` body finds, with the flag saved and cleared. */
  function AtBody(w: World, b: Stmt, hs: Handlers, fuel: nat, m: Mem): Mem {
    BeforeFlow(w, b, hs, fuel, m).m.(err := false)
  }

  /** The `finally` body ends normally, but with another exception on top than the one in flight. */
  ghost predicate Replaces(w: World, b: Stmt, hs: Handlers, f: Stmt, fuel: nat, m: Mem) {
    var r, x := Before(w, b, hs, fuel, m.tr), Flow(w, f, fuel, AtBody(w, b, hs, fuel, m)).m.exns;
    r.o.Raised? && Exec(w, f, fuel, r.tr).o.Normal? && x != [] && x[0] != r.o.exn
  }

  /** Nothing goes wrong inside the `finally` body. */
  ghost predicate ClearFin(w: World, b: Stmt, hs: Handlers, f: Stmt, fuel: nat, m: Mem) {
    MeetsFin(w, Fin(f), fuel, BeforeFlow(w, b, hs, fuel, m))
  }

  lemma SoundClearFin(w: World, b: Stmt, hs: Handlers, f: Stmt, fuel: nat, m: Mem)
    requires Clear(w, b, hs, fuel, m) && Sound(f) && Neat(w) && CanRaise(f)
    ensures ClearFin(w, b, hs, f, fuel, m)
  {
    hide Flow, FlowHandled, BeforeFlow, Before, Meets, Neat, Sound;
    Pends(w, b, hs, fuel, m);
    var h := BeforeFlow(w, b, hs, fuel, m);
    SoundMeets(w, f, fuel, h.m.(err := false));
    assert !h.m.err ==> h.m.(err := false) == h.m;
  }

  /**
   Around a `finally` body that can raise the flag is saved, but not the stack: the
   statement does what was written if and only if the exception in flight is on top again
   when the body ends normally.
   */
  lemma LoudFinAt(w: World, b: Stmt, hs: Handlers, f: Stmt, fuel: nat, m: Mem)
    requires Clear(w, b, hs, fuel, m) && CanRaise(f) && ClearFin(w, b, hs, f, fuel, m)
    ensures var s := Try(b, hs, Fin(f));
      Follows(m, Flow(w, s, fuel, m), Exec(w, s, fuel, m.tr), Loose) <==> !Replaces(w, b, hs, f, fuel, m)
  {
    hide Flow, Exec, FlowHandled, Before, Follows, Meets, Kept, Extends, CanRaise;
    FollowsIff(w, b, hs, Fin(f), fuel, m);
    Pends(w, b, hs, fuel, m);
    var r := Before(w, b, hs, fuel, m.tr);
    if r.o.Raised? {
      BodyKeeps(w, f, fuel, AtBody(w, b, hs, fuel, m));
    }
  }

  /** A body that ends normally has not emptied the stack. */
  lemma BodyKeeps(w: World, f: Stmt, fuel: nat, m: Mem)
    requires !m.err && Meets(w, f, fuel, m) && m.exns != []
    ensures Exec(w, f, fuel, m.tr).o.Normal? ==> Flow(w, f, fuel, m).m.exns != []
  {
    hide Flow, Exec, Meets, Extends;
    LooseTidy(f);
    Follow(w, f, fuel, m, Loose);
    if Exec(w, f, fuel, m.tr).o.Normal? {
      var exns := Flow(w, f, fuel, m).m.exns;
      KeptStart(exns, m.exns, false);
      ExtendsLonger(exns, m.exns);
    }
  }

  lemma ReplacedDiffers(w: World, b: Stmt, hs: Handlers, f: Stmt, fuel: nat, m: Mem)
    requires Clear(w, b, hs, fuel, m) && CanRaise(f) && ClearFin(w, b, hs, f, fuel, m)
    requires Replaces(w, b, hs, f, fuel, m)
    ensures Differs(w, Try(b, hs, Fin(f)), fuel, m)
  {
    hide Flow, Exec, FlowHandled, Before, BeforeFlow, Clear, Meets, Extends;
    Pends(w, b, hs, fuel, m);
    BeforeUnfolds(w, b, hs, Fin(f), fuel, m);
    var m1 := AtBody(w, b, hs, fuel, m);
    LooseTidy(f);
    Follow(w, f, fuel, m1, Loose);
  }

  /** The code of the proc is right if and only if no such run exists. */
  lemma LoudFin(w: World, b: Stmt, hs: Handlers, f: Stmt, m: Mem)
    requires Scoped(Try(b, hs, Fin(f))) && Free(Try(b, hs, Fin(f))) == {} && CanRaise(f)
    requires forall fuel: nat :: Clear(w, b, hs, fuel, m) && ClearFin(w, b, hs, f, fuel, m)
    ensures Right(w, Try(b, hs, Fin(f)), m) <==> forall fuel: nat :: !Replaces(w, b, hs, f, fuel, m)
  {
    hide Right, RightFor, Replaces, Differs, Clear, ClearFin, Follows, Flow, Exec, CanRaise, Scoped;
    var s := Try(b, hs, Fin(f));
    if fuel: nat :| Replaces(w, b, hs, f, fuel, m) {
      assert Clear(w, b, hs, fuel, m) && ClearFin(w, b, hs, f, fuel, m);
      ReplacedDiffers(w, b, hs, f, fuel, m);
      WrongAt(w, s, fuel, m);
    } else {
      forall fuel: nat ensures RightFor(w, s, fuel, m) {
        assert Clear(w, b, hs, fuel, m) && ClearFin(w, b, hs, f, fuel, m);
        LoudFinAt(w, b, hs, f, fuel, m);
        FollowsRight(w, s, fuel, m);
      }
      RightIf(w, s, m);
    }
  }

  lemma SoundLoudFin(w: World, b: Stmt, hs: Handlers, f: Stmt, m: Mem)
    requires Scoped(Try(b, hs, Fin(f))) && Free(Try(b, hs, Fin(f))) == {} && CanRaise(f)
    requires Sound(b) && SoundHandlers(hs) && Sound(f) && Neat(w) && !m.err
    ensures Right(w, Try(b, hs, Fin(f)), m) <==> forall fuel: nat :: !Replaces(w, b, hs, f, fuel, m)
  {
    hide Right, Replaces, Clear, ClearFin, Neat, Sound, CanRaise, Scoped;
    forall fuel: nat ensures Clear(w, b, hs, fuel, m) && ClearFin(w, b, hs, f, fuel, m) {
      SoundClear(w, b, hs, fuel, m);
      SoundClearFin(w, b, hs, f, fuel, m);
    }
    LoudFin(w, b, hs, f, m);
  }

  /**
   In a world that is not neat: `try: raise e finally: c()` is right if and only if `c`, when it
   does not raise, leaves nothing on the stack above `e`, or `e` itself.
   */
  lemma LeftBehind(w: World, e: Exn, c: nat, m: Mem)
    requires !m.err
    ensures var t := m.tr + [Called(c)];
      Right(w, Try(Raise(e), NoHandler, Fin(Call(c, true))), m) <==>
      w.raises(c, t).Some? || w.leaves(c, t) == [] || w.leaves(c, t)[0] == e
  {
    hide Right, Replaces;
    CallsAre(c);
    NoHandlers();
    FinIs(Call(c, true));
    TryIs(Raise(e), NoHandler, Fin(Call(c, true)));
    var t := m.tr + [Called(c)];
    forall fuel: nat
      ensures Clear(w, Raise(e), NoHandler, fuel, m) && ClearFin(w, Raise(e), NoHandler, Call(c, true), fuel, m)
      ensures Replaces(w, Raise(e), NoHandler, Call(c, true), fuel, m) <==>
        !(w.raises(c, t).Some? || w.leaves(c, t) == [] || w.leaves(c, t)[0] == e)
    {
      CallReplaces(w, e, c, fuel, m);
    }
    LoudFin(w, Raise(e), NoHandler, Call(c, true), m);
    assert !Replaces(w, Raise(e), NoHandler, Call(c, true), 0, m) <==>
      w.raises(c, t).Some? || w.leaves(c, t) == [] || w.leaves(c, t)[0] == e;
  }

  lemma CallReplaces(w: World, e: Exn, c: nat, fuel: nat, m: Mem)
    requires !m.err
    ensures Clear(w, Raise(e), NoHandler, fuel, m) && ClearFin(w, Raise(e), NoHandler, Call(c, true), fuel, m)
    ensures var t := m.tr + [Called(c)];
      Replaces(w, Raise(e), NoHandler, Call(c, true), fuel, m) <==>
      !(w.raises(c, t).Some? || w.leaves(c, t) == [] || w.leaves(c, t)[0] == e)
  {
    hide Before;
    RaisePends(w, e, fuel, m.tr);
    NoFinMeets(w, Raise(e), NoHandler, fuel, m);
    assert Meets(w, Raise(e), fuel, m);
    assert MeetsHandlers(w, NoHandler, fuel, Flow(w, Raise(e), fuel, m).m);
    CallMeets(w, c, fuel, BeforeFlow(w, Raise(e), NoHandler, fuel, m));
    assert AtBody(w, Raise(e), NoHandler, fuel, m) == Mem(false, [e] + m.exns, m.tr);
    var left := w.leaves(c, m.tr + [Called(c)]);
    assert left == [] ==> (left + ([e] + m.exns))[0] == e;
    assert left != [] ==> (left + ([e] + m.exns))[0] == left[0];
  }

  lemma CallMeets(w: World, c: nat, fuel: nat, h: Out)
    ensures MeetsFin(w, Fin(Call(c, true)), fuel, h)
  {
    assert Meets(w, Call(c, true), fuel, h.m) && Meets(w, Call(c, true), fuel, h.m.(err := false));
  }

  // an exception replaced inside the body, and the replacement caught there

  /** `try: x except k: c` */
  function TryExcept(x: Stmt, k: Kinds, c: Stmt): Stmt {
    Try(x, Handler(k, c, NoHandler), NoFin)
  }

  lemma OuterExec(w: World, x: Stmt, k: Kinds, c: Stmt, fuel: nat, tr: Trace)
    ensures var rx := Exec(w, x, fuel, tr);
      Exec(w, TryExcept(x, k, c), fuel, tr) ==
        if rx.o.Raised? && Catches(w, k, rx.o.exn) then Exec(w, c, fuel, rx.tr) else rx
  {
    hide Exec, Catches;
    TryFlows(w, TryExcept(x, k, c), fuel, Mem(false, [], tr));
    var rx := Exec(w, x, fuel, tr);
    if rx.o.Raised? {
      assert Handle(w, NoHandler, rx.o.exn, fuel, rx.tr) == rx;
    }
  }

  /** A sound part of the body, and what it leaves on the stack. */
  lemma SoundFollow(w: World, s: Stmt, fuel: nat, m: Mem, x: Wish)
    requires Sound(s) && Tidy(s, x) && Neat(w) && !m.err
    ensures Follows(m, Flow(w, s, fuel, m), Exec(w, s, fuel, m.tr), x)
  {
    hide Meets, Sound, Tidy, Neat, Follows;
    SoundMeets(w, s, fuel, m);
    Follow(w, s, fuel, m, x);
  }

  /** A handler around `x`: what is left on the stack when it ends normally. */
  lemma OuterFlow(w: World, x: Stmt, k: Kinds, c: Stmt, fuel: nat, m: Mem)
    requires Sound(x) && Sound(c) && Tidy(c, TIDY) && Neat(w) && !m.err
    requires Exec(w, TryExcept(x, k, c), fuel, m.tr).o.Normal?
    ensures var rx, exns := Exec(w, x, fuel, m.tr), Flow(w, x, fuel, m).m.exns;
      (rx.o.Raised? ==> exns != []) &&
      Flow(w, TryExcept(x, k, c), fuel, m).m.exns == if rx.o.Raised? then exns[1..] else exns
  {
    hide Flow, Exec, Extends, Catches, Sound, Tidy, Neat;
    var rx, ox := Exec(w, x, fuel, m.tr), Flow(w, x, fuel, m);
    OuterExec(w, x, k, c, fuel, m.tr);
    TryFlows(w, TryExcept(x, k, c), fuel, m);
    LooseTidy(x);
    SoundFollow(w, x, fuel, m, Loose);
    if rx.o.Raised? {
      AllOrCaught(w, k, rx.o.exn);
      var m1 := ox.m.(err := false);
      SoundFollow(w, c, fuel, m1, TIDY);
      KeptStart(Flow(w, c, fuel, m1).m.exns, ox.m.exns, true);
    }
  }

  /** What clean code leaves on the stack. */
  lemma ExactStart(o: Out, r: Res, m: Mem)
    requires Follows(m, o, r, CLEAN)
    ensures r.o.Normal? ==> o.m.exns == m.exns
    ensures r.o.Raised? ==> o.m.exns == [r.o.exn] + m.exns
  {
    if r.o.Raised? {
      assert o.m.exns == [o.m.exns[0]] + o.m.exns[1..];
    } else if r.o.Normal? {
      assert o.m.exns[0..] == o.m.exns;
    }
  }

  /** An exception that `x` leaves under the one it raises comes to the top when that is caught. */
  lemma CaughtLeaves(w: World, o: Stmt, hs: Handlers, x: Stmt, k: Kinds, c: Stmt, fuel: nat, m: Mem, under: seq<Exn>)
    requires Clear(w, o, hs, fuel, m) && Sound(x) && Sound(c) && Tidy(c, TIDY) && Neat(w)
    requires Before(w, o, hs, fuel, m.tr).o.Raised? && under != []
    requires var m1 := AtBody(w, o, hs, fuel, m);
      var rx, exns := Exec(w, x, fuel, m1.tr), Flow(w, x, fuel, m1).m.exns;
      (rx.o.Normal? ==> exns == m1.exns) && (rx.o.Raised? ==> exns == [rx.o.exn] + under)
    ensures var r := Before(w, o, hs, fuel, m.tr);
      var rx := Exec(w, x, fuel, r.tr);
      Replaces(w, o, hs, TryExcept(x, k, c), fuel, m) <==>
        && rx.o.Raised? && Catches(w, k, rx.o.exn) && Exec(w, c, fuel, rx.tr).o.Normal?
        && under[0] != r.o.exn
  {
    hide Exec, Flow, FlowHandled, Sound, Catches, Before, Clear, Tidy, Neat;
    Pends(w, o, hs, fuel, m);
    var m1 := AtBody(w, o, hs, fuel, m);
    var rx := Exec(w, x, fuel, m1.tr);
    OuterExec(w, x, k, c, fuel, m1.tr);
    if Exec(w, TryExcept(x, k, c), fuel, m1.tr).o.Normal? {
      OuterFlow(w, x, k, c, fuel, m1);
      if rx.o.Raised? {
        assert ([rx.o.exn] + under)[1..] == under;
      }
    }
  }

  lemma NestedIsSound(x: Stmt, k: Kinds, c: Stmt)
    requires Sound(x) && Sound(c)
    ensures Sound(TryExcept(x, k, c)) && (CanRaise(x) ==> CanRaise(TryExcept(x, k, c)))
  {
    hide Sound, CanRaise;
    NoHandlers();
    OneHandler(k, c);
    TryIs(x, Handler(k, c, NoHandler), NoFin);
  }

  /** The handler of `a` raises. */
  lemma HandlerFlow(w: World, a: Stmt, k: Kinds, b: Stmt, fuel: nat, m: Mem)
    requires Sound(a) && Sound(b) && Tidy(a, CLEAN) && Tidy(b, CLEAN) && Neat(w) && !m.err
    ensures var ra := Exec(w, a, fuel, m.tr);
      var rx, exns := Exec(w, TryExcept(a, k, b), fuel, m.tr), Flow(w, TryExcept(a, k, b), fuel, m).m.exns;
      var replaced := ra.o.Raised? && Catches(w, k, ra.o.exn);
      && (rx.o.Normal? ==> exns == m.exns)
      && (rx.o.Raised? ==> exns == [rx.o.exn] + (if replaced then [ra.o.exn] + m.exns else m.exns))
  {
    hide Flow, Exec, Extends, Catches, Sound, Tidy, Neat;
    var ra, oa := Exec(w, a, fuel, m.tr), Flow(w, a, fuel, m);
    OuterExec(w, a, k, b, fuel, m.tr);
    TryFlows(w, TryExcept(a, k, b), fuel, m);
    SoundFollow(w, a, fuel, m, CLEAN);
    ExactStart(oa, ra, m);
    if ra.o.Raised? {
      AllOrCaught(w, k, ra.o.exn);
      assert FlowHandlers(w, NoHandler, fuel, oa.m) == Out(Falls, oa.m);
      var m1 := oa.m.(err := false);
      SoundFollow(w, b, fuel, m1, CLEAN);
      ExactStart(Flow(w, b, fuel, m1), Exec(w, b, fuel, m1.tr), m1);
      assert ([ra.o.exn] + m.exns)[1..] == m.exns;
    }
  }

  /** Inside the `finally` body `a` raises one exception, its handler another, which is caught. */
  ghost predicate HandlerReplaces(w: World, o: Stmt, hs: Handlers, a: Stmt, k1: Kinds, b: Stmt, k2: Kinds, c: Stmt,
                                  fuel: nat, tr: Trace) {
    var r := Before(w, o, hs, fuel, tr);
    var ra := Exec(w, a, fuel, r.tr);
    r.o.Raised? && ra.o.Raised? && ra.o.exn != r.o.exn && Catches(w, k1, ra.o.exn) &&
    var rb := Exec(w, b, fuel, ra.tr);
    rb.o.Raised? && Catches(w, k2, rb.o.exn) && Exec(w, c, fuel, rb.tr).o.Normal?
  }

  lemma HandlerReplacing(w: World, o: Stmt, hs: Handlers, a: Stmt, k1: Kinds, b: Stmt, k2: Kinds, c: Stmt,
                         fuel: nat, m: Mem)
    requires Clear(w, o, hs, fuel, m) && Sound(a) && Sound(b) && Sound(c) && Neat(w)
    requires Tidy(a, CLEAN) && Tidy(b, CLEAN) && Tidy(c, TIDY)
    ensures Replaces(w, o, hs, TryExcept(TryExcept(a, k1, b), k2, c), fuel, m) <==>
      HandlerReplaces(w, o, hs, a, k1, b, k2, c, fuel, m.tr)
  {
    hide Exec, Flow, BeforeFlow, Sound, Catches, Before, Replaces, TryExcept, Tidy, Neat, Clear;
    ReplacesPends(w, o, hs, TryExcept(TryExcept(a, k1, b), k2, c), fuel, m);
    var r := Before(w, o, hs, fuel, m.tr);
    if r.o.Raised? {
      HandlerLeaves(w, o, hs, a, k1, b, k2, c, fuel, m);
      OuterExec(w, a, k1, b, fuel, r.tr);
    }
  }

  lemma HandlerLeaves(w: World, o: Stmt, hs: Handlers, a: Stmt, k1: Kinds, b: Stmt, k2: Kinds, c: Stmt,
                      fuel: nat, m: Mem)
    requires Clear(w, o, hs, fuel, m) && Sound(a) && Sound(b) && Sound(c) && Neat(w)
    requires Tidy(a, CLEAN) && Tidy(b, CLEAN) && Tidy(c, TIDY) && Before(w, o, hs, fuel, m.tr).o.Raised?
    ensures var r := Before(w, o, hs, fuel, m.tr);
      var ra, rx := Exec(w, a, fuel, r.tr), Exec(w, TryExcept(a, k1, b), fuel, r.tr);
      Replaces(w, o, hs, TryExcept(TryExcept(a, k1, b), k2, c), fuel, m) <==>
        && rx.o.Raised? && Catches(w, k2, rx.o.exn) && Exec(w, c, fuel, rx.tr).o.Normal?
        && ra.o.Raised? && Catches(w, k1, ra.o.exn) && ra.o.exn != r.o.exn
  {
    hide Exec, Flow, BeforeFlow, Sound, Catches, Before, Replaces, TryExcept, Tidy, Neat, Clear;
    Pends(w, o, hs, fuel, m);
    var m1 := AtBody(w, o, hs, fuel, m);
    NestedIsSound(a, k1, b);
    HandlerFlow(w, a, k1, b, fuel, m1);
    var ra := Exec(w, a, fuel, m1.tr);
    CaughtLeaves(w, o, hs, TryExcept(a, k1, b), k2, c, fuel, m,
      if ra.o.Raised? && Catches(w, k1, ra.o.exn) then [ra.o.exn] + m1.exns else m1.exns);
  }

  lemma ReplacesPends(w: World, b: Stmt, hs: Handlers, f: Stmt, fuel: nat, m: Mem)
    ensures Replaces(w, b, hs, f, fuel, m) ==> Before(w, b, hs, fuel, m.tr).o.Raised?
  {
  }

  /**
   `try: o ... finally: (try: (try: a except k1: b) except k2: c)`. When `b` raises, the
   exception of `a` stays on the stack below, and comes to the top when `c` ends: the proc
   goes on with it in place of the one in flight.
   */
  lemma ReplacedInHandlerAt(w: World, o: Stmt, hs: Handlers, a: Stmt, k1: Kinds, b: Stmt, k2: Kinds, c: Stmt,
                            fuel: nat, m: Mem)
    requires Clear(w, o, hs, fuel, m) && Sound(a) && Sound(b) && Sound(c) && Neat(w)
    requires CanRaise(a) && Tidy(a, CLEAN) && Tidy(b, CLEAN) && Tidy(c, TIDY)
    ensures var s := Try(o, hs, Fin(TryExcept(TryExcept(a, k1, b), k2, c)));
      Follows(m, Flow(w, s, fuel, m), Exec(w, s, fuel, m.tr), Loose) <==>
      !HandlerReplaces(w, o, hs, a, k1, b, k2, c, fuel, m.tr)
  {
    hide Flow, Exec, Follows, Replaces, HandlerReplaces, Sound, CanRaise, Clear, ClearFin, Tidy, Neat, TryExcept;
    var f := TryExcept(TryExcept(a, k1, b), k2, c);
    NestedIsSound(a, k1, b);
    NestedIsSound(TryExcept(a, k1, b), k2, c);
    SoundClearFin(w, o, hs, f, fuel, m);
    LoudFinAt(w, o, hs, f, fuel, m);
    HandlerReplacing(w, o, hs, a, k1, b, k2, c, fuel, m);
  }

  lemma ReplacedInHandler(w: World, o: Stmt, hs: Handlers, a: Stmt, k1: Kinds, b: Stmt, k2: Kinds, c: Stmt, m: Mem)
    requires var s := Try(o, hs, Fin(TryExcept(TryExcept(a, k1, b), k2, c))); Scoped(s) && Free(s) == {}
    requires Sound(o) && SoundHandlers(hs) && Sound(a) && Sound(b) && Sound(c) && Neat(w) && !m.err
    requires CanRaise(a) && Tidy(a, CLEAN) && Tidy(b, CLEAN) && Tidy(c, TIDY)
    ensures Right(w, Try(o, hs, Fin(TryExcept(TryExcept(a, k1, b), k2, c))), m) <==>
      forall fuel: nat :: !HandlerReplaces(w, o, hs, a, k1, b, k2, c, fuel, m.tr)
  {
    hide Right, Replaces, HandlerReplaces, Sound, CanRaise, Tidy, Neat, TryExcept, Clear, Scoped, Free;
    var f := TryExcept(TryExcept(a, k1, b), k2, c);
    NestedIsSound(a, k1, b);
    NestedIsSound(TryExcept(a, k1, b), k2, c);
    SoundLoudFin(w, o, hs, f, m);
    forall fuel: nat
      ensures Replaces(w, o, hs, f, fuel, m) <==> HandlerReplaces(w, o, hs, a, k1, b, k2, c, fuel, m.tr)
    {
      SoundClear(w, o, hs, fuel, m);
      HandlerReplacing(w, o, hs, a, k1, b, k2, c, fuel, m);
    }
  }

  /** `try: a finally: b`, whose `finally` raises: what `a` has left on the stack stays under it. */
  lemma FinallyFlow(w: World, a: Stmt, b: Stmt, fuel: nat, m: Mem)
    requires Sound(a) && Sound(b) && CanRaise(b) && Tidy(a, CLEAN) && Tidy(b, CLEAN) && Neat(w) && !m.err
    ensures var x, ra, oa := Try(a, NoHandler, Fin(b)), Exec(w, a, fuel, m.tr), Flow(w, a, fuel, m);
      var rb, rx, exns := Exec(w, b, fuel, ra.tr), Exec(w, x, fuel, m.tr), Flow(w, x, fuel, m).m.exns;
      && rx == (if ra.o.Timeout? then ra else if rb.o.Normal? then Res(ra.o, rb.tr) else rb)
      && (rx.o.Normal? ==> exns == m.exns)
      && (rx.o.Raised? ==> exns == [rx.o.exn] + if rb.o.Raised? then oa.m.exns else m.exns)
      && (ra.o.Normal? ==> oa.m.exns == m.exns)
      && (ra.o.Raised? ==> oa.m.exns == [ra.o.exn] + m.exns)
      && (m.exns != [] && !ra.o.Timeout? ==> oa.m.exns != [])
  {
    hide Flow, Exec, Extends, Sound, Tidy, Neat, CanRaise;
    var x := Try(a, NoHandler, Fin(b));
    var ra, oa := Exec(w, a, fuel, m.tr), Flow(w, a, fuel, m);
    TryFlows(w, x, fuel, m);
    SoundFollow(w, a, fuel, m, CLEAN);
    ExactStart(oa, ra, m);
    if !ra.o.Timeout? {
      StackGrows(oa, ra, m);
      var m1 := oa.m.(err := false);
      assert !oa.m.err ==> m1 == oa.m;
      SoundFollow(w, b, fuel, m1, CLEAN);
      ExactStart(Flow(w, b, fuel, m1), Exec(w, b, fuel, m1.tr), m1);
    }
  }

  lemma StackGrows(o: Out, r: Res, m: Mem)
    requires Follows(m, o, r, CLEAN) && !r.o.Timeout?
    ensures m.exns != [] ==> o.m.exns != []
  {
  }

  /**
   Inside the `finally` body `a` leaves an exception on the stack, raised there or taken by a
   handler that is left by break or return; then its own `finally` raises another, which is caught.
   */
  ghost predicate FinallyReplaces(w: World, o: Stmt, hs: Handlers, a: Stmt, b: Stmt, k: Kinds, c: Stmt,
                                  fuel: nat, m: Mem) {
    var r := Before(w, o, hs, fuel, m.tr);
    var ra, exns := Exec(w, a, fuel, r.tr), Flow(w, a, fuel, AtBody(w, o, hs, fuel, m)).m.exns;
    r.o.Raised? && !ra.o.Timeout? && exns != [] && exns[0] != r.o.exn &&
    var rb := Exec(w, b, fuel, ra.tr);
    rb.o.Raised? && Catches(w, k, rb.o.exn) && Exec(w, c, fuel, rb.tr).o.Normal?
  }

  lemma FinallyReplacing(w: World, o: Stmt, hs: Handlers, a: Stmt, b: Stmt, k: Kinds, c: Stmt, fuel: nat, m: Mem)
    requires Clear(w, o, hs, fuel, m) && Sound(a) && Sound(b) && Sound(c) && Neat(w)
    requires CanRaise(b) && Tidy(a, CLEAN) && Tidy(b, CLEAN) && Tidy(c, TIDY)
    ensures Replaces(w, o, hs, TryExcept(Try(a, NoHandler, Fin(b)), k, c), fuel, m) <==>
      FinallyReplaces(w, o, hs, a, b, k, c, fuel, m)
  {
    hide Exec, Flow, BeforeFlow, Sound, CanRaise, Catches, Before, Tidy, Replaces, TryExcept, Neat, Clear;
    var x := Try(a, NoHandler, Fin(b));
    ReplacesPends(w, o, hs, TryExcept(x, k, c), fuel, m);
    var r := Before(w, o, hs, fuel, m.tr);
    if r.o.Raised? {
      FinallyLeaves(w, o, hs, a, b, k, c, fuel, m);
      FinallyExec(w, a, b, fuel, r.tr);
    }
  }

  lemma FinallyExec(w: World, a: Stmt, b: Stmt, fuel: nat, tr: Trace)
    ensures var ra := Exec(w, a, fuel, tr);
      var rb := Exec(w, b, fuel, ra.tr);
      Exec(w, Try(a, NoHandler, Fin(b)), fuel, tr) ==
        if ra.o.Timeout? then ra else if rb.o.Normal? then Res(ra.o, rb.tr) else rb
  {
    hide Exec;
    TryFlows(w, Try(a, NoHandler, Fin(b)), fuel, Mem(false, [], tr));
  }

  lemma FinallyLeaves(w: World, o: Stmt, hs: Handlers, a: Stmt, b: Stmt, k: Kinds, c: Stmt, fuel: nat, m: Mem)
    requires Clear(w, o, hs, fuel, m) && Sound(a) && Sound(b) && Sound(c) && Neat(w)
    requires CanRaise(b) && Tidy(a, CLEAN) && Tidy(b, CLEAN) && Tidy(c, TIDY)
    requires Before(w, o, hs, fuel, m.tr).o.Raised?
    ensures var r := Before(w, o, hs, fuel, m.tr);
      var ra, rx := Exec(w, a, fuel, r.tr), Exec(w, Try(a, NoHandler, Fin(b)), fuel, r.tr);
      var exns := Flow(w, a, fuel, AtBody(w, o, hs, fuel, m)).m.exns;
      Replaces(w, o, hs, TryExcept(Try(a, NoHandler, Fin(b)), k, c), fuel, m) <==>
        && rx.o.Raised? && Catches(w, k, rx.o.exn) && Exec(w, c, fuel, rx.tr).o.Normal?
        && !ra.o.Timeout? && Exec(w, b, fuel, ra.tr).o.Raised? && exns != [] && exns[0] != r.o.exn
  {
    hide Exec, Flow, BeforeFlow, Sound, CanRaise, Catches, Before, Tidy, Replaces, TryExcept, Neat, Clear;
    var x := Try(a, NoHandler, Fin(b));
    Pends(w, o, hs, fuel, m);
    var m1 := AtBody(w, o, hs, fuel, m);
    FinallyIsSound(a, b);
    FinallyFlow(w, a, b, fuel, m1);
    var ra := Exec(w, a, fuel, m1.tr);
    CaughtLeaves(w, o, hs, x, k, c, fuel, m,
      if !ra.o.Timeout? && Exec(w, b, fuel, ra.tr).o.Raised? then Flow(w, a, fuel, m1).m.exns else m1.exns);
  }

  lemma FinallyIsSound(a: Stmt, b: Stmt)
    requires Sound(a) && Sound(b) && CanRaise(b) && Tidy(b, CLEAN)
    ensures var x := Try(a, NoHandler, Fin(b)); Sound(x) && CanRaise(x)
  {
    hide Sound, CanRaise, Tidy;
    CleanIsTidy(b, CLEAN);
    NoHandlers();
    FinIs(b);
    TryIs(a, NoHandler, Fin(b));
  }

  /** `try: o ... finally: (try: (try: a finally: b) except k: c)`: the same with a `finally` that raises. */
  lemma ReplacedInFinallyAt(w: World, o: Stmt, hs: Handlers, a: Stmt, b: Stmt, k: Kinds, c: Stmt, fuel: nat, m: Mem)
    requires Clear(w, o, hs, fuel, m) && Sound(a) && Sound(b) && Sound(c) && Neat(w)
    requires CanRaise(b) && Tidy(a, CLEAN) && Tidy(b, CLEAN) && Tidy(c, TIDY)
    ensures var s := Try(o, hs, Fin(TryExcept(Try(a, NoHandler, Fin(b)), k, c)));
      Follows(m, Flow(w, s, fuel, m), Exec(w, s, fuel, m.tr), Loose) <==>
      !FinallyReplaces(w, o, hs, a, b, k, c, fuel, m)
  {
    hide Flow, Exec, Follows, Replaces, FinallyReplaces, Sound, CanRaise, Clear, ClearFin, Tidy, Neat, TryExcept;
    var x := Try(a, NoHandler, Fin(b));
    FinallyIsSound(a, b);
    NestedIsSound(x, k, c);
    SoundClearFin(w, o, hs, TryExcept(x, k, c), fuel, m);
    LoudFinAt(w, o, hs, TryExcept(x, k, c), fuel, m);
    FinallyReplacing(w, o, hs, a, b, k, c, fuel, m);
  }

  lemma ReplacedInFinally(w: World, o: Stmt, hs: Handlers, a: Stmt, b: Stmt, k: Kinds, c: Stmt, m: Mem)
    requires var s := Try(o, hs, Fin(TryExcept(Try(a, NoHandler, Fin(b)), k, c))); Scoped(s) && Free(s) == {}
    requires Sound(o) && SoundHandlers(hs) && Sound(a) && Sound(b) && Sound(c) && Neat(w) && !m.err
    requires CanRaise(b) && Tidy(a, CLEAN) && Tidy(b, CLEAN) && Tidy(c, TIDY)
    ensures Right(w, Try(o, hs, Fin(TryExcept(Try(a, NoHandler, Fin(b)), k, c))), m) <==>
      forall fuel: nat :: !FinallyReplaces(w, o, hs, a, b, k, c, fuel, m)
  {
    hide Right, Replaces, FinallyReplaces, Sound, CanRaise, Tidy, Neat, TryExcept, Clear, Scoped, Free;
    var x := Try(a, NoHandler, Fin(b));
    FinallyIsSound(a, b);
    NestedIsSound(x, k, c);
    SoundLoudFin(w, o, hs, TryExcept(x, k, c), m);
    forall fuel: nat
      ensures Replaces(w, o, hs, TryExcept(x, k, c), fuel, m) <==> FinallyReplaces(w, o, hs, a, b, k, c, fuel, m)
    {
      SoundClear(w, o, hs, fuel, m);
      FinallyReplacing(w, o, hs, a, b, k, c, fuel, m);
    }
  }

  /** When `a` raises, the exception it leaves is its own; when it ends normally it leaves none. */
  lemma WhatIsReplaced(w: World, o: Stmt, hs: Handlers, a: Stmt, fuel: nat, m: Mem)
    requires Clear(w, o, hs, fuel, m) && Sound(a) && Tidy(a, CLEAN) && Neat(w)
    requires Before(w, o, hs, fuel, m.tr).o.Raised?
    ensures var r, exns := Before(w, o, hs, fuel, m.tr), Flow(w, a, fuel, AtBody(w, o, hs, fuel, m)).m.exns;
      var ra := Exec(w, a, fuel, r.tr);
      && (ra.o.Normal? ==> exns != [] && exns[0] == r.o.exn)
      && (ra.o.Raised? ==> exns != [] && exns[0] == ra.o.exn)
  {
    hide Exec, Flow, BeforeFlow, Sound, Before, Tidy, Neat, Clear, Follows;
    Pends(w, o, hs, fuel, m);
    var m1 := AtBody(w, o, hs, fuel, m);
    SoundFollow(w, a, fuel, m1, CLEAN);
    ExactStart(Flow(w, a, fuel, m1), Exec(w, a, fuel, m1.tr), m1);
  }

  /**
   `try: raise e finally: (try: (try: raise a except: raise b) except: discard)`: the
   proc ends with `a` as the current exception.
   */
  lemma WrongException(w: World, e: Exn, a: Exn, b: Exn, m: Mem)
    requires Neat(w) && !m.err
    ensures Right(w, Try(Raise(e), NoHandler, Fin(TryExcept(TryExcept(Raise(a), All, Raise(b)), All, Skip))), m)
      <==> a == e
  {
    hide Right, HandlerReplaces;
    UntidyFits(e, a, b);
    ReplacedInHandler(w, Raise(e), NoHandler, Raise(a), All, Raise(b), All, Skip, m);
    forall fuel: nat
      ensures HandlerReplaces(w, Raise(e), NoHandler, Raise(a), All, Raise(b), All, Skip, fuel, m.tr) <==> a != e
    {
      UntidyReplaces(w, e, a, b, fuel, m.tr);
    }
    assert HandlerReplaces(w, Raise(e), NoHandler, Raise(a), All, Raise(b), All, Skip, 0, m.tr) <==> a != e;
  }

  lemma UntidyReplaces(w: World, e: Exn, a: Exn, b: Exn, fuel: nat, tr: Trace)
    ensures HandlerReplaces(w, Raise(e), NoHandler, Raise(a), All, Raise(b), All, Skip, fuel, tr) <==> a != e
  {
    hide Before;
    RaisePends(w, e, fuel, tr);
  }

  lemma UntidyFits(e: Exn, a: Exn, b: Exn)
    ensures var s := Try(Raise(e), NoHandler, Fin(TryExcept(TryExcept(Raise(a), All, Raise(b)), All, Skip)));
      Scoped(s) && Free(s) == {}
    ensures Sound(Raise(e)) && SoundHandlers(NoHandler) && Sound(Raise(a)) && Sound(Raise(b)) && Sound(Skip)
      && CanRaise(Raise(a))
    ensures Tidy(Raise(a), CLEAN) && Tidy(Raise(b), CLEAN) && Tidy(Skip, TIDY)
  {
    var x := TryExcept(Raise(a), All, Raise(b));
    var f := TryExcept(x, All, Skip);
    NoHandlers();
    OneHandler(All, Raise(b));
    TryIs(Raise(a), Handler(All, Raise(b), NoHandler), NoFin);
    OneHandler(All, Skip);
    TryIs(x, Handler(All, Skip, NoHandler), NoFin);
    FinIs(f);
    TryIs(Raise(e), NoHandler, Fin(f));
  }

  /** A sound proc that is right, but leaves `a` on the stack: its callers' world is not neat. */
  lemma SoundButUntidy(w: World, a: Exn, b: Exn, fuel: nat, m: Mem)
    requires !m.err
    ensures var s := TryExcept(TryExcept(Raise(a), All, Raise(b)), All, Skip);
      Sound(s) && !Tidy(s, TIDY) && Flow(w, s, fuel, m) == Out(Falls, m.(exns := [a] + m.exns))
  {
    UntidyFits(a, a, b);
    var x := TryExcept(Raise(a), All, Raise(b));
    NestedIsSound(Raise(a), All, Raise(b));
    NestedIsSound(x, All, Skip);
    OneHandler(All, Raise(b));
    TryIs(Raise(a), Handler(All, Raise(b), NoHandler), NoFin);
    TryIs(x, Handler(All, Skip, NoHandler), NoFin);
    assert [b] + ([a] + m.exns) == [b, a] + m.exns;
    assert ([b] + ([a] + m.exns))[1..] == [a] + m.exns;
    var m1 := Mem(true, [a] + m.exns, m.tr);
    var m2 := Mem(true, [b] + ([a] + m.exns), m.tr);
    assert Flow(w, Raise(a), fuel, m) == Out(Jumps, m1);
    assert Flow(w, Raise(b), fuel, m1.(err := false)) == Out(Jumps, m2);
    assert FlowHandled(w, Handler(All, Raise(b), NoHandler), fuel, Out(Jumps, m1)) == Out(Falls, m2);
    assert Flow(w, x, fuel, m) == Out(Jumps, m2);
  }
}
