/**
 The structured statements that goto-based exception handling compiles
 (compiler/ccgstmts.nim), with the meaning they are intended to have.
 */
module TryLang {
  import opened Basics

  /** An exception: its dynamic type and its identity. */
  datatype Exn = Exn(kind: nat, tag: nat)

  datatype Stmt =
    | Skip
    | Call(id: nat, canRaise: bool)
    | Raise(exn: Exn)
    | Seq(first: Stmt, second: Stmt)
    | If(cond: nat, thn: Stmt, els: Stmt)
    | While(cond: nat, lbl: nat, body: Stmt)
    | Block(lbl: nat, body: Stmt)
    | Break(lbl: nat)
    | Return
    | Try(body: Stmt, handlers: Handlers, fin: Fin)

  /** `except` lists types, or none for a general handler. */
  type Types = ks: seq<nat> | |ks| > 0 witness [0]
  datatype Kinds = All | Only(kinds: Types)
  datatype Handlers = NoHandler | Handler(kinds: Kinds, body: Stmt, rest: Handlers)
  datatype Fin = NoFin | Fin(body: Stmt)

  /** What a run does that can be observed. */
  datatype Event = Called(id: nat) | Tested(cond: nat, result: bool)
  type Trace = seq<Event>

  /**
   The unknown surroundings of a run: what called procs raise, how conditions
   evaluate (both may depend on all that happened before) and the subtype test.
   What a called proc leaves behind on the runtime's stack of current exceptions,
   apart from the one it raises, matters only to the generated code.
   */
  datatype World = World(
    raises: (nat, Trace) -> Option<Exn>,
    leaves: (nat, Trace) -> seq<Exn>,
    test: (nat, Trace) -> bool,
    isObj: (nat, nat) -> bool)

  /** Called procs leave the stack of current exceptions as they found it. */
  ghost predicate Neat(w: World) {
    forall id, tr :: w.leaves(id, tr) == []
  }

  predicate Catches(w: World, k: Kinds, e: Exn) {
    match k
    case All => true
    case Only(ks) => exists i :: 0 <= i < |ks| && w.isObj(e.kind, ks[i])
  }

  datatype Outcome = Normal | Raised(exn: Exn) | Broke(lbl: nat) | Returned | Timeout
  datatype Res = Res(o: Outcome, tr: Trace)

  /** Structured semantics; `fuel` bounds the iterations of every loop. */
  function Exec(w: World, s: Stmt, fuel: nat, tr: Trace): Res
    decreases s, 1
  {
    match s
    case Skip => Res(Normal, tr)
    case Call(id, canRaise) =>
      var t := tr + [Called(id)];
      if canRaise && w.raises(id, t).Some? then Res(Raised(w.raises(id, t).value), t) else Res(Normal, t)
    case Raise(e) => Res(Raised(e), tr)
    case Seq(a, b) =>
      var r := Exec(w, a, fuel, tr);
      if r.o.Normal? then Exec(w, b, fuel, r.tr) else r
    case If(c, a, b) =>
      var t := tr + [Tested(c, w.test(c, tr))];
      if w.test(c, tr) then Exec(w, a, fuel, t) else Exec(w, b, fuel, t)
    case While(_, _, _) => Loop(w, s, fuel, fuel, tr)
    case Block(l, b) =>
      var r := Exec(w, b, fuel, tr);
      if r.o == Broke(l) then Res(Normal, r.tr) else r
    case Break(l) => Res(Broke(l), tr)
    case Return => Res(Returned, tr)
    case Try(b, hs, f) =>
      var r := Exec(w, b, fuel, tr);
      Finish(w, f, fuel, if r.o.Raised? then Handle(w, hs, r.o.exn, fuel, r.tr) else r)
  }

  /** A `while` loop with `iters` iterations left. */
  function Loop(w: World, s: Stmt, fuel: nat, iters: nat, tr: Trace): Res
    requires s.While?
    decreases s, 0, iters
  {
    if iters == 0 then Res(Timeout, tr)
    else
      var go := w.test(s.cond, tr);
      var t := tr + [Tested(s.cond, go)];
      if !go then Res(Normal, t)
      else
        var r := Exec(w, s.body, fuel, t);
        if r.o.Normal? then Loop(w, s, fuel, iters - 1, r.tr)
        else if r.o == Broke(s.lbl) then Res(Normal, r.tr)
        else r
  }

  /** The first matching handler runs; without one the exception stays raised. */
  function Handle(w: World, hs: Handlers, e: Exn, fuel: nat, tr: Trace): Res
    decreases hs
  {
    match hs
    case NoHandler => Res(Raised(e), tr)
    case Handler(k, b, rest) =>
      if Catches(w, k, e) then Exec(w, b, fuel, tr) else Handle(w, rest, e, fuel, tr)
  }

  /** `finally` runs however the rest ended; only its own exit, if any, takes precedence. */
  function Finish(w: World, f: Fin, fuel: nat, r: Res): Res
    decreases f
  {
    if r.o.Timeout? || f.NoFin? then r
    else
      var g := Exec(w, f.body, fuel, r.tr);
      if g.o.Normal? then Res(r.o, g.tr) else g
  }

  // ---------- static notions ----------

  /** `bodyCanRaise`. */
  predicate CanRaise(s: Stmt) {
    match s
    case Skip => false
    case Call(_, c) => c
    case Raise(_) => true
    case Seq(a, b) => CanRaise(a) || CanRaise(b)
    case If(_, a, b) => CanRaise(a) || CanRaise(b)
    case While(_, _, b) => CanRaise(b)
    case Block(_, b) => CanRaise(b)
    case Break(_) => false
    case Return => false
    case Try(b, hs, f) => CanRaise(b) || HandlersCanRaise(hs) || FinCanRaise(f)
  }

  predicate HandlersCanRaise(hs: Handlers) {
    hs.Handler? && (CanRaise(hs.body) || HandlersCanRaise(hs.rest))
  }

  predicate FinCanRaise(f: Fin) {
    f.Fin? && CanRaise(f.body)
  }

  /** The calls and raises anywhere in `s`. */
  function Actions(s: Stmt): set<Stmt> {
    match s
    case Call(_, _) => {s}
    case Raise(_) => {s}
    case Seq(a, b) => Actions(a) + Actions(b)
    case If(_, a, b) => Actions(a) + Actions(b)
    case While(_, _, b) => Actions(b)
    case Block(_, b) => Actions(b)
    case Try(b, hs, f) => Actions(b) + HandlersActions(hs) + if f.Fin? then Actions(f.body) else {}
    case _ => {}
  }

  function HandlersActions(hs: Handlers): set<Stmt> {
    if hs.NoHandler? then {} else Actions(hs.body) + HandlersActions(hs.rest)
  }

  ghost predicate Raiser(s: Stmt) {
    s.Raise? || (s.Call? && s.canRaise)
  }

  /** A body can raise if and only if there is a raise in it or a call of a proc that can. */
  lemma {:induction false} CanRaiseIff(s: Stmt)
    ensures CanRaise(s) <==> exists x :: x in Actions(s) && Raiser(x)
  {
    match s
    case Call(_, _) => assert s in Actions(s) && (Raiser(s) <==> CanRaise(s));
    case Raise(_) => assert s in Actions(s) && Raiser(s);
    case Seq(a, b) =>
      CanRaiseIff(a);
      CanRaiseIff(b);
    case If(_, a, b) =>
      CanRaiseIff(a);
      CanRaiseIff(b);
    case While(_, _, b) => CanRaiseIff(b);
    case Block(_, b) => CanRaiseIff(b);
    case Try(b, hs, f) =>
      CanRaiseIff(b);
      HandlersRaiseIff(hs);
      if f.Fin? {
        CanRaiseIff(f.body);
      }
    case _ =>
  }

  lemma {:induction false} HandlersRaiseIff(hs: Handlers)
    ensures HandlersCanRaise(hs) <==> exists x :: x in HandlersActions(hs) && Raiser(x)
  {
    if hs.Handler? {
      CanRaiseIff(hs.body);
      HandlersRaiseIff(hs.rest);
    }
  }

  /** Labels that `s` may break to without declaring them. */
  function Free(s: Stmt): set<nat> {
    match s
    case Skip => {}
    case Call(_, _) => {}
    case Raise(_) => {}
    case Seq(a, b) => Free(a) + Free(b)
    case If(_, a, b) => Free(a) + Free(b)
    case While(_, l, b) => Free(b) - {l}
    case Block(l, b) => Free(b) - {l}
    case Break(l) => {l}
    case Return => {}
    case Try(b, hs, f) => Free(b) + FreeHandlers(hs) + FreeFin(f)
  }

  function FreeHandlers(hs: Handlers): set<nat> {
    if hs.NoHandler? then {} else Free(hs.body) + FreeHandlers(hs.rest)
  }

  function FreeFin(f: Fin): set<nat> {
    if f.NoFin? then {} else Free(f.body)
  }

  /** Labels declared inside `s`. */
  function Decl(s: Stmt): set<nat> {
    match s
    case Skip => {}
    case Call(_, _) => {}
    case Raise(_) => {}
    case Seq(a, b) => Decl(a) + Decl(b)
    case If(_, a, b) => Decl(a) + Decl(b)
    case While(_, l, b) => Decl(b) + {l}
    case Block(l, b) => Decl(b) + {l}
    case Break(_) => {}
    case Return => {}
    case Try(b, hs, f) => Decl(b) + DeclHandlers(hs) + DeclFin(f)
  }

  function DeclHandlers(hs: Handlers): set<nat> {
    if hs.NoHandler? then {} else Decl(hs.body) + DeclHandlers(hs.rest)
  }

  function DeclFin(f: Fin): set<nat> {
    if f.NoFin? then {} else Decl(f.body)
  }

  /** No `try` and nothing that raises. */
  predicate Straight(s: Stmt) {
    match s
    case Call(_, c) => !c
    case Raise(_) => false
    case Seq(a, b) => Straight(a) && Straight(b)
    case If(_, a, b) => Straight(a) && Straight(b)
    case While(_, _, b) => Straight(b)
    case Block(_, b) => Straight(b)
    case Try(_, _, _) => false
    case _ => true
  }

  predicate HasReturn(s: Stmt) {
    match s
    case Seq(a, b) => HasReturn(a) || HasReturn(b)
    case If(_, a, b) => HasReturn(a) || HasReturn(b)
    case While(_, _, b) => HasReturn(b)
    case Block(_, b) => HasReturn(b)
    case Return => true
    case Try(b, hs, f) => HasReturn(b) || HandlersReturn(hs) || (f.Fin? && HasReturn(f.body))
    case _ => false
  }

  predicate HandlersReturn(hs: Handlers) {
    hs.Handler? && (HasReturn(hs.body) || HandlersReturn(hs.rest))
  }

  /** Code that can only end normally or loop forever, whatever the error flag says. */
  predicate Plain(s: Stmt) {
    Straight(s) && !HasReturn(s) && Free(s) == {}
  }

  /** Symbols are unique: no block inside a `try` declares a label that its `finally` breaks to. */
  predicate Scoped(s: Stmt) {
    match s
    case Seq(a, b) => Scoped(a) && Scoped(b)
    case If(_, a, b) => Scoped(a) && Scoped(b)
    case While(_, _, b) => Scoped(b)
    case Block(_, b) => Scoped(b)
    case Try(b, hs, f) =>
      && Scoped(b) && ScopedHandlers(hs) && ScopedFin(f)
      && Decl(b) !! FreeFin(f) && DeclHandlers(hs) !! FreeFin(f)
    case _ => true
  }

  predicate ScopedHandlers(hs: Handlers) {
    hs.Handler? ==> Scoped(hs.body) && ScopedHandlers(hs.rest)
  }

  predicate ScopedFin(f: Fin) {
    f.Fin? ==> Scoped(f.body)
  }

  // ---------- what the static notions say about runs ----------

  /** Only free labels are broken to. */
  lemma {:induction false} BrokeIsFree(w: World, s: Stmt, fuel: nat, tr: Trace)
    ensures var o := Exec(w, s, fuel, tr).o; o.Broke? ==> o.lbl in Free(s)
    decreases s, 1
  {
    match s
    case Seq(a, b) =>
      BrokeIsFree(w, a, fuel, tr);
      BrokeIsFree(w, b, fuel, Exec(w, a, fuel, tr).tr);
    case If(c, a, b) =>
      BrokeIsFree(w, a, fuel, tr + [Tested(c, w.test(c, tr))]);
      BrokeIsFree(w, b, fuel, tr + [Tested(c, w.test(c, tr))]);
    case While(c, l, b) =>
      LoopBrokeIsFree(w, s, fuel, fuel, tr);
    case Block(l, b) =>
      BrokeIsFree(w, b, fuel, tr);
    case Try(b, hs, f) =>
      BrokeIsFree(w, b, fuel, tr);
      var r := Exec(w, b, fuel, tr);
      if r.o.Raised? {
        HandleBrokeIsFree(w, hs, r.o.exn, fuel, r.tr);
      }
      if f.Fin? {
        BrokeIsFree(w, f.body, fuel, (if r.o.Raised? then Handle(w, hs, r.o.exn, fuel, r.tr) else r).tr);
      }
    case _ =>
  }

  lemma {:induction false} LoopBrokeIsFree(w: World, s: Stmt, fuel: nat, iters: nat, tr: Trace)
    requires s.While?
    ensures var o := Loop(w, s, fuel, iters, tr).o; o.Broke? ==> o.lbl in Free(s)
    decreases s, 0, iters
  {
    if iters > 0 {
      var t := tr + [Tested(s.cond, w.test(s.cond, tr))];
      BrokeIsFree(w, s.body, fuel, t);
      LoopBrokeIsFree(w, s, fuel, iters - 1, Exec(w, s.body, fuel, t).tr);
    }
  }

  lemma {:induction false} HandleBrokeIsFree(w: World, hs: Handlers, e: Exn, fuel: nat, tr: Trace)
    ensures var o := Handle(w, hs, e, fuel, tr).o; o.Broke? ==> o.lbl in FreeHandlers(hs)
    decreases hs
  {
    if hs.Handler? {
      BrokeIsFree(w, hs.body, fuel, tr);
      HandleBrokeIsFree(w, hs.rest, e, fuel, tr);
    }
  }

  /** What cannot raise does not raise. */
  lemma {:induction false} QuietNeverRaises(w: World, s: Stmt, fuel: nat, tr: Trace)
    requires !CanRaise(s)
    ensures !Exec(w, s, fuel, tr).o.Raised?
    decreases s, 1
  {
    match s
    case Seq(a, b) =>
      QuietNeverRaises(w, a, fuel, tr);
      QuietNeverRaises(w, b, fuel, Exec(w, a, fuel, tr).tr);
    case If(c, a, b) =>
      QuietNeverRaises(w, a, fuel, tr + [Tested(c, w.test(c, tr))]);
      QuietNeverRaises(w, b, fuel, tr + [Tested(c, w.test(c, tr))]);
    case While(c, l, b) =>
      QuietLoop(w, s, fuel, fuel, tr);
    case Block(l, b) =>
      QuietNeverRaises(w, b, fuel, tr);
    case Try(b, hs, f) =>
      QuietNeverRaises(w, b, fuel, tr);
      if f.Fin? {
        QuietNeverRaises(w, f.body, fuel, Exec(w, b, fuel, tr).tr);
      }
    case _ =>
  }

  lemma {:induction false} QuietLoop(w: World, s: Stmt, fuel: nat, iters: nat, tr: Trace)
    requires s.While? && !CanRaise(s)
    ensures !Loop(w, s, fuel, iters, tr).o.Raised?
    decreases s, 0, iters
  {
    if iters > 0 {
      var t := tr + [Tested(s.cond, w.test(s.cond, tr))];
      QuietNeverRaises(w, s.body, fuel, t);
      QuietLoop(w, s, fuel, iters - 1, Exec(w, s.body, fuel, t).tr);
    }
  }

  lemma {:induction false} StraightIsQuiet(s: Stmt)
    requires Straight(s)
    ensures !CanRaise(s)
  {
    match s
    case Seq(a, b) =>
      StraightIsQuiet(a);
      StraightIsQuiet(b);
    case If(_, a, b) =>
      StraightIsQuiet(a);
      StraightIsQuiet(b);
    case While(_, _, b) => StraightIsQuiet(b);
    case Block(_, b) => StraightIsQuiet(b);
    case _ =>
  }

  /** Only a `return` returns. */
  lemma {:induction false} NeverReturns(w: World, s: Stmt, fuel: nat, tr: Trace)
    requires !HasReturn(s)
    ensures !Exec(w, s, fuel, tr).o.Returned?
    decreases s, 1
  {
    match s
    case Seq(a, b) =>
      NeverReturns(w, a, fuel, tr);
      NeverReturns(w, b, fuel, Exec(w, a, fuel, tr).tr);
    case If(c, a, b) =>
      NeverReturns(w, a, fuel, tr + [Tested(c, w.test(c, tr))]);
      NeverReturns(w, b, fuel, tr + [Tested(c, w.test(c, tr))]);
    case While(c, l, b) =>
      LoopNeverReturns(w, s, fuel, fuel, tr);
    case Block(l, b) =>
      NeverReturns(w, b, fuel, tr);
    case Try(b, hs, f) =>
      NeverReturns(w, b, fuel, tr);
      var r := Exec(w, b, fuel, tr);
      if r.o.Raised? {
        HandleNeverReturns(w, hs, r.o.exn, fuel, r.tr);
      }
      if f.Fin? {
        NeverReturns(w, f.body, fuel, (if r.o.Raised? then Handle(w, hs, r.o.exn, fuel, r.tr) else r).tr);
      }
    case _ =>
  }

  lemma {:induction false} LoopNeverReturns(w: World, s: Stmt, fuel: nat, iters: nat, tr: Trace)
    requires s.While? && !HasReturn(s)
    ensures !Loop(w, s, fuel, iters, tr).o.Returned?
    decreases s, 0, iters
  {
    if iters > 0 {
      var t := tr + [Tested(s.cond, w.test(s.cond, tr))];
      NeverReturns(w, s.body, fuel, t);
      LoopNeverReturns(w, s, fuel, iters - 1, Exec(w, s.body, fuel, t).tr);
    }
  }

  lemma {:induction false} HandleNeverReturns(w: World, hs: Handlers, e: Exn, fuel: nat, tr: Trace)
    requires !HandlersReturn(hs)
    ensures !Handle(w, hs, e, fuel, tr).o.Returned?
    decreases hs
  {
    if hs.Handler? {
      NeverReturns(w, hs.body, fuel, tr);
      HandleNeverReturns(w, hs.rest, e, fuel, tr);
    }
  }

  lemma PlainEnds(w: World, s: Stmt, fuel: nat, tr: Trace)
    requires Plain(s)
    ensures var o := Exec(w, s, fuel, tr).o; o.Normal? || o.Timeout?
  {
    StraightIsQuiet(s);
    QuietNeverRaises(w, s, fuel, tr);
    BrokeIsFree(w, s, fuel, tr);
    NeverReturns(w, s, fuel, tr);
  }

  /** More fuel changes nothing once a run has ended. */
  lemma {:induction false} ExecMore(w: World, s: Stmt, fuel: nat, more: nat, tr: Trace)
    requires fuel <= more && !Exec(w, s, fuel, tr).o.Timeout?
    ensures Exec(w, s, more, tr) == Exec(w, s, fuel, tr)
    decreases s, 1
  {
    match s
    case Seq(a, b) =>
      ExecMore(w, a, fuel, more, tr);
      var r := Exec(w, a, fuel, tr);
      if r.o.Normal? {
        ExecMore(w, b, fuel, more, r.tr);
      }
    case If(c, a, b) =>
      var go := w.test(c, tr);
      ExecMore(w, if go then a else b, fuel, more, tr + [Tested(c, go)]);
    case While(c, l, b) =>
      LoopMore(w, s, fuel, fuel, more, more, tr);
    case Block(l, b) =>
      ExecMore(w, b, fuel, more, tr);
    case Try(b, hs, f) =>
      var r := Exec(w, b, fuel, tr);
      ExecMore(w, b, fuel, more, tr);
      if r.o.Raised? {
        HandleMore(w, hs, r.o.exn, fuel, more, r.tr);
      }
      if f.Fin? {
        ExecMore(w, f.body, fuel, more, (if r.o.Raised? then Handle(w, hs, r.o.exn, fuel, r.tr) else r).tr);
      }
    case _ =>
  }

  lemma {:induction false} LoopMore(w: World, s: Stmt, fuel: nat, iters: nat, more: nat, iters': nat, tr: Trace)
    requires s.While? && fuel <= more && iters <= iters' && !Loop(w, s, fuel, iters, tr).o.Timeout?
    ensures Loop(w, s, more, iters', tr) == Loop(w, s, fuel, iters, tr)
    decreases s, 0, iters
  {
    var go := w.test(s.cond, tr);
    if go {
      var t := tr + [Tested(s.cond, go)];
      ExecMore(w, s.body, fuel, more, t);
      var r := Exec(w, s.body, fuel, t);
      if r.o.Normal? {
        LoopMore(w, s, fuel, iters - 1, more, iters' - 1, r.tr);
      }
    }
  }

  lemma {:induction false} HandleMore(w: World, hs: Handlers, e: Exn, fuel: nat, more: nat, tr: Trace)
    requires fuel <= more && !Handle(w, hs, e, fuel, tr).o.Timeout?
    ensures Handle(w, hs, e, more, tr) == Handle(w, hs, e, fuel, tr)
    decreases hs
  {
    if hs.Handler? {
      if Catches(w, hs.kinds, e) {
        ExecMore(w, hs.body, fuel, more, tr);
      } else {
        HandleMore(w, hs.rest, e, fuel, more, tr);
      }
    }
  }
}
