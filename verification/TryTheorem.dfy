/**
 Goto-based exception code on whole procs: what it does for every program, and when
 this is what was written.
 */
module TryTheorem {
  import opened Basics
  import opened TryLang
  import opened TryCode
  import opened TryFlow
  import opened TrySim
  import opened TryProof
  import opened TryQuiet
  import opened TryFollow
  import opened TrySound

  // ---------- the code of a proc ----------

  ghost function Top(w: World, s: Stmt, fuel: nat): Site {
    Site(w, Compile(s), Between(0, GenStmt(s, Empty, map[], 0).labels) + {0}, fuel, fuel, Empty, map[], 0)
  }

  /** A proc is entered with the exceptions of its callers on the stack. */
  function Begin(m: Mem): State {
    State(0, m.err, m.exns, map[], m.tr)
  }

  lemma TopFits(w: World, s: Stmt, fuel: nat, m: Mem)
    requires Scoped(s) && Free(s) == {}
    ensures Pre(Top(w, s, fuel), s, Begin(m))
    ensures At(Compile(s), |GenStmt(s, Empty, map[], 0).code|, [CLabel(BeforeRet)])
  {
    hide Labels, GenStmt;
    CompiledLabels(s);
    var code := GenStmt(s, Empty, map[], 0).code;
    assert At(Compile(s), 0, code + [CLabel(BeforeRet)]);
    AtSplit(Compile(s), 0, code, [CLabel(BeforeRet)]);
  }

  /** What `TryFlow` says the proc leaves behind, for a given bound on loop iterations. */
  function Ends(w: World, s: Stmt, fuel: nat, m: Mem): Option<Mem> {
    Final(Flow(w, s, fuel, m))
  }

  function RunOf(w: World, s: Stmt, m: Mem, k: nat): State {
    Run(w, Compile(s), Begin(m), k)
  }

  /** One run of a proc. */
  lemma CompiledRun(w: World, s: Stmt, fuel: nat, m: Mem) returns (k: nat)
    requires Scoped(s) && Free(s) == {}
    ensures var b := RunOf(w, s, m, k);
      if Ends(w, s, fuel, m).None? then k >= fuel && !Halted(Compile(s), b)
      else Halted(Compile(s), b) && MemOf(b) == Ends(w, s, fuel, m).value
  {
    hide Run, Flow, GenStmt, Compile, At, Labels, Find, SameSaved;
    var c := Top(w, s, fuel);
    TopFits(w, s, fuel, m);
    CompiledLabels(s);
    var p := Compile(s);
    var pcEnd := |GenStmt(s, Empty, map[], 0).code|;
    FindHere(c, pcEnd, BeforeRet);
    AtLine(p, pcEnd, [CLabel(BeforeRet)], 0);
    CompiledLength(s);
    var k1 := SimStmt(c, s, Begin(m));
    var b := RunOf(w, s, m, k1);
    BreaksIsFree(w, s, fuel, m);
    if Ends(w, s, fuel, m).None? {
      k := k1;
    } else {
      OneStep(w, p, b);
      StepLabel(c, b);
      RunAdd(w, p, Begin(m), k1, 1);
      k := k1 + 1;
    }
  }

  lemma CompiledLength(s: Stmt)
    ensures |Compile(s)| == |GenStmt(s, Empty, map[], 0).code| + 1
  {
  }

  lemma {:induction false} HaltedStays(w: World, p: Code, s: State, k: nat)
    requires Halted(p, s)
    ensures Run(w, p, s, k) == s
    decreases k
  {
    if k > 0 {
      HaltedStays(w, p, s, k - 1);
    }
  }

  lemma SameHalt(w: World, s: Stmt, m: Mem, k: nat, k': nat)
    requires Halted(Compile(s), RunOf(w, s, m, k)) && Halted(Compile(s), RunOf(w, s, m, k'))
    ensures RunOf(w, s, m, k') == RunOf(w, s, m, k)
  {
    hide Run;
    var p := Compile(s);
    var lo, hi := if k <= k' then k else k', if k <= k' then k' else k;
    RunAdd(w, p, Begin(m), lo, hi - lo);
    HaltedStays(w, p, RunOf(w, s, m, lo), hi - lo);
  }

  ghost predicate Halts(w: World, s: Stmt, m: Mem) {
    exists k: nat :: Halted(Compile(s), RunOf(w, s, m, k))
  }

  ghost predicate FlowEnds(w: World, s: Stmt, m: Mem) {
    exists fuel: nat :: Ends(w, s, fuel, m).Some?
  }

  /** Halting after `k` steps, the code has done what `TryFlow` says with more than `k` iterations. */
  lemma HaltedFlow(w: World, s: Stmt, m: Mem, k: nat, fuel: nat)
    requires Scoped(s) && Free(s) == {} && Halted(Compile(s), RunOf(w, s, m, k)) && fuel > k
    ensures Ends(w, s, fuel, m) == Some(MemOf(RunOf(w, s, m, k)))
  {
    hide Run, Ends, Compile;
    var p := Compile(s);
    var k' := CompiledRun(w, s, fuel, m);
    if Ends(w, s, fuel, m).None? {
      RunAdd(w, p, Begin(m), k, k' - k);
      HaltedStays(w, p, RunOf(w, s, m, k), k' - k);
    }
    SameHalt(w, s, m, k, k');
  }

  /**
   The code of every proc does exactly what `TryFlow` says, in whatever state it is
   entered: it halts if and only if that ends, with the same error flag, the same
   exceptions on the runtime's stack and the same calls and tests made.
   */
  lemma CodeIsFlow(w: World, s: Stmt, m: Mem)
    requires Scoped(s) && Free(s) == {}
    ensures Halts(w, s, m) <==> FlowEnds(w, s, m)
    ensures forall fuel: nat, k: nat ::
      Ends(w, s, fuel, m).Some? && Halted(Compile(s), RunOf(w, s, m, k)) ==>
      MemOf(RunOf(w, s, m, k)) == Ends(w, s, fuel, m).value
  {
    hide Run, RunOf, Ends, Compile;
    if FlowEnds(w, s, m) {
      var fuel: nat :| Ends(w, s, fuel, m).Some?;
      var k := CompiledRun(w, s, fuel, m);
      assert Halted(Compile(s), RunOf(w, s, m, k));
    }
    forall k: nat | Halted(Compile(s), RunOf(w, s, m, k)) ensures FlowEnds(w, s, m) {
      HaltedFlow(w, s, m, k, k + 1);
    }
    forall fuel: nat, k: nat | Ends(w, s, fuel, m).Some? && Halted(Compile(s), RunOf(w, s, m, k))
      ensures MemOf(RunOf(w, s, m, k)) == Ends(w, s, fuel, m).value
    {
      var k' := CompiledRun(w, s, fuel, m);
      SameHalt(w, s, m, k, k');
    }
  }

  // ---------- being right ----------

  /** The proc was left the way the structured semantics says. */
  ghost predicate SameEnd(m: Mem, r: Res) {
    m.tr == r.tr && (m.err <==> r.o.Raised?) && (r.o.Raised? ==> m.exns != [] && m.exns[0] == r.o.exn)
  }

  ghost predicate Terminates(w: World, s: Stmt, tr: Trace) {
    exists fuel: nat :: !Exec(w, s, fuel, tr).o.Timeout?
  }

  /**
   The code means what was written: it halts exactly when the structured run
   terminates; it has then made the same calls and tests in the same order and leaves
   the proc in the same way: normally or by return with the error flag off, or with
   the flag on and the same exception on top of the runtime's stack.
   */
  ghost predicate Right(w: World, s: Stmt, m: Mem) {
    && (Halts(w, s, m) <==> Terminates(w, s, m.tr))
    && forall fuel: nat, k: nat ::
         !Exec(w, s, fuel, m.tr).o.Timeout? && Halted(Compile(s), RunOf(w, s, m, k)) ==>
         SameEnd(MemOf(RunOf(w, s, m, k)), Exec(w, s, fuel, m.tr))
  }

  /** The same, said of the two semantics. */
  ghost predicate SameMeaning(w: World, s: Stmt, m: Mem) {
    && (FlowEnds(w, s, m) <==> Terminates(w, s, m.tr))
    && forall fuel: nat :: !Differs(w, s, fuel, m)
  }

  /** Both runs end, in different ways. */
  ghost predicate Differs(w: World, s: Stmt, fuel: nat, m: Mem) {
    var r, o := Exec(w, s, fuel, m.tr), Ends(w, s, fuel, m);
    o.Some? && !r.o.Timeout? && !SameEnd(o.value, r)
  }

  /** For every proc, the code is right if and only if `TryFlow` agrees with the structured semantics. */
  lemma RightIff(w: World, s: Stmt, m: Mem)
    requires Scoped(s) && Free(s) == {}
    ensures Right(w, s, m) <==> SameMeaning(w, s, m)
  {
    hide Run, RunOf, Exec, Compile, Ends, SameEnd;
    CodeIsFlow(w, s, m);
    if Right(w, s, m) {
      forall fuel: nat ensures !Differs(w, s, fuel, m) {
        if Differs(w, s, fuel, m) {
          var k := CompiledRun(w, s, fuel, m);
        }
      }
    } else if SameMeaning(w, s, m) {
      forall fuel: nat, k: nat
        | !Exec(w, s, fuel, m.tr).o.Timeout? && Halted(Compile(s), RunOf(w, s, m, k))
        ensures SameEnd(MemOf(RunOf(w, s, m, k)), Exec(w, s, fuel, m.tr))
      {
        var more := fuel + k + 1;
        HaltedFlow(w, s, m, k, more);
        ExecMore(w, s, fuel, more, m.tr);
        assert !Differs(w, s, more, m);
      }
    }
  }

  /** Right as far as `fuel` goes. */
  ghost predicate RightFor(w: World, s: Stmt, fuel: nat, m: Mem) {
    var r, o := Exec(w, s, fuel, m.tr), Ends(w, s, fuel, m);
    if r.o.Timeout? then o.None? else o.Some? && SameEnd(o.value, r)
  }

  lemma RightIf(w: World, s: Stmt, m: Mem)
    requires Scoped(s) && Free(s) == {} && forall fuel: nat :: RightFor(w, s, fuel, m)
    ensures Right(w, s, m)
  {
    hide Exec, Ends, SameEnd, Right;
    RightIff(w, s, m);
    assert forall fuel: nat :: Exec(w, s, fuel, m.tr).o.Timeout? <==> Ends(w, s, fuel, m).None? by {
      forall fuel: nat ensures Exec(w, s, fuel, m.tr).o.Timeout? <==> Ends(w, s, fuel, m).None? {
        assert RightFor(w, s, fuel, m);
      }
    }
    forall fuel: nat ensures !Differs(w, s, fuel, m) {
      assert RightFor(w, s, fuel, m);
    }
  }

  lemma WrongAt(w: World, s: Stmt, fuel: nat, m: Mem)
    requires Scoped(s) && Free(s) == {} && Differs(w, s, fuel, m)
    ensures !Right(w, s, m)
  {
    hide Exec, Ends, SameEnd, Right;
    RightIff(w, s, m);
  }

  lemma FollowsRight(w: World, s: Stmt, fuel: nat, m: Mem)
    requires Free(s) == {} && Follows(m, Flow(w, s, fuel, m), Exec(w, s, fuel, m.tr), Loose)
    ensures RightFor(w, s, fuel, m)
  {
    hide Flow, Exec, Kept;
    BrokeIsFree(w, s, fuel, m.tr);
    var o := Flow(w, s, fuel, m);
    if o.x.Returns? {
      KeptFits(m, o, Exec(w, s, fuel, m.tr));
    }
  }

  lemma KeptFits(m: Mem, o: Out, r: Res)
    requires Follows(m, o, r, Loose) && o.x.Returns?
    ensures o.x.pops <= |o.m.exns|
  {
    hide Extends;
  }

  /**
   In every world, whatever called procs leave on the stack: the code of a proc is right
   if every `finally` that it reaches with an exception in flight hands it on, wherever it
   stands. `TryFollow.FollowsIff` says that this is exact for each `try`.
   */
  lemma MeetsRight(w: World, s: Stmt, m: Mem)
    requires Scoped(s) && Free(s) == {} && !m.err && forall fuel: nat :: Meets(w, s, fuel, m)
    ensures Right(w, s, m)
  {
    hide Right, RightFor, Meets;
    forall fuel: nat ensures RightFor(w, s, fuel, m) {
      LooseTidy(s);
      Follow(w, s, fuel, m, Loose);
      FollowsRight(w, s, fuel, m);
    }
    RightIf(w, s, m);
  }

  /** After a part that ends normally, what matters is whether the rest is right from there. */
  lemma RightAfter(w: World, a: Stmt, s: Stmt, fuel: nat, m: Mem)
    requires Scoped(Seq(a, s)) && Free(Seq(a, s)) == {} && !m.err && Meets(w, a, fuel, m)
    requires Exec(w, a, fuel, m.tr).o.Normal?
    ensures Right(w, Seq(a, s), m) <==> Right(w, s, Flow(w, a, fuel, m).m)
  {
    hide Right, Follows, Flow, Exec, SameEnd, Meets;
    var m1 := Flow(w, a, fuel, m).m;
    RightIff(w, Seq(a, s), m);
    RightIff(w, s, m1);
    forall more: nat | more >= fuel
      ensures Ends(w, Seq(a, s), more, m) == Ends(w, s, more, m1)
      ensures Exec(w, Seq(a, s), more, m.tr) == Exec(w, s, more, m1.tr)
    {
      SeqEnds(w, a, s, fuel, more, m);
    }
    if SameMeaning(w, s, m1) {
      SameFrom(w, s, m1, Seq(a, s), m, fuel);
    } else if SameMeaning(w, Seq(a, s), m) {
      SameFrom(w, Seq(a, s), m, s, m1, fuel);
    }
  }

  lemma SeqEnds(w: World, a: Stmt, s: Stmt, fuel: nat, more: nat, m: Mem)
    requires !m.err && Meets(w, a, fuel, m) && Exec(w, a, fuel, m.tr).o.Normal? && fuel <= more
    ensures var m1 := Flow(w, a, fuel, m).m;
      Ends(w, Seq(a, s), more, m) == Ends(w, s, more, m1) && Exec(w, Seq(a, s), more, m.tr) == Exec(w, s, more, m1.tr)
  {
    hide Kept, Meets;
    LooseTidy(a);
    Follow(w, a, fuel, m, Loose);
    FlowMore(w, a, fuel, more, m);
    ExecMore(w, a, fuel, more, m.tr);
  }

  /** Meaning is a matter of high bounds on the iterations only. */
  lemma SameFrom(w: World, s: Stmt, m: Mem, t: Stmt, m1: Mem, fuel: nat)
    requires forall more: nat | more >= fuel ::
      Ends(w, s, more, m) == Ends(w, t, more, m1) && Exec(w, s, more, m.tr) == Exec(w, t, more, m1.tr)
    requires SameMeaning(w, s, m)
    ensures SameMeaning(w, t, m1)
  {
    hide Exec, Differs, Ends;
    if FlowEnds(w, s, m) {
      var more := EndsLate(w, s, m, fuel);
      assert Ends(w, t, more, m1).Some?;
    }
    if FlowEnds(w, t, m1) {
      var more := EndsLate(w, t, m1, fuel);
      assert Ends(w, s, more, m).Some?;
    }
    if Terminates(w, s, m.tr) {
      var more := TerminatesLate(w, s, m.tr, fuel);
      assert !Exec(w, t, more, m1.tr).o.Timeout?;
    }
    if Terminates(w, t, m1.tr) {
      var more := TerminatesLate(w, t, m1.tr, fuel);
      assert !Exec(w, s, more, m.tr).o.Timeout?;
    }
    forall some: nat ensures !Differs(w, t, some, m1) {
      if Differs(w, t, some, m1) {
        DiffersLate(w, t, some, some + fuel, m1);
        SameDiffers(w, s, m, t, m1, some + fuel);
      }
    }
  }

  lemma SameDiffers(w: World, s: Stmt, m: Mem, t: Stmt, m1: Mem, fuel: nat)
    requires Ends(w, s, fuel, m) == Ends(w, t, fuel, m1) && Exec(w, s, fuel, m.tr) == Exec(w, t, fuel, m1.tr)
    ensures Differs(w, s, fuel, m) <==> Differs(w, t, fuel, m1)
  {
    hide Exec, Ends, SameEnd;
  }

  lemma EndsLate(w: World, s: Stmt, m: Mem, fuel: nat) returns (more: nat)
    requires FlowEnds(w, s, m)
    ensures more >= fuel && Ends(w, s, more, m).Some?
  {
    hide Ends;
    var some: nat :| Ends(w, s, some, m).Some?;
    more := some + fuel;
    EndsMore(w, s, some, more, m);
  }

  lemma TerminatesLate(w: World, s: Stmt, tr: Trace, fuel: nat) returns (more: nat)
    requires Terminates(w, s, tr)
    ensures more >= fuel && !Exec(w, s, more, tr).o.Timeout?
  {
    hide Exec;
    var some: nat :| !Exec(w, s, some, tr).o.Timeout?;
    more := some + fuel;
    ExecMore(w, s, some, more, tr);
  }

  lemma DiffersLate(w: World, s: Stmt, fuel: nat, more: nat, m: Mem)
    requires fuel <= more && Differs(w, s, fuel, m)
    ensures Differs(w, s, more, m)
  {
    hide Exec, Ends, SameEnd;
    EndsMore(w, s, fuel, more, m);
    ExecMore(w, s, fuel, more, m.tr);
  }

  lemma EndsMore(w: World, s: Stmt, fuel: nat, more: nat, m: Mem)
    requires fuel <= more && Ends(w, s, fuel, m).Some?
    ensures Ends(w, s, more, m) == Ends(w, s, fuel, m)
  {
    hide Flow;
    FlowMore(w, s, fuel, more, m);
  }

  /**
   Goto-based exception code preserves the meaning of every sound proc, in every world in
   which called procs leave the stack of current exceptions alone.
   */
  lemma MeaningPreserved(w: World, s: Stmt, m: Mem)
    requires Scoped(s) && Sound(s) && Free(s) == {} && Neat(w) && !m.err
    ensures Right(w, s, m)
  {
    hide Right, Meets;
    forall fuel: nat ensures Meets(w, s, fuel, m) {
      SoundMeets(w, s, fuel, m);
    }
    MeetsRight(w, s, m);
  }

  // ---------- which handler runs ----------

  /** The `except` branches in order. */
  function Branches(hs: Handlers): seq<(Kinds, Stmt)> {
    if hs.NoHandler? then [] else [(hs.kinds, hs.body)] + Branches(hs.rest)
  }

  /** Branch `i` is the first that is general or lists a type of `e`. */
  ghost predicate TakenBy(w: World, hs: Handlers, e: Exn, i: nat) {
    var bs := Branches(hs);
    && i < |bs|
    && (bs[i].0.Only? ==> exists j :: 0 <= j < |bs[i].0.kinds| && w.isObj(e.kind, bs[i].0.kinds[j]))
    && forall k | 0 <= k < i ::
         bs[k].0.Only? && forall j | 0 <= j < |bs[k].0.kinds| :: !w.isObj(e.kind, bs[k].0.kinds[j])
  }

  /** No branch is general or lists a type of `e`. */
  ghost predicate TakenByNone(w: World, hs: Handlers, e: Exn) {
    var bs := Branches(hs);
    forall k | 0 <= k < |bs| ::
      bs[k].0.Only? && forall j | 0 <= j < |bs[k].0.kinds| :: !w.isObj(e.kind, bs[k].0.kinds[j])
  }

  /**
   `try: raise e except ...`: the first branch that fits runs, as written and in the code;
   without one the exception stays raised.
   */
  lemma {:induction false} FirstHandler(w: World, e: Exn, hs: Handlers, fuel: nat, m: Mem)
    requires !m.err
    ensures var s, m1 := Try(Raise(e), hs, NoFin), m.(exns := [e] + m.exns);
      var r, o := Exec(w, s, fuel, m.tr), Flow(w, s, fuel, m);
      && (forall i: nat | TakenBy(w, hs, e, i) ::
            && r == Exec(w, Branches(hs)[i].1, fuel, m.tr)
            && o == TryFollow.AtFin(HandlerEnd(Flow(w, Branches(hs)[i].1, fuel, m1))))
      && (TakenByNone(w, hs, e) ==> r == Res(Raised(e), m.tr) && o == Out(Jumps, m1.(err := true)))
  {
    var m1 := m.(err := true, exns := [e] + m.exns);
    HandlersTaken(w, e, hs, fuel, m1);
    TryFlows(w, Try(Raise(e), hs, NoFin), fuel, m);
    assert m1.(err := false) == m.(exns := [e] + m.exns);
  }

  lemma {:induction false} HandlersTaken(w: World, e: Exn, hs: Handlers, fuel: nat, m: Mem)
    requires m.err && m.exns != [] && m.exns[0] == e
    ensures forall i: nat | TakenBy(w, hs, e, i) ::
      && Handle(w, hs, e, fuel, m.tr) == Exec(w, Branches(hs)[i].1, fuel, m.tr)
      && FlowHandlers(w, hs, fuel, m) == HandlerEnd(Flow(w, Branches(hs)[i].1, fuel, m.(err := false)))
    ensures TakenByNone(w, hs, e) ==>
      Handle(w, hs, e, fuel, m.tr) == Res(Raised(e), m.tr) && FlowHandlers(w, hs, fuel, m) == Out(Falls, m)
  {
    hide Exec, Flow;
    if hs.Handler? {
      HandlersTaken(w, e, hs.rest, fuel, m);
      var bs := Branches(hs);
      assert bs[0] == (hs.kinds, hs.body) && bs[1..] == Branches(hs.rest);
      forall i: nat | TakenBy(w, hs, e, i)
        ensures Handle(w, hs, e, fuel, m.tr) == Exec(w, bs[i].1, fuel, m.tr)
        ensures FlowHandlers(w, hs, fuel, m) == HandlerEnd(Flow(w, bs[i].1, fuel, m.(err := false)))
      {
        if i > 0 {
          assert bs[i] == bs[1..][i - 1];
          TakenLater(w, hs, e, i);
        }
      }
      if TakenByNone(w, hs, e) {
        assert TakenByNone(w, hs.rest, e);
      }
    }
  }

  lemma TakenLater(w: World, hs: Handlers, e: Exn, i: nat)
    requires hs.Handler? && i > 0 && TakenBy(w, hs, e, i)
    ensures TakenBy(w, hs.rest, e, i - 1) && hs.kinds.Only? && !Catches(w, hs.kinds, e)
  {
    var bs, rest := Branches(hs), Branches(hs.rest);
    assert bs[0] == (hs.kinds, hs.body);
    assert forall k | 0 < k < |bs| :: bs[k] == rest[k - 1];
    forall k | 0 <= k < i - 1 ensures rest[k].0.Only?
      && forall j | 0 <= j < |rest[k].0.kinds| :: !w.isObj(e.kind, rest[k].0.kinds[j]) {
      assert bs[k + 1] == rest[k];
    }
  }

  /** The run of the code: it ends as the body of that handler does. */
  lemma FirstHandlerRuns(w: World, e: Exn, hs: Handlers, i: nat, fuel: nat, k: nat, m: Mem)
    requires Scoped(Try(Raise(e), hs, NoFin)) && Free(Try(Raise(e), hs, NoFin)) == {} && !m.err
    requires TakenBy(w, hs, e, i) && Halted(Compile(Try(Raise(e), hs, NoFin)), RunOf(w, Try(Raise(e), hs, NoFin), m, k))
    requires fuel > k
    ensures var o := TryFollow.AtFin(HandlerEnd(Flow(w, Branches(hs)[i].1, fuel, m.(exns := [e] + m.exns))));
      Final(o) == Some(MemOf(RunOf(w, Try(Raise(e), hs, NoFin), m, k)))
  {
    hide Run, RunOf, Compile, TakenBy, Flow, Exec, Branches;
    FirstHandler(w, e, hs, fuel, m);
    HaltedFlow(w, Try(Raise(e), hs, NoFin), m, k, fuel);
  }

  // ---------- what a proc leaves on the stack ----------

  /** The proc has taken off the stack what it has put there, but the exception that it raises. */
  ghost predicate Leaves(b: Mem, r: Res, m: Mem, x: Wish) {
    match r.o
    case Normal => b.exns == m.exns
    case Raised(e) => x.AtRaise() ==> b.exns == [e] + m.exns
    case Returned => x.AtReturn() ==> b.exns == m.exns
    case _ => true
  }

  /**
   A sound proc leaves the stack alone where its text is tidy: always when it ends
   normally, when it raises if `x.clean` and when it returns if `x.ret` is granted. So a
   proc that calls only such procs runs in a neat world.
   */
  lemma LeavesNothing(w: World, s: Stmt, m: Mem, x: Wish)
    requires Scoped(s) && Sound(s) && Free(s) == {} && Neat(w) && !m.err && x.Exact? && Tidy(s, x)
    ensures forall fuel: nat, k: nat ::
      !Exec(w, s, fuel, m.tr).o.Timeout? && Halted(Compile(s), RunOf(w, s, m, k)) ==>
      Leaves(MemOf(RunOf(w, s, m, k)), Exec(w, s, fuel, m.tr), m, x)
  {
    hide Run, RunOf, Exec, Compile, Ends, Leaves, Meets, Tidy;
    forall fuel: nat, k: nat
      | !Exec(w, s, fuel, m.tr).o.Timeout? && Halted(Compile(s), RunOf(w, s, m, k))
      ensures Leaves(MemOf(RunOf(w, s, m, k)), Exec(w, s, fuel, m.tr), m, x)
    {
      var more := fuel + k + 1;
      HaltedFlow(w, s, m, k, more);
      ExecMore(w, s, fuel, more, m.tr);
      SoundMeets(w, s, more, m);
      Follow(w, s, more, m, x);
      EndLeaves(w, s, more, m, x);
    }
  }

  lemma EndLeaves(w: World, s: Stmt, fuel: nat, m: Mem, x: Wish)
    requires Follows(m, Flow(w, s, fuel, m), Exec(w, s, fuel, m.tr), x) && x.Exact? && Ends(w, s, fuel, m).Some?
    ensures Leaves(Ends(w, s, fuel, m).value, Exec(w, s, fuel, m.tr), m, x)
  {
    hide Flow, Exec;
    var o, r := Flow(w, s, fuel, m), Exec(w, s, fuel, m.tr);
    if r.o.Raised? {
      assert o.m.exns == [o.m.exns[0]] + o.m.exns[1..];
    } else if r.o.Normal? {
      assert o.m.exns[0..] == o.m.exns;
    }
  }

  /** Clean-up followed by more clean-up, or guarded, is compiled rightly, whether it may fail or not. */
  lemma CleanUpIsRight(w: World, s: Stmt, c1: nat, c2: nat, m: Mem)
    requires Scoped(s) && Sound(s) && Free(s) == {} && Neat(w) && !m.err
    ensures Right(w, Try(s, NoHandler, Fin(Try(Call(c1, true), NoHandler, Fin(Call(c2, true))))), m)
    ensures Right(w, Try(s, NoHandler, Fin(Try(Call(c1, true), Handler(All, Call(c2, true), NoHandler), NoFin))), m)
    ensures Right(w, Try(s, NoHandler, Fin(Try(Call(c1, false), NoHandler, Fin(Call(c2, false))))), m)
  {
    hide Right;
    var f1 := Try(Call(c1, true), NoHandler, Fin(Call(c2, true)));
    var f2 := Try(Call(c1, true), Handler(All, Call(c2, true), NoHandler), NoFin);
    CallsAre(c1);
    CallsAre(c2);
    NoHandlers();
    TryIs(Call(c1, true), NoHandler, Fin(Call(c2, true)));
    TryIs(s, NoHandler, Fin(f1));
    FinIs(Call(c2, true));
    FinIs(f1);
    MeaningPreserved(w, Try(s, NoHandler, Fin(f1)), m);
    var hs := Handler(All, Call(c2, true), NoHandler);
    OneHandler(All, Call(c2, true));
    TryIs(Call(c1, true), hs, NoFin);
    TryIs(s, NoHandler, Fin(f2));
    FinIs(f2);
    MeaningPreserved(w, Try(s, NoHandler, Fin(f2)), m);
    QuietCleanUp(c1, c2);
    var f3 := Try(Call(c1, false), NoHandler, Fin(Call(c2, false)));
    TryIs(s, NoHandler, Fin(f3));
    FinIs(f3);
    MeaningPreserved(w, Try(s, NoHandler, Fin(f3)), m);
  }

  lemma QuietCleanUp(c1: nat, c2: nat)
    ensures var s := Try(Call(c1, false), NoHandler, Fin(Call(c2, false)));
      Calm(s) && Sound(s) && !CanRaise(s) && Scoped(s) && Free(s) == {}
  {
    NoHandlers();
    assert Plain(Call(c1, false)) && Plain(Call(c2, false));
    assert Calm(Call(c1, false)) && Calm(Call(c2, false));
    FinIs(Call(c2, false));
    TryIs(Call(c1, false), NoHandler, Fin(Call(c2, false)));
  }
}
