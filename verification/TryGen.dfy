/**
 The code generator as the compiler runs it: one `BProc` whose label counter,
 stack of blocks with their code sections and stack of enclosing `try`
 statements are updated in place (compiler/ccgstmts.nim). Every method is proved
 to append exactly what `TryCode.GenStmt` says and to restore both stacks.
 */
module TryGen {
  import opened Basics
  import opened TryLang
  import opened TryCode
  import opened TrySim

  /** The `try` stack as `p.nestedTryStmts` stores it: innermost last. */
  function Entries(st: TryStack): (r: seq<Entry>)
    ensures |r| == Depth(st)
  {
    if st.Empty? then [] else Entries(st.below) + [st.top]
  }

  /** `c` written to the section of the innermost block. */
  function Extended(ss: seq<Code>, c: Code): (r: seq<Code>)
    requires |ss| > 0
    ensures |r| == |ss|
  {
    var last := |ss| - 1;
    ss[last := ss[last] + c]
  }

  lemma ExtendedTwice(ss: seq<Code>, c: Code, d: Code)
    requires |ss| > 0
    ensures Extended(Extended(ss, c), d) == Extended(ss, c + d)
  {
    var last := |ss| - 1;
    assert (ss[last] + c) + d == ss[last] + (c + d);
  }

  lemma ExtendedNew(ss: seq<Code>, c: Code)
    ensures var r := Extended(ss + [[]], c);
      |r| == |ss| + 1 && r[|ss|] == c && r[..|ss|] == ss
  {
  }

  // ---------- labels that are declared once ----------

  function DeclStack(st: TryStack): set<nat> {
    if st.Empty? then {} else DeclFin(st.top.fin) + DeclStack(st.below)
  }

  /** A block symbol is declared once: not again inside its block, nor in a `finally` around it. */
  predicate Unique(s: Stmt) {
    match s
    case Seq(a, b) => Unique(a) && Unique(b)
    case If(_, a, b) => Unique(a) && Unique(b)
    case While(_, l, b) => l !in Decl(b) && Unique(b)
    case Block(l, b) => l !in Decl(b) && Unique(b)
    case Try(b, hs, f) =>
      && Unique(b) && UniqueHandlers(hs) && UniqueFin(f)
      && Decl(b) !! DeclFin(f) && DeclHandlers(hs) !! DeclFin(f)
    case _ => true
  }

  predicate UniqueHandlers(hs: Handlers) {
    hs.Handler? ==> Unique(hs.body) && UniqueHandlers(hs.rest)
  }

  predicate UniqueFin(f: Fin) {
    f.Fin? ==> Unique(f.body)
  }

  predicate UniqueStack(st: TryStack) {
    st.Push? ==>
      UniqueFin(st.top.fin) && DeclFin(st.top.fin) !! DeclStack(st.below) && UniqueStack(st.below)
  }

  /** The enclosing `try` statements are well-formed in `env`. */
  predicate StackReady(st: TryStack, env: Env) {
    UniqueStack(st) && StackFree(st) <= env.Keys && DeclStack(st) !! env.Keys
  }

  /** Every break in `s` has its block, and no block of `s` is open already. */
  predicate StmtReady(s: Stmt, st: TryStack, env: Env) {
    && Unique(s) && Free(s) <= env.Keys && Decl(s) !! env.Keys && Decl(s) !! DeclStack(st)
    && StackReady(st, env)
  }

  predicate FinReady(f: Fin, st: TryStack, env: Env) {
    && UniqueFin(f) && FreeFin(f) <= env.Keys && DeclFin(f) !! env.Keys && DeclFin(f) !! DeclStack(st)
    && StackReady(st, env)
  }

  predicate HandlersReady(hs: Handlers, f: Fin, st: TryStack, env: Env) {
    && UniqueHandlers(hs) && FreeHandlers(hs) <= env.Keys
    && DeclHandlers(hs) !! env.Keys && DeclHandlers(hs) !! DeclStack(st) && DeclHandlers(hs) !! DeclFin(f)
    && FinReady(f, st, env)
  }

  /** The blocks of `env` are open and their symbols say where. */
  predicate Fits(position: map<nat, nat>, blocks: seq<BlockInfo>, env: Env) {
    forall l | l in env ::
      l in position && 0 < position[l] <= |blocks| && blocks[position[l] - 1] == env[l]
  }

  /** Enclosing blocks are where they were. */
  predicate SamePositions(a: map<nat, nat>, b: map<nat, nat>, env: Env) {
    forall l | l in env :: l in a && l in b && a[l] == b[l]
  }

  lemma SamePositionsSelf(position: map<nat, nat>, blocks: seq<BlockInfo>, env: Env)
    requires Fits(position, blocks, env)
    ensures SamePositions(position, position, env)
  {
  }

  lemma SamePositionsTrans(a: map<nat, nat>, b: map<nat, nat>, c: map<nat, nat>, env: Env)
    requires SamePositions(a, b, env) && SamePositions(b, c, env)
    ensures SamePositions(a, c, env)
  {
  }

  function Reversed(s: seq<Entry>): (r: seq<Entry>)
    ensures |r| == |s|
  {
    if s == [] then [] else Reversed(s[1..]) + [s[0]]
  }

  lemma {:induction false} ReversedSnoc(s: seq<Entry>, e: Entry)
    ensures Reversed(s + [e]) == [e] + Reversed(s)
  {
    if s != [] {
      assert (s + [e])[1..] == s[1..] + [e];
      ReversedSnoc(s[1..], e);
    }
  }

  lemma ReversedNothing(s: seq<Entry>)
    ensures Reversed(s[|s|..]) == []
  {
  }

  lemma ReversedFrom(s: seq<Entry>, i: nat, before: seq<Entry>)
    requires i < |s|
    ensures before + Reversed(s[i + 1..]) + [s[i]] == before + Reversed(s[i..])
  {
    assert s[i..][1..] == s[i + 1..];
  }

  lemma {:induction false} PopsMore(n: nat)
    ensures Pops(n + 1) == Pops(n) + [CPop]
  {
    if n > 0 {
      PopsMore(n - 1);
    }
  }

  lemma ExtendedNothing(ss: seq<Code>)
    requires |ss| > 0
    ensures Extended(ss, []) == ss
  {
    var last := |ss| - 1;
    assert ss[last] + [] == ss[last];
  }

  // the equations of the code generator

  lemma SkipUnfold(st: TryStack, env: Env, n: nat)
    ensures GenStmt(Skip, st, env, n) == Gen([], n)
  {
  }

  lemma SeqUnfold(s: Stmt, st: TryStack, env: Env, n: nat)
    requires s.Seq?
    ensures var ga := GenStmt(s.first, st, env, n);
      var gb := GenStmt(s.second, st, env, ga.labels);
      GenStmt(s, st, env, n) == Gen(ga.code + gb.code, gb.labels)
  {
  }

  lemma IfUnfold(s: Stmt, st: TryStack, env: Env, n: nat)
    requires s.If?
    ensures var ga := GenStmt(s.thn, st, env, n + 4);
      var gb := GenStmt(s.els, st, env, ga.labels + 1);
      GenStmt(s, st, env, n) == Gen(IfCode(s.cond, n + 3, n + 1, ga.code, gb.code), gb.labels)
  {
  }

  lemma IfEmitted(ss: seq<Code>, c: nat, lelse: nat, lend: nat, thn: Code, els: Code)
    requires |ss| > 0
    ensures var b1 := Extended(ss, [CIfNotGoto(c, CodeLabel(lelse))] + thn);
      var b2 := Extended(b1, [CGoto(CodeLabel(lend)), CLabel(CodeLabel(lelse))]);
      Extended(Extended(b2, els), [CLabel(CodeLabel(lend))]) == Extended(ss, IfCode(c, lelse, lend, thn, els))
  {
    hide Extended;
    var first, mid, last := [CIfNotGoto(c, CodeLabel(lelse))] + thn,
      [CGoto(CodeLabel(lend)), CLabel(CodeLabel(lelse))], [CLabel(CodeLabel(lend))];
    ExtendedTwice(ss, first, mid);
    ExtendedTwice(ss, first + mid, els);
    ExtendedTwice(ss, (first + mid) + els, last);
    assert ((first + mid) + els) + last == first + ((mid + els) + last);
  }

  lemma BlockUnfold(s: Stmt, st: TryStack, env: Env, n: nat)
    requires s.Block?
    ensures var g := GenStmt(s.body, st, env[s.lbl := BlockInfo(n + 1, Depth(st), ExceptDepth(st))], n + 1);
      GenStmt(s, st, env, n) == Gen(g.code + [CLabel(BlockLabel(n + 1))], g.labels)
  {
  }

  lemma WhileUnfold(s: Stmt, st: TryStack, env: Env, n: nat)
    requires s.While?
    ensures var g := GenStmt(s.body, st, env[s.lbl := BlockInfo(n + 1, Depth(st), ExceptDepth(st))], n + 1);
      GenStmt(s, st, env, n) == Gen(WhileCode(s.cond, n + 1, g.code), g.labels)
  {
  }

  lemma BreakUnfold(l: nat, st: TryStack, env: Env, n: nat)
    requires l in env
    ensures var g := GenLeave(st, env[l].tryDepth, env, n);
      GenStmt(Break(l), st, env, n) ==
        Gen(g.code + (Pops(ExceptDepth(st) - env[l].exceptDepth) + [CGoto(BlockLabel(env[l].id))]), g.labels)
  {
  }

  lemma ReturnUnfold(st: TryStack, env: Env, n: nat)
    ensures var g := GenLeave(st, 0, env, n);
      GenStmt(Return, st, env, n) == Gen(g.code + (Pops(ExceptDepth(st)) + [CGoto(BeforeRet)]), g.labels)
  {
  }

  lemma TryUnfold(s: Stmt, st: TryStack, env: Env, n: nat, gb: Gen, gh: Gen, gf: Gen)
    requires s.Try?
    requires gb == GenStmt(s.body, Push(Entry(s.fin, false, n + 1), st), env, n + 1)
    requires gh == GenHandlers(s.handlers, s.fin, st, env, gb.labels + 1)
    requires gf == GenFin(s.fin, st, env, n + 1, gh.labels)
    ensures GenStmt(s, st, env, n) == Gen(gb.code + (HandlerSection(s.handlers, n + 1, gh.code) + gf.code), gf.labels)
  {
    TryIsGenTry(s, st, env, n);
    hide GenStmt, GenHandlers, GenFin;
  }

  lemma TryIsGenTry(s: Stmt, st: TryStack, env: Env, n: nat)
    requires s.Try?
    ensures GenStmt(s, st, env, n) == GenTry(s.body, s.handlers, s.fin, st, env, n)
  {
  }

  lemma HandlersUnfold(hs: Handlers, f: Fin, st: TryStack, env: Env, n: nat)
    ensures GenHandlers(hs, f, st, env, n) ==
      if hs.NoHandler? then Gen([], n)
      else
        var gb := GenStmt(hs.body, Push(Entry(f, true, n + 1), st), env, n + 2);
        var gr := GenHandlers(hs.rest, f, st, env, gb.labels);
        Gen(HandlerCode(hs.kinds, gb.code, n + 1, |gr.code|) + gr.code, gr.labels)
  {
  }

  lemma HandlerUnfold(kinds: Kinds, code: Code, next: nat, rest: nat)
    ensures var chain := HandlerBody(code, next) + [CElse(rest)];
      HandlerCode(kinds, code, next, rest) == 
        if kinds.All? then chain else [CIfMatch(OrExpr(kinds.kinds), |chain|)] + chain
  {
  }

  lemma FinUnfold(f: Fin, st: TryStack, env: Env, lab: nat, n: nat)
    ensures GenFin(f, st, env, lab, n) ==
      if f.NoFin? then Gen([CIfErrGoto(RaiseLabel(st))], n)
      else
        var g := GenStmt(f.body, st, env, n + 1);
        Gen((if CanRaise(f.body) then [CSaveErr(lab)] + (g.code + [CRestoreErr(lab)]) else g.code)
            + [CIfErrGoto(RaiseLabel(st))], g.labels)
  {
  }

  lemma Assoc(a: Code, b: Code, c: Code)
    ensures (a + b) + c == a + (b + c)
  {
  }

  lemma LeaveStep(st: TryStack, depth: nat, env: Env, n: nat, done: Code)
    requires Depth(st) > depth
    ensures var gl := GenLeave(st, depth, env, n);
      Gen(done + gl.code, gl.labels) ==
        if st.top.fin.NoFin? then
          var gr := GenLeave(st.below, depth, env, n);
          Gen(done + gr.code, gr.labels)
        else
          var g := GenStmt(st.top.fin.body, st.below, env, n);
          var gr := GenLeave(st.below, depth, env, g.labels);
          Gen((done + g.code) + gr.code, gr.labels)
  {
    hide GenStmt, GenLeave;
    LeaveUnfold(st, depth, env, n);
    if st.top.fin.Fin? {
      var g := GenStmt(st.top.fin.body, st.below, env, n);
      Assoc(done, g.code, GenLeave(st.below, depth, env, g.labels).code);
    }
  }

  lemma LeaveNone(st: TryStack, depth: nat, env: Env, n: nat, done: Code)
    requires Depth(st) <= depth
    ensures var g := GenLeave(st, depth, env, n); done + g.code == done && g.labels == n
  {
  }

  lemma LeaveUnfold(st: TryStack, depth: nat, env: Env, n: nat)
    requires Depth(st) > depth
    ensures GenLeave(st, depth, env, n) ==
      if st.top.fin.NoFin? then GenLeave(st.below, depth, env, n)
      else
        var g := GenStmt(st.top.fin.body, st.below, env, n);
        var gr := GenLeave(st.below, depth, env, g.labels);
        Gen(g.code + gr.code, gr.labels)
  {
  }

  // what a statement needs of its parts

  lemma StmtReadyMeans(s: Stmt, st: TryStack, env: Env)
    requires StmtReady(s, st, env)
    ensures StackReady(st, env) && (s.Break? ==> s.lbl in env)
  {
  }

  lemma SeqReady(s: Stmt, st: TryStack, env: Env)
    requires StmtReady(s, st, env)
    ensures s.Seq? ==> StmtReady(s.first, st, env) && StmtReady(s.second, st, env)
    ensures s.If? ==> StmtReady(s.thn, st, env) && StmtReady(s.els, st, env)
  {
  }

  lemma BodyReady(s: Stmt, st: TryStack, env: Env, i: BlockInfo)
    requires (s.While? || s.Block?) && StmtReady(s, st, env)
    ensures s.lbl !in env && StmtReady(s.body, st, env[s.lbl := i])
  {
  }

  lemma TryReady(s: Stmt, st: TryStack, env: Env, e: Entry)
    requires s.Try? && StmtReady(s, st, env) && e.fin == s.fin
    ensures StmtReady(s.body, Push(e, st), env) && HandlersReady(s.handlers, s.fin, st, env) && FinReady(s.fin, st, env)
  {
  }

  lemma HandlerReady(hs: Handlers, f: Fin, st: TryStack, env: Env, e: Entry)
    requires hs.Handler? && HandlersReady(hs, f, st, env) && e.fin == f
    ensures StmtReady(hs.body, Push(e, st), env) && HandlersReady(hs.rest, f, st, env)
  {
  }

  class BProc {
    var labels: nat
    var blocks: seq<BlockInfo>    // `p.blocks`: what `startBlock` records
    var sections: seq<Code>       // `p.blocks`: the section `cpsStmts` of each
    var nestedTryStmts: seq<Entry>
    var position: map<nat, nat>   // `sym.position` of block symbols: index in `blocks` plus one

    constructor ()
      ensures labels == 0 && nestedTryStmts == [] && position == map[]
      ensures blocks == [BlockInfo(0, 0, 0)] && sections == [[]]
    {
      labels := 0;
      blocks := [BlockInfo(0, 0, 0)];
      sections := [[]];
      nestedTryStmts := [];
      position := map[];
    }

    ghost predicate Represents(st: TryStack, env: Env)
      reads this
    {
      |sections| > 0 && nestedTryStmts == Entries(st) && Fits(position, blocks, env)
    }

    method Emit(c: Code)
      requires |sections| > 0
      modifies `sections
      ensures sections == Extended(old(sections), c)
    {
      var last := |sections| - 1;
      sections := sections[last := sections[last] + c];
    }

    /** `inExceptBlockLen` */
    method InExceptBlockLen(ghost st: TryStack) returns (n: nat)
      requires nestedTryStmts == Entries(st)
      ensures n == ExceptDepth(st)
    {
      n := 0;
      ghost var rest := st;
      var i := |nestedTryStmts|;
      while i > 0
        invariant i == Depth(rest) <= |nestedTryStmts| && nestedTryStmts[..i] == Entries(rest)
        invariant n + ExceptDepth(rest) == ExceptDepth(st)
      {
        i := i - 1;
        assert nestedTryStmts[i] == nestedTryStmts[..i + 1][i] == rest.top;
        assert nestedTryStmts[..i] == nestedTryStmts[..i + 1][..i] == Entries(rest.below);
        if nestedTryStmts[i].inExcept {
          n := n + 1;
        }
        rest := rest.below;
      }
    }

    method StartBlock(ghost st: TryStack)
      requires nestedTryStmts == Entries(st)
      modifies `labels, `blocks, `sections
      ensures labels == old(labels) + 1
      ensures blocks == old(blocks) + [BlockInfo(labels, Depth(st), ExceptDepth(st))]
      ensures sections == old(sections) + [[]]
    {
      labels := labels + 1;
      var excepts := InExceptBlockLen(st);
      blocks := blocks + [BlockInfo(labels, |nestedTryStmts|, excepts)];
      sections := sections + [[]];
    }

    method EndBlock() returns (body: Code)
      requires |blocks| > 0 && |sections| > 0
      modifies `blocks, `sections
      ensures blocks == old(blocks)[..|old(blocks)| - 1] && sections == old(sections)[..|old(sections)| - 1]
      ensures body == old(sections)[|old(sections)| - 1]
    {
      body := sections[|sections| - 1];
      sections := sections[..|sections| - 1];
      blocks := blocks[..|blocks| - 1];
    }

    /** `p.nestedTryStmts[^1]` belongs to the `try` whose handlers are being generated. */
    ghost predicate InExcept(f: Fin, st: TryStack, env: Env)
      reads this
    {
      && |sections| > 0 && Fits(position, blocks, env)
      && |nestedTryStmts| == Depth(st) + 1 && nestedTryStmts[..Depth(st)] == Entries(st)
      && nestedTryStmts[Depth(st)].fin == f && nestedTryStmts[Depth(st)].inExcept
    }

    method RaiseExit(ghost st: TryStack)
      requires |sections| > 0 && nestedTryStmts == Entries(st)
      modifies `sections
      ensures sections == Extended(old(sections), [CIfErrGoto(RaiseLabel(st))])
    {
      var l := |nestedTryStmts|;
      if l == 0 {
        Emit([CIfErrGoto(BeforeRet)]);
      } else {
        Emit([CIfErrGoto(CodeLabel(nestedTryStmts[l - 1].lbl))]);
      }
    }

    method RaiseInstr(ghost st: TryStack) returns (c: Code)
      requires nestedTryStmts == Entries(st)
      ensures c == [CGoto(RaiseLabel(st))]
    {
      var l := |nestedTryStmts|;
      if l == 0 {
        c := [CGoto(BeforeRet)];
      } else {
        c := [CGoto(CodeLabel(nestedTryStmts[l - 1].lbl))];
      }
    }

    /**
     Pops the `try` statements being left one by one, generates a copy of each
     `finally` body in what remains, and pushes them all back.
     */
    method BlockLeaveActions(howManyTrys: int, howManyExcepts: int, ghost depth: nat, ghost st: TryStack,
                             ghost env: Env)
      requires Represents(st, env) && StackReady(st, env) && howManyTrys == Depth(st) - depth
      modifies this
      ensures Represents(st, env) && SamePositions(old(position), position, env) && blocks == old(blocks)
      ensures var g := GenLeave(st, depth, env, old(labels));
        sections == Extended(old(sections), g.code + Pops(howManyExcepts)) && labels == g.labels
      decreases StackSize(st), 1
    {
      hide GenStmt, GenLeave, Extended, Pops;
      var stack: seq<Entry> := [];
      ghost var rest, done := st, [];
      ghost var goal := GenLeave(st, depth, env, labels);
      ExtendedNothing(sections);
      var i := 1;
      while i <= howManyTrys
        invariant 1 <= i && (i == 1 || i <= howManyTrys + 1) && |stack| == i - 1
        invariant Represents(rest, env) && StackReady(rest, env) && SamePositions(old(position), position, env)
          && blocks == old(blocks)
        invariant Depth(rest) == Depth(st) - (i - 1) && StackSize(rest) <= StackSize(st)
        invariant Entries(st) == Entries(rest) + Reversed(stack)
        invariant sections == Extended(old(sections), done)
        invariant var g := GenLeave(rest, depth, env, labels); goal == Gen(done + g.code, g.labels)
        decreases howManyTrys - i
      {
        LeaveStep(rest, depth, env, labels, done);
        var last := |nestedTryStmts| - 1;
        var tryStmt := nestedTryStmts[last];
        nestedTryStmts := nestedTryStmts[..last];
        ReversedSnoc(stack, tryStmt);
        stack := stack + [tryStmt];
        if tryStmt.fin.Fin? {
          ghost var g := GenStmt(tryStmt.fin.body, rest.below, env, labels);
          GenStmts(tryStmt.fin.body, rest.below, env);
          ExtendedTwice(old(sections), done, g.code);
          done := done + g.code;
        }
        rest := rest.below;
        i := i + 1;
      }
      LeaveNone(rest, depth, env, labels, done);
      PushBack(stack);
      EmitPops(howManyExcepts);
      ExtendedTwice(old(sections), done, Pops(howManyExcepts));
    }

    /** Push the old elements again. */
    method PushBack(stack: seq<Entry>)
      modifies `nestedTryStmts
      ensures nestedTryStmts == old(nestedTryStmts) + Reversed(stack)
    {
      ReversedNothing(stack);
      hide Reversed;
      var i := |stack| - 1;
      while i >= 0
        invariant -1 <= i < |stack|
        invariant nestedTryStmts == old(nestedTryStmts) + Reversed(stack[i + 1..])
      {
        ReversedFrom(stack, i, old(nestedTryStmts));
        nestedTryStmts := nestedTryStmts + [stack[i]];
        i := i - 1;
      }
      assert stack[0..] == stack;
    }

    method EmitPops(howManyExcepts: int)
      requires |sections| > 0
      modifies `sections
      ensures sections == Extended(old(sections), Pops(howManyExcepts))
    {
      hide Extended;
      ExtendedNothing(sections);
      var i := howManyExcepts - 1;
      ghost var n := 0;
      while i >= 0
        invariant n == if howManyExcepts < 0 then 0 else howManyExcepts - 1 - i
        invariant howManyExcepts < 0 ==> i < 0
        invariant i >= -1 || howManyExcepts < 0
        invariant sections == Extended(old(sections), Pops(n))
      {
        Emit([CPop]);
        ExtendedTwice(old(sections), Pops(n), [CPop]);
        PopsMore(n);
        n := n + 1;
        i := i - 1;
      }
    }

    method GenStmts(s: Stmt, ghost st: TryStack, ghost env: Env)
      requires Represents(st, env) && StmtReady(s, st, env)
      modifies this
      ensures Represents(st, env) && SamePositions(old(position), position, env) && blocks == old(blocks)
      ensures var g := GenStmt(s, st, env, old(labels));
        sections == Extended(old(sections), g.code) && labels == g.labels
      decreases Size(s) + StackSize(st), 2
    {
      hide GenStmt, Extended, StmtReady, GenLeave;
      StmtReadyMeans(s, st, env);
      if s.Skip? {
        SkipUnfold(st, env, labels);
        ExtendedNothing(sections);
      } else if s.Call? {
        GenCall(s.id, s.canRaise, st, env);
      } else if s.Raise? {
        GenRaise(s.exn, st, env);
      } else if s.Seq? {
        SeqReady(s, st, env);
        SeqUnfold(s, st, env, labels);
        ghost var ga := GenStmt(s.first, st, env, labels);
        ghost var gb := GenStmt(s.second, st, env, ga.labels);
        GenStmts(s.first, st, env);
        GenStmts(s.second, st, env);
        ExtendedTwice(old(sections), ga.code, gb.code);
      } else if s.If? {
        GenIf(s, st, env);
      } else if s.While? {
        GenWhileStmt(s, st, env);
      } else if s.Block? {
        GenBlock(s, st, env);
      } else if s.Break? {
        GenBreakStmt(s.lbl, st, env);
      } else if s.Return? {
        GenReturnStmt(st, env);
      } else {
        GenTryGoto(s, st, env);
      }
    }

    method GenCall(id: nat, canRaise: bool, ghost st: TryStack, ghost env: Env)
      requires Represents(st, env)
      modifies `sections
      ensures Represents(st, env)
      ensures var g := GenStmt(Call(id, canRaise), st, env, labels);
        sections == Extended(old(sections), g.code) && labels == g.labels
    {
      assert [CCall(id, canRaise)] + [] == [CCall(id, canRaise)];
      Emit([CCall(id, canRaise)]);
      if canRaise {
        RaiseExit(st);
        ExtendedTwice(old(sections), [CCall(id, canRaise)], [CIfErrGoto(RaiseLabel(st))]);
      }
    }

    method GenRaise(e: Exn, ghost st: TryStack, ghost env: Env)
      requires Represents(st, env)
      modifies `sections
      ensures Represents(st, env)
      ensures var g := GenStmt(Raise(e), st, env, labels);
        sections == Extended(old(sections), g.code) && labels == g.labels
    {
      Emit([CRaise(e)]);
      var goto := RaiseInstr(st);
      Emit(goto);
      ExtendedTwice(old(sections), [CRaise(e)], goto);
      assert [CRaise(e)] + goto == [CRaise(e), CGoto(RaiseLabel(st))];
    }

    /** A statement in a block of its own; `body` is its code. */
    method GenInBlock(s: Stmt, ghost st: TryStack, ghost env: Env) returns (body: Code)
      requires Represents(st, env) && StmtReady(s, st, env)
      modifies this
      ensures Represents(st, env) && SamePositions(old(position), position, env) && blocks == old(blocks)
      ensures sections == old(sections)
      ensures Gen(body, labels) == GenStmt(s, st, env, old(labels) + 1)
      decreases Size(s) + StackSize(st), 3
    {
      hide GenStmt, StmtReady;
      StartBlock(st);
      ghost var entered := sections;
      GenStmts(s, st, env);
      body := EndBlock();
      ExtendedNew(old(sections), body);
    }

    method GenIf(s: Stmt, ghost st: TryStack, ghost env: Env)
      requires s.If? && Represents(st, env) && StmtReady(s, st, env)
      modifies this
      ensures Represents(st, env) && SamePositions(old(position), position, env) && blocks == old(blocks)
      ensures var g := GenStmt(s, st, env, old(labels));
        sections == Extended(old(sections), g.code) && labels == g.labels
      decreases Size(s) + StackSize(st), 1
    {
      hide GenStmt, StmtReady, Extended, IfCode;
      SeqReady(s, st, env);
      IfUnfold(s, st, env, labels);
      ghost var before := sections;
      labels := labels + 1;
      var lend := labels;
      var lelse, thn := GenThen(s.cond, s.thn, st, env);
      ghost var ga := GenStmt(s.thn, st, env, lelse + 1);
      ghost var gb := GenStmt(s.els, st, env, ga.labels + 1);
      Emit(thn);
      var mid := [CGoto(CodeLabel(lend)), CLabel(CodeLabel(lelse))];
      Emit(mid);
      var els := GenInBlock(s.els, st, env);
      Emit(els);
      Emit([CLabel(CodeLabel(lend))]);
      IfEmitted(before, s.cond, lelse, lend, ga.code, gb.code);
    }

    method GenThen(cond: nat, s: Stmt, ghost st: TryStack, ghost env: Env) returns (lelse: nat, body: Code)
      requires Represents(st, env) && StmtReady(s, st, env)
      modifies this
      ensures Represents(st, env) && SamePositions(old(position), position, env) && blocks == old(blocks)
      ensures sections == old(sections) && lelse == old(labels) + 2
      ensures var g := GenStmt(s, st, env, old(labels) + 3);
        body == [CIfNotGoto(cond, CodeLabel(lelse))] + g.code && labels == g.labels
      decreases Size(s) + StackSize(st), 3
    {
      hide GenStmt, StmtReady, Extended;
      StartBlock(st);
      ghost var entered := sections;
      labels := labels + 1;
      lelse := labels;
      labels := labels + 1;
      var test := [CIfNotGoto(cond, CodeLabel(lelse))];
      Emit(test);
      GenStmts(s, st, env);
      ghost var g := GenStmt(s, st, env, lelse + 1);
      ExtendedTwice(entered, test, g.code);
      ExtendedNew(old(sections), test + g.code);
      body := EndBlock();
    }

    /** `startBlock` for a block that can be broken out of by its symbol. */
    method StartNamedBlock(l: nat, ghost st: TryStack, ghost env: Env)
      requires Represents(st, env) && l !in env
      modifies this
      ensures labels == old(labels) + 1
      ensures Represents(st, env[l := BlockInfo(labels, Depth(st), ExceptDepth(st))])
        && SamePositions(old(position), position, env)
      ensures blocks[..|blocks| - 1] == old(blocks) && sections == old(sections) + [[]]
    {
      StartBlock(st);
      position := position[l := |blocks|];
    }

    method GenBlock(s: Stmt, ghost st: TryStack, ghost env: Env)
      requires s.Block? && Represents(st, env) && StmtReady(s, st, env)
      modifies this
      ensures Represents(st, env) && SamePositions(old(position), position, env) && blocks == old(blocks)
      ensures var g := GenStmt(s, st, env, old(labels));
        sections == Extended(old(sections), g.code) && labels == g.labels
      decreases Size(s) + StackSize(st), 1
    {
      hide GenStmt, StmtReady, Extended;
      ghost var before := sections;
      BlockUnfold(s, st, env, labels);
      ghost var info := BlockInfo(labels + 1, Depth(st), ExceptDepth(st));
      BodyReady(s, st, env, info);
      StartNamedBlock(s.lbl, st, env);
      var lab := labels;
      GenStmts(s.body, st, env[s.lbl := info]);
      ghost var g := GenStmt(s.body, st, env[s.lbl := info], lab);
      ExtendedNew(before, g.code);
      var body := EndBlock();
      Emit(body);
      Emit([CLabel(BlockLabel(lab))]);
      ExtendedTwice(before, g.code, [CLabel(BlockLabel(lab))]);
    }

    method GenWhileStmt(s: Stmt, ghost st: TryStack, ghost env: Env)
      requires s.While? && Represents(st, env) && StmtReady(s, st, env)
      modifies this
      ensures Represents(st, env) && SamePositions(old(position), position, env) && blocks == old(blocks)
      ensures var g := GenStmt(s, st, env, old(labels));
        sections == Extended(old(sections), g.code) && labels == g.labels
      decreases Size(s) + StackSize(st), 1
    {
      hide GenStmt, StmtReady, Extended;
      ghost var before := sections;
      WhileUnfold(s, st, env, labels);
      ghost var info := BlockInfo(labels + 1, Depth(st), ExceptDepth(st));
      BodyReady(s, st, env, info);
      StartNamedBlock(s.lbl, st, env);
      var lab := labels;
      ghost var entered := sections;
      var test := [CIfNotGoto(s.cond, BlockLabel(lab))];
      Emit(test);
      GenStmts(s.body, st, env[s.lbl := info]);
      ghost var g := GenStmt(s.body, st, env[s.lbl := info], lab);
      ExtendedTwice(entered, test, g.code);
      ExtendedNew(before, test + g.code);
      var body := EndBlock();
      Emit(body);
      Emit([CLoop(|body|), CLabel(BlockLabel(lab))]);
      ExtendedTwice(before, body, [CLoop(|body|), CLabel(BlockLabel(lab))]);
    }

    method GenBreakStmt(l: nat, ghost st: TryStack, ghost env: Env)
      requires Represents(st, env) && StackReady(st, env) && l in env
      modifies this
      ensures Represents(st, env) && SamePositions(old(position), position, env) && blocks == old(blocks)
      ensures var g := GenStmt(Break(l), st, env, old(labels));
        sections == Extended(old(sections), g.code) && labels == g.labels
      decreases StackSize(st), 2
    {
      hide GenStmt, GenLeave, Extended, StackReady;
      ghost var before := sections;
      BreakUnfold(l, st, env, labels);
      var info := blocks[position[l] - 1];
      var excepts := InExceptBlockLen(st);
      ghost var g := GenLeave(st, info.tryDepth, env, labels);
      BlockLeaveActions(|nestedTryStmts| - info.tryDepth, excepts - info.exceptDepth, info.tryDepth, st, env);
      Emit([CGoto(BlockLabel(info.id))]);
      ExtendedTwice(before, g.code + Pops(excepts - info.exceptDepth), [CGoto(BlockLabel(info.id))]);
      Assoc(g.code, Pops(excepts - info.exceptDepth), [CGoto(BlockLabel(info.id))]);
    }

    method GenReturnStmt(ghost st: TryStack, ghost env: Env)
      requires Represents(st, env) && StackReady(st, env)
      modifies this
      ensures Represents(st, env) && SamePositions(old(position), position, env) && blocks == old(blocks)
      ensures var g := GenStmt(Return, st, env, old(labels));
        sections == Extended(old(sections), g.code) && labels == g.labels
      decreases StackSize(st), 2
    {
      hide GenStmt, GenLeave, Extended, StackReady;
      ghost var before := sections;
      ReturnUnfold(st, env, labels);
      var excepts := InExceptBlockLen(st);
      ghost var g := GenLeave(st, 0, env, labels);
      BlockLeaveActions(|nestedTryStmts|, excepts, 0, st, env);
      Emit([CGoto(BeforeRet)]);
      ExtendedTwice(before, g.code + Pops(excepts), [CGoto(BeforeRet)]);
      Assoc(g.code, Pops(excepts), [CGoto(BeforeRet)]);
    }

    method GenTryGoto(s: Stmt, ghost st: TryStack, ghost env: Env)
      requires s.Try? && Represents(st, env) && StmtReady(s, st, env)
      modifies this
      ensures Represents(st, env) && SamePositions(old(position), position, env) && blocks == old(blocks)
      ensures var g := GenStmt(s, st, env, old(labels));
        sections == Extended(old(sections), g.code) && labels == g.labels
      decreases Size(s) + StackSize(st), 1
    {
      hide GenStmt, GenHandlers, GenFin, StmtReady, HandlersReady, FinReady, Extended;
      ghost var before := sections;
      ghost var n := labels;
      labels := labels + 1;
      var lab := labels;
      ghost var inner := Push(Entry(s.fin, false, lab), st);
      TryReady(s, st, env, Entry(s.fin, false, lab));
      nestedTryStmts := nestedTryStmts + [Entry(s.fin, false, lab)];
      GenStmts(s.body, inner, env);
      ghost var gb := GenStmt(s.body, inner, env, lab);
      var handlers := GenExcepts(s.handlers, s.fin, lab, st, env);
      ghost var gh := GenHandlers(s.handlers, s.fin, st, env, gb.labels + 1);
      Emit(handlers);
      GenFinally(s.fin, lab, st, env);
      ghost var gf := GenFin(s.fin, st, env, lab, gh.labels);
      TryUnfold(s, st, env, n, gb, gh, gf);
      ExtendedTwice(before, gb.code, handlers);
      ExtendedTwice(before, gb.code + handlers, gf.code);
      Assoc(gb.code, handlers, gf.code);
    }

    /** The block of the handlers; pops the `try` statement. */
    method GenExcepts(hs: Handlers, f: Fin, lab: nat, ghost st: TryStack, ghost env: Env) returns (section: Code)
      requires Represents(Push(Entry(f, false, lab), st), env) && HandlersReady(hs, f, st, env)
      modifies this
      ensures Represents(st, env) && SamePositions(old(position), position, env) && blocks == old(blocks)
      ensures var g := GenHandlers(hs, f, st, env, old(labels) + 1);
        sections == old(sections) && section == HandlerSection(hs, lab, g.code) && labels == g.labels
      decreases HandlersSize(hs) + FinSize(f) + StackSize(st), 2
    {
      hide GenHandlers, HandlersReady, Extended;
      ghost var before := sections;
      StartBlock(Push(Entry(f, false, lab), st));
      ghost var entered := sections;
      Emit([CLabel(CodeLabel(lab))]);
      var last := |nestedTryStmts| - 1;
      nestedTryStmts := nestedTryStmts[last := nestedTryStmts[last].(inExcept := true)];
      GenExceptBranches(hs, f, st, env);
      ghost var g := GenHandlers(hs, f, st, env, old(labels) + 1);
      ExtendedTwice(entered, [CLabel(CodeLabel(lab))], g.code);
      ExtendedNew(before, [CLabel(CodeLabel(lab))] + g.code);
      nestedTryStmts := nestedTryStmts[..|nestedTryStmts| - 1];
      var body := EndBlock();
      section := if hs.Handler? then [CIfErr(|body|)] + body else body;
    }

    /**
     The `except` branches. The length of each `else` part has to be known, so
     what is a loop in the compiler is a recursion here.
     */
    method GenExceptBranches(hs: Handlers, f: Fin, ghost st: TryStack, ghost env: Env)
      requires InExcept(f, st, env) && HandlersReady(hs, f, st, env)
      modifies this
      ensures InExcept(f, st, env) && SamePositions(old(position), position, env) && blocks == old(blocks)
      ensures var g := GenHandlers(hs, f, st, env, old(labels));
        sections == Extended(old(sections), g.code) && labels == g.labels
      decreases HandlersSize(hs) + FinSize(f) + StackSize(st), 1
    {
      hide GenStmt, GenHandlers, HandlersReady, StmtReady, Extended, HandlerCode, HandlerBody, Fits, SamePositions;
      HandlersUnfold(hs, f, st, env, labels);
      SamePositionsSelf(position, blocks, env);
      if hs.NoHandler? {
        ExtendedNothing(sections);
        return;
      }
      labels := labels + 1;
      var next := labels;
      ghost var inner := Push(Entry(f, true, next), st);
      HandlerReady(hs, f, st, env, Entry(f, true, next));
      var last := |nestedTryStmts| - 1;
      nestedTryStmts := nestedTryStmts[last := nestedTryStmts[last].(lbl := next)];
      var body := GenHandlerBody(hs.body, next, f, st, env);
      ghost var gb := GenStmt(hs.body, inner, env, next + 1);
      ghost var between := position;
      var rest := GenElse(hs.rest, f, st, env);
      SamePositionsTrans(old(position), between, position, env);
      var chain := body + [CElse(|rest|)];
      if hs.kinds.Only? {
        var test := GenOrExpr(hs.kinds.kinds);
        chain := [CIfMatch(test, |chain|)] + chain;
      }
      Emit(chain + rest);
      HandlerUnfold(hs.kinds, gb.code, next, |rest|);
    }

    /** The tests of a branch, joined by `||` one after the other. */
    method GenOrExpr(ks: Types) returns (orExpr: Test)
      ensures orExpr == OrExpr(ks)
    {
      var expr: Option<Test> := None;
      for j := 0 to |ks|
        invariant if j == 0 then expr.None? else expr == Some(OrExpr(ks[..j]))
      {
        assert j > 0 ==> ks[..j + 1][..j] == ks[..j];
        expr := Some(if expr.None? then IsObj(ks[j]) else Or(expr.value, IsObj(ks[j])));
      }
      assert ks[..|ks|] == ks;
      orExpr := expr.value;
    }

    /** The branches after an `else`. */
    method GenElse(hs: Handlers, f: Fin, ghost st: TryStack, ghost env: Env) returns (rest: Code)
      requires InExcept(f, st, env) && HandlersReady(hs, f, st, env)
      modifies this
      ensures InExcept(f, st, env) && SamePositions(old(position), position, env) && blocks == old(blocks)
      ensures sections == old(sections) && Gen(rest, labels) == GenHandlers(hs, f, st, env, old(labels))
      decreases HandlersSize(hs) + FinSize(f) + StackSize(st), 2
    {
      hide GenHandlers, HandlersReady, Extended;
      sections := sections + [[]];
      GenExceptBranches(hs, f, st, env);
      ExtendedNew(old(sections), GenHandlers(hs, f, st, env, old(labels)).code);
      rest := sections[|sections| - 1];
      sections := sections[..|sections| - 1];
    }

    method GenHandlerBody(s: Stmt, next: nat, f: Fin, ghost st: TryStack, ghost env: Env) returns (body: Code)
      requires Represents(Push(Entry(f, true, next), st), env) && StmtReady(s, Push(Entry(f, true, next), st), env)
      modifies this
      ensures Represents(Push(Entry(f, true, next), st), env) && SamePositions(old(position), position, env)
        && blocks == old(blocks)
      ensures var g := GenStmt(s, Push(Entry(f, true, next), st), env, old(labels) + 1);
        sections == old(sections) && body == HandlerBody(g.code, next) && labels == g.labels
      decreases Size(s) + FinSize(f) + StackSize(st), 3
    {
      hide GenStmt, StmtReady, Extended;
      ghost var before := sections;
      ghost var inner := Push(Entry(f, true, next), st);
      StartBlock(inner);
      ghost var entered := sections;
      Emit([CClearErr]);
      GenStmts(s, inner, env);
      ghost var g := GenStmt(s, inner, env, old(labels) + 1);
      ExtendedTwice(entered, [CClearErr], g.code);
      Emit([CPop, CLabel(CodeLabel(next))]);
      ExtendedTwice(entered, [CClearErr] + g.code, [CPop, CLabel(CodeLabel(next))]);
      ExtendedNew(before, ([CClearErr] + g.code) + [CPop, CLabel(CodeLabel(next))]);
      body := EndBlock();
    }

    method GenFinally(f: Fin, lab: nat, ghost st: TryStack, ghost env: Env)
      requires Represents(st, env) && FinReady(f, st, env)
      modifies this
      ensures Represents(st, env) && SamePositions(old(position), position, env) && blocks == old(blocks)
      ensures var g := GenFin(f, st, env, lab, old(labels));
        sections == Extended(old(sections), g.code) && labels == g.labels
      decreases FinSize(f) + StackSize(st), 1
    {
      hide GenStmt, Extended, GenFin;
      ghost var before := sections;
      FinUnfold(f, st, env, lab, labels);
      if f.Fin? {
        var body := GenInBlock(f.body, st, env);
        if CanRaise(f.body) {
          body := [CSaveErr(lab)] + (body + [CRestoreErr(lab)]);
        }
        Emit(body);
        RaiseExit(st);
        ExtendedTwice(before, body, [CIfErrGoto(RaiseLabel(st))]);
      } else {
        RaiseExit(st);
      }
    }

    /** A whole proc. */
    method GenProc(s: Stmt) returns (code: Code)
      requires labels == 0 && nestedTryStmts == [] && sections == [[]]
      requires Unique(s) && Free(s) == {}
      modifies this
      ensures code == Compile(s)
    {
      hide GenStmt, Extended;
      assert [] + [[]] == sections;
      GenStmts(s, Empty, map[]);
      Emit([CLabel(BeforeRet)]);
      ghost var g := GenStmt(s, Empty, map[], 0);
      ExtendedTwice(old(sections), g.code, [CLabel(BeforeRet)]);
      ExtendedNew([], g.code + [CLabel(BeforeRet)]);
      code := sections[0];
    }
  }
}
