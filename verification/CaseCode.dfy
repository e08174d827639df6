/**
 `case` statements and the C code they become (compiler/ccgstmts.nim): chains of
 tests and gotos, a switch over string hashes, and a C switch. Branch bodies are
 opaque; what counts is which ones run.
 */
module CaseCode {
  import opened Basics
  import opened Probe

  /** Ordinals, floating-point numbers and strings. */
  datatype Value = Ord(n: int) | Flt(r: real) | Str(s: string)

  datatype Lit = One(v: Value) | Range(lo: Value, hi: Value)

  /** `linear`: the branch is marked with `{.linearScanEnd.}`. An `else` branch, if any, is the last one. */
  datatype Branch = Of(lits: seq<Lit>, linear: bool) | Else(linear: bool)

  predicate Matches(l: Lit, x: Value) {
    match l
    case One(v) => v == x
    case Range(lo, hi) =>
      || (lo.Ord? && hi.Ord? && x.Ord? && lo.n <= x.n <= hi.n)
      || (lo.Flt? && hi.Flt? && x.Flt? && lo.r <= x.r <= hi.r)
  }

  predicate Chosen(b: Branch, x: Value) {
    b.Else? || exists i :: 0 <= i < |b.lits| && Matches(b.lits[i], x)
  }

  /** The meaning of a `case`: the first branch that matches. */
  function Select(bs: seq<Branch>, x: Value): Option<nat> {
    if bs == [] then None
    else if Chosen(bs[0], x) then Some(0)
    else
      var r := Select(bs[1..], x);
      if r.Some? then Some(r.value + 1) else None
  }

  lemma {:induction false} SelectIs(bs: seq<Branch>, x: Value)
    ensures Select(bs, x).Some? ==>
      var i := Select(bs, x).value; i < |bs| && Chosen(bs[i], x) && forall j | 0 <= j < i :: !Chosen(bs[j], x)
    ensures Select(bs, x).None? ==> forall j | 0 <= j < |bs| :: !Chosen(bs[j], x)
  {
    if bs != [] && !Chosen(bs[0], x) {
      SelectIs(bs[1..], x);
      forall j | 0 < j < |bs| ensures bs[j] == bs[1..][j - 1] {
      }
    }
  }

  lemma SelectUnique(bs: seq<Branch>, x: Value, i: nat)
    requires i < |bs| && Chosen(bs[i], x) && forall j | 0 <= j < i :: !Chosen(bs[j], x)
    ensures Select(bs, x) == Some(i)
  {
    SelectIs(bs, x);
  }

  predicate WellFormed(bs: seq<Branch>) {
    forall i | 0 <= i < |bs| - 1 :: bs[i].Of?
  }

  // ---------- target code ----------

  /** One arm of a C switch: `case a: case b: body; break;`, or the default. */
  datatype Arm = Arm(labels: seq<Lit>, body: nat) | Default(body: nat)

  datatype Line =
    | IfGoto(lit: Lit, to: nat)                 // if (x == v) goto L;  if (x >= a && x <= b) goto L;
    | Goto(to: nat)
    | Label(id: nat)
    | Body(branch: nat)
    | HashSwitch(buckets: seq<seq<(Lit, nat)>>) // switch (hashString(x) & mask) { case j: ifs; break; ... }
    | Switch(arms: seq<Arm>)

  type Code = seq<Line>

  /** `ran` lists the branch bodies that were run. */
  datatype State = State(pc: nat, ran: seq<nat>)

  function Find(p: Code, l: nat): nat {
    if p == [] then 0 else if p[0] == Label(l) then 0 else 1 + Find(p[1..], l)
  }

  /** What C makes of `==`, `>=` and `<=` between a value and a literal of its type. */
  predicate AtLeast(x: Value, lo: Value) {
    (x.Ord? && lo.Ord? && x.n >= lo.n) || (x.Flt? && lo.Flt? && x.r >= lo.r)
  }

  /** if (x == v), if (x >= a && x <= b), case v:, case a ... b: */
  predicate Holds(l: Lit, x: Value) {
    if l.One? then x == l.v else AtLeast(x, l.lo) && AtLeast(l.hi, x)
  }

  lemma HoldsIsMatches(l: Lit, x: Value)
    ensures Holds(l, x) <==> Matches(l, x)
  {
  }

  /** The first `if` that holds. */
  function FirstTest(ts: seq<(Lit, nat)>, x: Value): Option<nat> {
    if ts == [] then None
    else if Holds(ts[0].0, x) then Some(ts[0].1)
    else FirstTest(ts[1..], x)
  }

  predicate Labelled(a: Arm, x: Value) {
    a.Arm? && exists i :: 0 <= i < |a.labels| && Holds(a.labels[i], x)
  }

  /** A C switch jumps to the arm with the label, or else to the default. */
  function SwitchTo(arms: seq<Arm>, x: Value): Option<nat> {
    var hit := LabelledArm(arms, x);
    if hit.Some? then hit else DefaultArm(arms)
  }

  function LabelledArm(arms: seq<Arm>, x: Value): Option<nat> {
    if arms == [] then None
    else if Labelled(arms[0], x) then Some(arms[0].body)
    else LabelledArm(arms[1..], x)
  }

  function DefaultArm(arms: seq<Arm>): Option<nat> {
    if arms == [] then None
    else if arms[0].Default? then Some(arms[0].body)
    else DefaultArm(arms[1..])
  }

  /** `hash` is `hashString`, the same in the compiler and at run time. */
  function Step(p: Code, hash: string -> int, x: Value, s: State): State {
    if s.pc >= |p| then s
    else
      var next := State(s.pc + 1, s.ran);
      match p[s.pc]
      case IfGoto(l, to) => if Holds(l, x) then State(Find(p, to), s.ran) else next
      case Goto(to) => State(Find(p, to), s.ran)
      case Label(_) => next
      case Body(b) => State(s.pc + 1, s.ran + [b])
      case HashSwitch(bs) =>
        if !x.Str? || bs == [] then next
        else
          var j := BitAnd(hash(x.s), |bs| - 1);
          if j >= |bs| then next
          else
            var t := FirstTest(bs[j], x);
            if t.Some? then State(Find(p, t.value), s.ran) else next
      case Switch(arms) =>
        var a := SwitchTo(arms, x);
        State(s.pc + 1, if a.Some? then s.ran + [a.value] else s.ran)
  }

  function Run(p: Code, hash: string -> int, x: Value, s: State, k: nat): State
    decreases k
  {
    if k == 0 then s else Run(p, hash, x, Step(p, hash, x, s), k - 1)
  }

  lemma {:induction false} RunAdd(p: Code, hash: string -> int, x: Value, s: State, a: nat, b: nat)
    ensures Run(p, hash, x, s, a + b) == Run(p, hash, x, Run(p, hash, x, s, a), b)
    decreases a
  {
    if a > 0 {
      RunAdd(p, hash, x, Step(p, hash, x, s), a - 1, b);
    }
  }

  lemma RunOne(p: Code, hash: string -> int, x: Value, s: State)
    ensures Run(p, hash, x, s, 1) == Step(p, hash, x, s)
  {
    assert Run(p, hash, x, s, 1) == Run(p, hash, x, Step(p, hash, x, s), 0);
  }

  /** The code runs body `b` and nothing else, and control leaves it at the end. */
  ghost predicate RunsOnly(p: Code, hash: string -> int, x: Value, b: nat) {
    exists k: nat :: Run(p, hash, x, State(0, []), k) == State(|p|, [b])
  }

  // ---------- the generated code ----------

  function TestsOf(lits: seq<Lit>, lab: nat): (c: Code)
    ensures |c| == |lits| && forall i | 0 <= i < |c| :: c[i] == IfGoto(lits[i], lab)
  {
    if lits == [] then [] else TestsOf(lits[..|lits| - 1], lab) + [IfGoto(lits[|lits| - 1], lab)]
  }

  /** First pass: the tests of branch `i` go to label `lab0 + i + 1`. */
  function Tests(bs: seq<Branch>, lab0: nat): Code {
    if bs == [] then []
    else
      var last := |bs| - 1;
      Tests(bs[..last], lab0) + (if bs[last].Of? then TestsOf(bs[last].lits, lab0 + last + 1)
        else [Goto(lab0 + last + 1)])
  }

  /** Second pass: the bodies, each at its label. */
  function Bodies(bs: seq<Branch>, lab0: nat, lend: nat): Code {
    if bs == [] then []
    else
      var last := |bs| - 1;
      Bodies(bs[..last], lab0, lend) + [Label(lab0 + last + 1), Body(last)] +
        (if bs[last].Of? then [Goto(lend)] else [])
  }

  /** `genIfForCaseUntil` for the first `n` of the branches. */
  function IfPart(bs: seq<Branch>, n: nat, lab0: nat): Code
    requires n <= |bs|
  {
    if n < |bs| then
      Tests(bs[..n], lab0) + [Goto(lab0 + n + 1)] + Bodies(bs[..n], lab0, lab0 + n + 2) + [Label(lab0 + n + 1)]
    else
      Tests(bs, lab0) + Bodies(bs, lab0, lab0 + n + 1)
  }

  /** The label behind the bodies of the `if` part. */
  function EndLabel(bs: seq<Branch>, n: nat, lab0: nat): nat {
    lab0 + n + if n < |bs| then 2 else 1
  }

  /** `genCaseGeneric` */
  function GenericCode(bs: seq<Branch>, lab0: nat): Code {
    IfPart(bs, |bs|, lab0) + [Label(EndLabel(bs, |bs|, lab0))]
  }

  // ---------- strings by hash ----------

  predicate StringLit(l: Lit) {
    l.One? && l.v.Str?
  }

  predicate StringCase(bs: seq<Branch>) {
    forall i, j | 0 <= i < |bs| && bs[i].Of? && 0 <= j < |bs[i].lits| :: StringLit(bs[i].lits[j])
  }

  function PairsOf(lits: seq<Lit>, lab: nat): (r: seq<(Lit, nat)>)
    ensures |r| == |lits| && forall i | 0 <= i < |r| :: r[i] == (lits[i], lab)
  {
    seq(|lits|, i requires 0 <= i < |lits| => (lits[i], lab))
  }

  /** All strings of the `case` in order, each with the label of its branch. */
  function Pairs(bs: seq<Branch>, lab0: nat): seq<(Lit, nat)> {
    if bs == [] then []
    else
      var last := |bs| - 1;
      Pairs(bs[..last], lab0) + (if bs[last].Of? then PairsOf(bs[last].lits, lab0 + last + 1) else [])
  }

  function BucketFor(hash: string -> int, l: Lit, mask: nat): nat {
    if StringLit(l) then BitAnd(hash(l.v.s), mask) else 0
  }

  /** The tests that go to `case j`. */
  function Bucket(ps: seq<(Lit, nat)>, hash: string -> int, mask: nat, j: nat): seq<(Lit, nat)> {
    if ps == [] then []
    else (if BucketFor(hash, ps[0].0, mask) == j then [ps[0]] else []) + Bucket(ps[1..], hash, mask, j)
  }

  /** `genStringCase` with `size` buckets, a power of two. */
  function StringCode(bs: seq<Branch>, size: nat, lab0: nat, hash: string -> int): Code
    requires size > 0
  {
    [HashSwitch(seq(size, j requires 0 <= j < size => Bucket(Pairs(bs, lab0), hash, size - 1, j)))]
    + (if bs != [] && bs[|bs| - 1].Else? then [Goto(lab0 + |bs|)] else [])
    + Bodies(bs, lab0, lab0 + |bs| + 1) + [Label(lab0 + |bs| + 1)]
  }

  // ---------- ordinals ----------

  /** `case lo: case lo+1: ... case hi:` */
  function Ones(lo: int, hi: int): (r: seq<Lit>)
    ensures |r| == if lo <= hi then hi - lo + 1 else 0
    ensures forall i | 0 <= i < |r| :: r[i] == One(Ord(lo + i))
    decreases hi - lo
  {
    if lo > hi then [] else Ones(lo, hi - 1) + [One(Ord(hi))]
  }

  /** `ranges`: the C compiler knows `case lo ... hi`. */
  function ExpandLit(l: Lit, ranges: bool): seq<Lit> {
    if l.Range? && !ranges && l.lo.Ord? && l.hi.Ord? then Ones(l.lo.n, l.hi.n) else [l]
  }

  /** `genCaseRange` */
  function Expand(lits: seq<Lit>, ranges: bool): seq<Lit> {
    if lits == [] then [] else Expand(lits[..|lits| - 1], ranges) + ExpandLit(lits[|lits| - 1], ranges)
  }

  /** The arms for the branches from `n` up to `m`. */
  function Arms(bs: seq<Branch>, n: nat, m: nat, ranges: bool): (r: seq<Arm>)
    requires n <= m <= |bs|
    ensures |r| == m - n
    decreases m
  {
    if n == m then []
    else
      Arms(bs, n, m - 1, ranges) + [if bs[m - 1].Of? then Arm(Expand(bs[m - 1].lits, ranges), m - 1)
        else Default(m - 1)]
  }

  const RANGE_EXPAND_LIMIT: int := 256

  predicate TooBig(l: Lit) {
    l.Range? && l.lo.Ord? && l.hi.Ord? && l.hi.n - l.lo.n > RANGE_EXPAND_LIMIT
  }

  predicate HasTooBig(b: Branch) {
    b.Of? && exists i :: 0 <= i < |b.lits| && TooBig(b.lits[i])
  }

  /** Must branch `b`, and with it all before it, be tested one by one? */
  predicate Splits(b: Branch, ranges: bool) {
    b.linear || (!ranges && HasTooBig(b))
  }

  /** `ifSwitchSplitPoint`: the number of branches up to the last one that splits. */
  function SplitPoint(bs: seq<Branch>, ranges: bool): (n: nat)
    ensures n <= |bs|
  {
    if bs == [] then 0
    else if Splits(bs[|bs| - 1], ranges) then |bs|
    else SplitPoint(bs[..|bs| - 1], ranges)
  }

  /** `genOrdinalCase` with the first `n` branches in the `if` part. */
  function OrdinalCode(bs: seq<Branch>, n: nat, lab0: nat, ranges: bool): Code
    requires n <= |bs|
  {
    (if n > 0 then IfPart(bs, n, lab0) else [])
    + (if n < |bs| then [Switch(Arms(bs, n, |bs|, ranges))] else [])
    + (if n > 0 then [Label(EndLabel(bs, n, lab0))] else [])
  }
}
