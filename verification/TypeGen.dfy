/** The two generators as the compiler runs them, appending to the statements of the proc being written. */
module TypeGen {
  import opened Basics
  import opened TypeCode
  import CaseCode

  class BProc {
    var stmts: seq<Stmt>
    var temps: nat

    constructor ()
      ensures stmts == [] && temps == 0
    {
      stmts := [];
      temps := 0;
    }

    /** `genTraverseProc` and `specializeResetT` for a type. */
    method WriteType(mode: Mode, rangeCase: bool, acc: Path, t: Type)
      modifies this
      ensures var g := GenType(mode, rangeCase, t, acc, old(temps)); stmts == old(stmts) + g.code && temps == g.vars
      decreases t, 0
    {
      if t.Wrapper? {
        WriteType(mode, rangeCase, acc, t.t);
      } else if t.ArrayOf? {
        var i := temps;
        temps := temps + 1;
        var oldCode := stmts;
        stmts := [];
        WriteType(mode, rangeCase, acc + [Var(i)], t.elem);
        assert stmts == GenType(mode, rangeCase, t.elem, acc + [Var(i)], i + 1).code;
        if mode.Traverse? && stmts == [] {
          // no loop around nothing
          stmts := oldCode;
          assert oldCode + [] == oldCode;
        } else {
          stmts := oldCode + [For(i, t.n, stmts)];
        }
      } else if t.Object? {
        if t.base.Some? {
          WriteType(mode, rangeCase, acc + [Sup], t.base.value);
        }
        WriteRecord(mode, rangeCase, acc, t.rec);
      } else if t.Tuple? {
        for i := 0 to |t.items|
          invariant var g := GenItems(mode, rangeCase, t.items[i..], i, acc, temps);
            var all := GenItems(mode, rangeCase, t.items, 0, acc, old(temps));
            stmts + g.code == old(stmts) + all.code && g.vars == all.vars
        {
          assert t.items[i..][0] == t.items[i] && t.items[i..][1..] == t.items[i + 1..];
          ItemsStep(mode, rangeCase, t.items[i..], i, acc, temps, stmts);
          WriteType(mode, rangeCase, acc + [Item(i)], t.items[i]);
        }
        assert t.items[|t.items|..] == [];
      } else {
        stmts := stmts + LeafCode(mode, t, acc);
      }
    }

    /** The same for record nodes. */
    method WriteRecord(mode: Mode, rangeCase: bool, acc: Path, r: Record)
      modifies this
      ensures var g := GenRecord(mode, rangeCase, r, acc, old(temps)); stmts == old(stmts) + g.code && temps == g.vars
      decreases r, 0
    {
      if r.RecList? {
        for i := 0 to |r.items|
          invariant var g := GenRecords(mode, rangeCase, r.items[i..], acc, temps);
            var all := GenRecords(mode, rangeCase, r.items, acc, old(temps));
            stmts + g.code == old(stmts) + all.code && g.vars == all.vars
        {
          assert r.items[i..][0] == r.items[i] && r.items[i..][1..] == r.items[i + 1..];
          RecordsStep(mode, rangeCase, r.items[i..], acc, temps, stmts);
          WriteRecord(mode, rangeCase, acc, r.items[i]);
        }
        assert r.items[|r.items|..] == [];
      } else if r.RecCase? {
        var oldCode := stmts;
        var blocks: seq<Block> := [];
        for i := 0 to |r.bodies|
          invariant var g := GenBranches(mode, rangeCase, r.bodies[i..], acc, temps);
            var all := GenBranches(mode, rangeCase, r.bodies, acc, old(temps));
            blocks + g.bodies == all.bodies && g.vars == all.vars
        {
          assert r.bodies[i..][0] == r.bodies[i] && r.bodies[i..][1..] == r.bodies[i + 1..];
          BranchesStep(mode, rangeCase, r.bodies[i..], acc, temps, blocks);
          ghost var g := GenRecord(mode, rangeCase, r.bodies[i], acc, temps);
          stmts := [];
          WriteRecord(mode, rangeCase, acc, r.bodies[i]);
          assert stmts == g.code;
          blocks := blocks + [Block(stmts)];
        }
        assert r.bodies[|r.bodies|..] == [];
        assert blocks + [] == blocks;
        ghost var ga := GenBranches(mode, rangeCase, r.bodies, acc, old(temps));
        assert blocks == ga.bodies && temps == ga.vars;
        stmts := oldCode + [Switch(acc + [Fld(r.disc)], CaseCode.Arms(r.sels, 0, |r.sels|, rangeCase), blocks)];
        if mode.Reset? {
          ghost var sw := Switch(acc + [Fld(r.disc)], CaseCode.Arms(r.sels, 0, |r.sels|, rangeCase), blocks);
          ghost var gd := GenType(mode, rangeCase, r.discType, acc + [Fld(r.disc)], temps);
          WriteType(mode, rangeCase, acc + [Fld(r.disc)], r.discType);
          assert stmts == oldCode + [sw] + gd.code == oldCode + ([sw] + gd.code);
        }
      } else if r.RecField? {
        WriteType(mode, rangeCase, acc + [Fld(r.id)], r.typ);
      }
    }
  }

  lemma ItemsStep(mode: Mode, rangeCase: bool, ts: seq<Type>, k: nat, acc: Path, n: nat, before: seq<Stmt>)
    requires ts != []
    ensures var g := GenType(mode, rangeCase, ts[0], acc + [Item(k)], n);
      before + GenItems(mode, rangeCase, ts, k, acc, n).code ==
        (before + g.code) + GenItems(mode, rangeCase, ts[1..], k + 1, acc, g.vars).code
      && GenItems(mode, rangeCase, ts, k, acc, n).vars == GenItems(mode, rangeCase, ts[1..], k + 1, acc, g.vars).vars
  {
  }

  lemma BranchesStep(mode: Mode, rangeCase: bool, bs: seq<Record>, acc: Path, n: nat, before: seq<Block>)
    requires bs != []
    ensures var g := GenRecord(mode, rangeCase, bs[0], acc, n);
      before + GenBranches(mode, rangeCase, bs, acc, n).bodies ==
        (before + [Block(g.code)]) + GenBranches(mode, rangeCase, bs[1..], acc, g.vars).bodies
      && GenBranches(mode, rangeCase, bs, acc, n).vars == GenBranches(mode, rangeCase, bs[1..], acc, g.vars).vars
  {
  }

  lemma RecordsStep(mode: Mode, rangeCase: bool, rs: seq<Record>, acc: Path, n: nat, before: seq<Stmt>)
    requires rs != []
    ensures var g := GenRecord(mode, rangeCase, rs[0], acc, n);
      before + GenRecords(mode, rangeCase, rs, acc, n).code ==
        (before + g.code) + GenRecords(mode, rangeCase, rs[1..], acc, g.vars).code
      && GenRecords(mode, rangeCase, rs, acc, n).vars == GenRecords(mode, rangeCase, rs[1..], acc, g.vars).vars
  {
  }
}
