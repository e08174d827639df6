/**
 A terminal with deferred wrap, as far as the multi-line refresh of
 lib/wrappers/linenoise/linenoise.c uses it: carriage return, line feed, cursor
 up, down and right (ECMA-48 sections 8.3.22, 8.3.19 and 8.3.20), erase to the
 end of the line (8.3.41), printing, which wraps only when the next character
 arrives, and clearing the screen. Row 0 is the row of the prompt; above it there are
 rows with earlier output, below it as many as the page has left. Line feed and wrap in
 the last row scroll the page up.
 */
module Terminal {

  type Byte = b: nat | b < 256

  datatype Op = Print(c: Byte) | CR | LF | Up(n: nat) | Down(n: nat) | Right(n: nat) | EraseRight | Clear

  type Cells = map<(int, nat), Byte>

  /**
   `above` and `below`: the rows of the page above and below row 0, or less than none when
   that row has left the page. `pending`: a character was printed in the last column and
   the next one wraps.
   */
  datatype Term = Term(cols: nat, above: int, below: int, row: int, col: nat, pending: bool, cells: Cells)

  /** What is left when `top` is the first row of the page. */
  function From(cells: Cells, top: int): Cells {
    map k | k in cells && k.0 >= top :: cells[k]
  }

  /** To another row; from the last one the page scrolls. */
  function Scroll(t: Term, row: int): Term {
    if row <= t.below then t.(row := row)
    else
      var above := t.above - (row - t.below);
      t.(above := above, below := row, row := row, cells := From(t.cells, 0 - above))
  }

  function Erase(cells: Cells, row: int, col: nat): Cells {
    map k | k in cells && !(k.0 == row && k.1 >= col) :: cells[k]
  }

  /** How far a cursor movement goes: a parameter of 0 stands for the default, which is 1. */
  function Count(n: nat): nat {
    if n == 0 then 1 else n
  }

  function Do(t: Term, op: Op): Term {
    match op
    case Print(c) =>
      var t1 := if t.pending then Scroll(t, t.row + 1).(col := 0) else t;
      var cells := t1.cells[(t1.row, t1.col) := c];
      if t1.col + 1 < t.cols then t1.(col := t1.col + 1, pending := false, cells := cells)
      else t1.(pending := true, cells := cells)
    case CR => t.(col := 0, pending := false)
    case LF => Scroll(t, t.row + 1).(pending := false)
    case Up(n) =>
      t.(row := if Count(n) <= t.row + t.above then t.row - Count(n) else 0 - t.above, pending := false)
    case Down(n) => t.(row := if t.row + Count(n) <= t.below then t.row + Count(n) else t.below, pending := false)
    case Right(n) =>
      var col := t.col + Count(n);
      t.(col := if col < t.cols then col else if t.cols > 0 then t.cols - 1 else 0, pending := false)
    case Clear => Term(t.cols, 0, t.above + t.below, 0, 0, false, map[])
    case EraseRight => t.(cells := Erase(t.cells, t.row, t.col))
  }

  function Feed(t: Term, ops: seq<Op>): Term
    decreases |ops|
  {
    if ops == [] then t else Feed(Do(t, ops[0]), ops[1..])
  }

  lemma {:induction false} FeedConcat(t: Term, a: seq<Op>, b: seq<Op>)
    ensures Feed(t, a + b) == Feed(Feed(t, a), b)
    decreases |a|
  {
    if a == [] {
      assert a + b == b;
    } else {
      assert (a + b)[0] == a[0] && (a + b)[1..] == a[1..] + b;
      FeedConcat(Do(t, a[0]), a[1..], b);
    }
  }

  /** The page keeps its size. */
  lemma {:induction false} FeedSize(t: Term, ops: seq<Op>)
    ensures var r := Feed(t, ops); r.cols == t.cols && r.above + r.below == t.above + t.below
    decreases |ops|
  {
    if ops != [] {
      FeedSize(Do(t, ops[0]), ops[1..]);
    }
  }

  /** The cursor never leaves the prompt's row upwards. */
  predicate NeverAbove(t: Term, ops: seq<Op>)
    decreases |ops|
  {
    t.row >= 0 && (ops == [] || NeverAbove(Do(t, ops[0]), ops[1..]))
  }

  lemma {:induction false} NeverAboveConcat(t: Term, a: seq<Op>, b: seq<Op>)
    requires NeverAbove(t, a) && NeverAbove(Feed(t, a), b)
    ensures NeverAbove(t, a + b)
    decreases |a|
  {
    if a == [] {
      assert a + b == b;
    } else {
      assert (a + b)[0] == a[0] && (a + b)[1..] == a[1..] + b;
      NeverAboveConcat(Do(t, a[0]), a[1..], b);
    }
  }

  /** The output above the prompt. */
  function Upper(cells: Cells): Cells {
    map k | k in cells && k.0 < 0 :: cells[k]
  }

  lemma FeedOne(t: Term, op: Op)
    ensures Feed(t, [op]) == Do(t, op)
  {
    assert Feed(t, [op]) == Feed(Do(t, op), []);
  }

  function Prints(s: seq<Byte>): (r: seq<Op>)
    ensures |r| == |s|
  {
    if s == [] then [] else [Print(s[0])] + Prints(s[1..])
  }

  lemma {:induction false} PrintsConcat(a: seq<Byte>, b: seq<Byte>)
    ensures Prints(a + b) == Prints(a) + Prints(b)
  {
    if a == [] {
      assert a + b == b;
    } else {
      assert (a + b)[0] == a[0] && (a + b)[1..] == a[1..] + b;
      PrintsConcat(a[1..], b);
    }
  }

  lemma {:induction false} PrintsStay(t: Term, s: seq<Byte>)
    requires t.row >= 0
    ensures NeverAbove(t, Prints(s))
    decreases |s|
  {
    if s != [] {
      assert Prints(s)[0] == Print(s[0]) && Prints(s)[1..] == Prints(s[1..]);
      PrintsStay(Do(t, Print(s[0])), s[1..]);
    }
  }

  // ---------- where the text goes ----------

  function RowOf(i: nat, cols: nat): (r: nat)
    requires cols > 0
  {
    DivMod(i, cols);
    i / cols
  }

  function ColOf(i: nat, cols: nat): (r: nat)
    requires cols > 0
    ensures r < cols
  {
    i % cols
  }

  function Place(i: nat, cols: nat): (int, nat)
    requires cols > 0
  {
    (RowOf(i, cols), ColOf(i, cols))
  }

  /** The screen that shows exactly `s`, from the top left corner. */
  function Layout(s: seq<Byte>, cols: nat): Cells
    requires cols > 0
  {
    if s == [] then map[] else Layout(s[..|s| - 1], cols)[Place(|s| - 1, cols) := s[|s| - 1]]
  }

  /** Every character has a cell of its own. */
  lemma {:induction false} LayoutShows(s: seq<Byte>, cols: nat, i: nat)
    requires cols > 0 && i < |s|
    ensures Place(i, cols) in Layout(s, cols) && Layout(s, cols)[Place(i, cols)] == s[i]
  {
    var last := |s| - 1;
    if i < last {
      LayoutShows(s[..last], cols, i);
      PlaceInjective(i, last, cols);
    }
  }

  /** Nothing else is on the screen. */
  lemma {:induction false} LayoutOnly(s: seq<Byte>, cols: nat, k: (int, nat))
    requires cols > 0 && k in Layout(s, cols)
    ensures exists i: nat :: i < |s| && k == Place(i, cols)
  {
    var last := |s| - 1;
    if k != Place(last, cols) {
      LayoutOnly(s[..last], cols, k);
      var i: nat :| i < last && k == Place(i, cols);
      assert i < |s|;
    }
  }

  lemma PlaceInjective(i: nat, j: nat, cols: nat)
    requires cols > 0
    ensures Place(i, cols) == Place(j, cols) <==> i == j
  {
    DivMod(i, cols);
    DivMod(j, cols);
  }

  lemma DivMod(i: nat, c: nat)
    requires c > 0
    ensures i == (i / c) * c + i % c && i / c >= 0
  {
  }

  lemma DivIs(i: nat, c: nat, q: nat, r: nat)
    requires r < c && i == q * c + r
    ensures i / c == q && i % c == r
  {
    DivMod(i, c);
    if i / c < q {
      Mul(i / c + 1, q, c);
    } else if i / c > q {
      Mul(q + 1, i / c, c);
    }
  }

  lemma Mul(a: nat, b: nat, c: nat)
    requires a <= b
    ensures a * c <= b * c
  {
  }

  lemma NextFrom(i: nat, cols: nat, q: nat, r: nat)
    requires r < cols && i == q * cols + r
    ensures (i + 1) / cols == if r + 1 < cols then q else q + 1
    ensures (i + 1) % cols == if r + 1 < cols then r + 1 else 0
  {
    if r + 1 < cols {
      DivIs(i + 1, cols, q, r + 1);
    } else {
      MulSucc(q, cols);
      DivIs(i + 1, cols, q + 1, 0);
    }
  }

  lemma MulSucc(q: nat, c: nat)
    ensures (q + 1) * c == q * c + c
  {
  }

  /** The next place is one to the right, or at the start of the next row. */
  lemma NextPlace(i: nat, cols: nat)
    requires cols > 0
    ensures Place(i + 1, cols) ==
      if ColOf(i, cols) + 1 < cols then (RowOf(i, cols), ColOf(i, cols) + 1) else (RowOf(i, cols) + 1, 0)
  {
    DivMod(i, cols);
    var q, r := i / cols, i % cols;
    NextFrom(i, cols, q, r);
  }

  /** The page around row 0, and what is on its rows above. */
  datatype Page = Page(above: int, below: int, upper: Cells)

  /** The page after the cursor has been in `row`. */
  function Reach(p: Page, row: int): Page {
    if row <= p.below then p
    else Page(p.above - (row - p.below), row, From(p.upper, row - p.below - p.above))
  }

  lemma ReachTwice(p: Page, a: int, b: int)
    requires a <= b
    ensures Reach(Reach(p, a), b) == Reach(p, b)
  {
  }

  lemma ReachSize(p: Page, row: int)
    ensures var q := Reach(p, row); q.above + q.below == p.above + p.below && q.below >= row && q.below >= p.below
    ensures row <= p.above + p.below && p.above >= 0 ==> Reach(p, row).above >= 0
  {
  }

  /** The page scrolls no further than `row` asks; rows that leave the page are lost, the others kept. */
  lemma ReachKeeps(p: Page, row: int)
    ensures var q := Reach(p, row);
      && q.below == (if row <= p.below then p.below else row) && q.above + q.below == p.above + p.below
      && (forall k | k in q.upper :: k in p.upper && q.upper[k] == p.upper[k])
      && (forall k | k in p.upper && k.0 + q.above >= 0 :: k in q.upper)
      && (q != p ==> forall k | k in q.upper :: k.0 + q.above >= 0)
  {
  }

  /** Nothing on the screen from row 0 on, and the cursor at its start. */
  function Blank(cols: nat, p: Page): Term {
    Term(cols, p.above, p.below, 0, 0, false, p.upper)
  }

  /** The last row that `n` characters reach. */
  function LastRow(n: nat, cols: nat): nat
    requires cols > 0
  {
    if n == 0 then 0 else RowOf(n - 1, cols)
  }

  /** The terminal after `s` was printed there. */
  function Printed(s: seq<Byte>, cols: nat, p: Page): Term
    requires cols > 0
  {
    var n := |s|;
    var q := Reach(p, LastRow(n, cols));
    var cells := q.upper + Layout(s, cols);
    if n > 0 && ColOf(n, cols) == 0 then
      Term(cols, q.above, q.below, RowOf(n - 1, cols), ColOf(n - 1, cols), true, cells)
    else Term(cols, q.above, q.below, RowOf(n, cols), ColOf(n, cols), false, cells)
  }

  lemma LayoutNext(s: seq<Byte>, c: Byte, cols: nat, upper: Cells)
    requires cols > 0
    ensures upper + Layout(s + [c], cols) == (upper + Layout(s, cols))[Place(|s|, cols) := c]
    ensures upper + Layout([], cols) == upper
  {
    hide RowOf, ColOf;
    var r := s + [c];
    assert r[..|r| - 1] == s && r[|r| - 1] == c;
  }

  /** Scrolling drops rows above row 0 only, as long as the text fits. */
  lemma FromOver(upper: Cells, s: seq<Byte>, cols: nat, top: int)
    requires cols > 0 && top <= 0
    ensures From(upper + Layout(s, cols), top) == From(upper, top) + Layout(s, cols)
  {
    hide RowOf, ColOf, Layout;
    forall k | k in Layout(s, cols) ensures k.0 >= 0 {
      LayoutOnly(s, cols, k);
    }
  }

  /** Before the character after the first `n`: whether a wrap is pending, and where it goes. */
  lemma PrintOne(s: seq<Byte>, c: Byte, cols: nat, p: Page)
    requires cols > 0 && p.above >= 0 && p.below >= 0 && RowOf(|s|, cols) <= p.above + p.below
    ensures Do(Printed(s, cols, p), Print(c)) == Printed(s + [c], cols, p)
  {
    hide RowOf, ColOf, Layout, From;
    var n := |s|;
    NextPlace(n, cols);
    if n == 0 {
      FirstPlace(cols);
      assert s == [];
      LayoutNext(s, c, cols, p.upper);
    } else if ColOf(n, cols) == 0 {
      NextPlace(n - 1, cols);
      var q, q' := Reach(p, RowOf(n - 1, cols)), Reach(p, RowOf(n, cols));
      ReachTwice(p, RowOf(n - 1, cols), RowOf(n, cols));
      FromOver(q.upper, s, cols, 0 - q'.above);
      LayoutNext(s, c, cols, q'.upper);
    } else {
      NextPlace(n - 1, cols);
      LayoutNext(s, c, cols, Reach(p, RowOf(n, cols)).upper);
    }
  }

  lemma FirstPlace(cols: nat)
    requires cols > 0
    ensures RowOf(0, cols) == 0 && ColOf(0, cols) == 0
  {
    DivIs(0, cols, 0, 0);
  }

  /** Printing, with wraps and scrolling, a text that fits the page. */
  lemma {:induction false} PrintAll(s: seq<Byte>, cols: nat, p: Page)
    requires cols > 0 && p.above >= 0 && p.below >= 0 && LastRow(|s|, cols) <= p.above + p.below
    ensures Feed(Blank(cols, p), Prints(s)) == Printed(s, cols, p)
  {
    hide RowOf, ColOf, Layout;
    if s == [] {
      FirstPlace(cols);
      LayoutNext([], 0, cols, p.upper);
    } else {
      var init, c := s[..|s| - 1], s[|s| - 1];
      assert s == init + [c];
      LastRowMono(|init|, cols);
      PrintAll(init, cols, p);
      PrintsConcat(init, [c]);
      assert Prints([c]) == [Print(c)];
      FeedConcat(Blank(cols, p), Prints(init), [Print(c)]);
      FeedOne(Printed(init, cols, p), Print(c));
      PrintOne(init, c, cols, p);
    }
  }

  lemma LastRowMono(n: nat, cols: nat)
    requires cols > 0
    ensures LastRow(n, cols) <= LastRow(n + 1, cols)
  {
    hide RowOf, ColOf;
    if n > 0 {
      NextPlace(n - 1, cols);
    }
  }
}
