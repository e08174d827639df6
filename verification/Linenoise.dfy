/**
 The line editor of lib/wrappers/linenoise/linenoise.c in multi-line mode,
 working in place on its buffer, its history array and a terminal. Every
 operation refines `LineEdit`, and after every key the terminal shows the prompt,
 the line and the cursor where they belong.
 */
module Linenoise {
  import opened Terminal
  import opened LineEdit

  // ---------- history ----------

  function WithoutLast(h: seq<Text>): seq<Text> {
    if h == [] then [] else h[..|h| - 1]
  }

  /** The static `history`, `history_len` and `history_max_len`. */
  class HistoryBuffer {
    var history: array?<Text>
    var historyLen: nat
    var historyMaxLen: nat

    ghost predicate Valid()
      reads this
    {
      && historyLen <= historyMaxLen
      && (history == null ==> historyLen == 0)
      && (history != null ==> history.Length == historyMaxLen)
    }

    ghost function Contents(): seq<Text>
      requires Valid()
      reads this, history
    {
      if history == null then [] else history[..historyLen]
    }

    constructor (max: nat)
      ensures Valid() && Contents() == [] && historyMaxLen == max && history == null
    {
      history := null;
      historyLen := 0;
      historyMaxLen := max;
    }

    /** Entries from `from` on move down to the start (`memmove` and `memcpy`). */
    method HistoryAdd(line: Text) returns (added: bool)
      requires Valid()
      modifies this, history
      ensures Valid() && historyMaxLen == old(historyMaxLen)
      ensures history == old(history) || fresh(history)
      ensures Contents() == AddLine(old(Contents()), historyMaxLen, line)
      ensures added <==> historyMaxLen > 0 && !(old(Contents()) != [] && old(Contents())[|old(Contents())| - 1] == line)
    {
      if historyMaxLen == 0 {
        return false;
      }
      if history == null {
        history := new Text[historyMaxLen](_ => []);
      }
      ghost var before := history[..historyLen];
      assert before == old(Contents());
      if historyLen > 0 && history[historyLen - 1] == line {
        return false;
      }
      if historyLen == historyMaxLen {
        forall i | 0 <= i < historyMaxLen - 1 {
          history[i] := history[i + 1];
        }
        historyLen := historyLen - 1;
        assert history[..historyLen] == before[1..];
      }
      history[historyLen] := line;
      historyLen := historyLen + 1;
      assert history[..historyLen] == history[..historyLen - 1] + [line];
      return true;
    }

    method SetMaxLen(len: int) returns (ok: bool)
      requires Valid()
      modifies this
      ensures Valid()
      ensures ok <==> len >= 1
      ensures !ok ==> historyMaxLen == old(historyMaxLen) && history == old(history) && Contents() == old(Contents())
      ensures ok ==> historyMaxLen == len
      ensures ok ==>
        var h := old(Contents());
        Contents() == if |h| > len then h[|h| - len..] else h
    {
      if len < 1 {
        return false;
      }
      if history != null {
        var tocopy := if len < historyLen then len else historyLen;
        var copy := CopyLast(tocopy, len);
        history := copy;
      }
      historyMaxLen := len;
      if historyLen > historyMaxLen {
        historyLen := historyMaxLen;
      }
      return true;
    }

    /** A new array of length `size` with the last `tocopy` entries. */
    method CopyLast(tocopy: nat, size: nat) returns (copy: array<Text>)
      requires Valid() && history != null && tocopy <= historyLen && tocopy <= size
      ensures fresh(copy) && copy.Length == size
      ensures copy[..tocopy] == history[historyLen - tocopy..historyLen]
    {
      copy := new Text[size](_ => []);
      var src := historyLen - tocopy;
      forall i | 0 <= i < tocopy {
        copy[i] := history[src + i];
      }
    }

    /** The text of entry `i` is replaced. */
    method SetEntry(i: nat, line: Text)
      requires Valid() && i < historyLen
      modifies history
      ensures Valid() && Contents() == old(Contents())[i := line]
    {
      history[i] := line;
    }

    /** The entry of the line being edited is dropped when editing ends. */
    method DropCurrent()
      requires Valid() && historyLen > 0
      modifies `historyLen
      ensures Valid() && Contents() == WithoutLast(old(Contents()))
    {
      historyLen := historyLen - 1;
    }
  }

  // ---------- what a refresh does to the terminal ----------

  /** Below row `rows` the screen is empty. */
  ghost predicate Confined(cells: Cells, rows: int) {
    forall k | k in cells :: k.0 < rows
  }

  lemma ConfinedMore(cells: Cells, rows: int, rows': int)
    requires Confined(cells, rows) && rows <= rows'
    ensures Confined(cells, rows')
  {
  }

  /** `\r` and erase to the right. */
  lemma ClearRow(t: Term)
    requires t.cols > 0 && t.row >= 0
    ensures Feed(t, [CR, EraseRight]) == t.(col := 0, pending := false, cells := Erase(t.cells, t.row, 0))
    ensures NeverAbove(t, [CR, EraseRight]) && Upper(Erase(t.cells, t.row, 0)) == Upper(t.cells)
    ensures Confined(t.cells, t.row + 1) ==> Confined(Erase(t.cells, t.row, 0), t.row)
  {
    var t1 := Do(t, CR);
    FeedTwo(t, CR, EraseRight);
    assert [CR, EraseRight][1..] == [EraseRight] && [EraseRight][1..] == [];
    assert NeverAbove(t1, [EraseRight]);
  }

  /** The same, and one row up. */
  lemma ClearRowUp(t: Term)
    requires t.cols > 0 && t.row >= 0 && t.above >= 0 && (t.row == 0 ==> t.above == 0)
    ensures Feed(t, [CR, EraseRight, Up(1)]) ==
      t.(row := if t.row > 0 then t.row - 1 else 0, col := 0, pending := false, cells := Erase(t.cells, t.row, 0))
    ensures NeverAbove(t, [CR, EraseRight, Up(1)])
  {
    ClearRow(t);
    var t2 := Feed(t, [CR, EraseRight]);
    assert [CR, EraseRight, Up(1)] == [CR, EraseRight] + [Up(1)];
    FeedConcat(t, [CR, EraseRight], [Up(1)]);
    FeedOne(t2, Up(1));
    assert [Up(1)][1..] == [];
    assert NeverAbove(t2, [Up(1)]);
    NeverAboveConcat(t, [CR, EraseRight], [Up(1)]);
  }

  // row arithmetic of the refresh

  lemma RowsIs(n: nat, cols: nat)
    requires cols > 0
    ensures (n + cols - 1) / cols == RowsFor(n, cols)
    ensures (n + cols) / cols == RowOf(n, cols) + 1
    ensures n % cols == ColOf(n, cols)
  {
    DivMod(n, cols);
    MulSucc(n / cols, cols);
    DivIs(n + cols, cols, n / cols + 1, n % cols);
    if n == 0 {
      DivIs(cols - 1, cols, 0, cols - 1);
    } else {
      DivMod(n - 1, cols);
      MulSucc((n - 1) / cols, cols);
      DivIs(n + cols - 1, cols, (n - 1) / cols + 1, (n - 1) % cols);
    }
  }

  lemma RowMono(a: nat, b: nat, cols: nat)
    requires a <= b && cols > 0
    ensures RowOf(a, cols) <= RowOf(b, cols)
  {
    DivMod(a, cols);
    DivMod(b, cols);
    QuotientMono(a / cols, a % cols, b / cols, b % cols, cols);
  }

  lemma QuotientMono(qa: nat, ra: nat, qb: nat, rb: nat, c: nat)
    requires ra < c && rb < c && qa * c + ra <= qb * c + rb
    ensures qa <= qb
  {
    MulSucc(qb, c);
    if qa > qb {
      Mul(qb + 1, qa, c);
    }
  }

  lemma FirstRow(n: nat, cols: nat)
    requires n < cols
    ensures RowOf(n, cols) == 0 && ColOf(n, cols) == n
  {
    DivIs(n, cols, 0, n);
  }

  /** Rows used by `n` characters, counted from one. */
  function RowsFor(n: nat, cols: nat): nat
    requires cols > 0
  {
    if n == 0 then 0 else RowOf(n - 1, cols) + 1
  }

  /** The cursor's row is one of the rows used, or at the very end the one after. */
  lemma CursorRow(n: nat, p: nat, plen: nat, cols: nat)
    requires plen < cols && plen <= p <= n
    ensures n > 0 && (p < n || ColOf(n, cols) != 0) ==> RowOf(p, cols) < RowsFor(n, cols)
    ensures p == n > plen && ColOf(n, cols) == 0 ==> RowOf(p, cols) == RowsFor(n, cols)
    ensures p == n == plen && ColOf(n, cols) == 0 ==> n == 0
    ensures n > 0 && ColOf(n, cols) != 0 ==> RowsFor(n, cols) == RowOf(n, cols) + 1
  {
    hide RowOf, ColOf;
    if p == n == plen {
      FirstRow(n, cols);
    }
    if n > 0 {
      NextPlace(n - 1, cols);
      if p < n {
        RowMono(p, n - 1, cols);
      }
    }
  }

  lemma LayoutConfined(s: seq<Byte>, cols: nat)
    requires cols > 0
    ensures Confined(Layout(s, cols), RowsFor(|s|, cols))
  {
    hide RowOf, ColOf;
    forall k | k in Layout(s, cols) ensures k.0 < RowsFor(|s|, cols) {
      LayoutOnly(s, cols, k);
      var i: nat :| i < |s| && k == Place(i, cols);
      RowMono(i, |s| - 1, cols);
    }
  }

  /** The number of the last of some rows. */
  function LastOf(rows: nat): nat {
    if rows > 0 then rows - 1 else 0
  }

  /** Where the cursor is after `s` was printed. */
  lemma PrintedRow(s: seq<Byte>, cols: nat, p: Page)
    requires cols > 0
    ensures var t, q := Printed(s, cols, p), Reach(p, LastRow(|s|, cols));
      && t.row == LastRow(|s|, cols) == LastOf(RowsFor(|s|, cols))
      && t.cols == cols && t.above == q.above && t.below == q.below && t.cells == q.upper + Layout(s, cols)
  {
    hide RowOf, ColOf, Layout;
    if |s| > 0 && ColOf(|s|, cols) != 0 {
      NextPlace(|s| - 1, cols);
    } else if |s| == 0 {
      FirstPlace(cols);
    }
  }

  /** `s` on the page from row 0 on, and the cursor somewhere. */
  function Screen(cols: nat, p: Page, row: nat, col: nat, s: seq<Byte>): Term
    requires cols > 0
  {
    Term(cols, p.above, p.below, row, col, false, p.upper + Layout(s, cols))
  }

  function PageOf(t: Term): Page {
    Page(t.above, t.below, Upper(t.cells))
  }

  lemma ReachUpper(p: Page, row: int)
    requires Upper(p.upper) == p.upper
    ensures Upper(Reach(p, row).upper) == Reach(p, row).upper
  {
    forall k | k in p.upper ensures k.0 < 0 {
      assert k in Upper(p.upper);
    }
  }

  /** The text does not touch what is above the prompt. */
  lemma UpperOver(earlier: Cells, s: seq<Byte>, cols: nat)
    requires cols > 0 && Upper(earlier) == earlier
    ensures Upper(earlier + Layout(s, cols)) == earlier
  {
    hide RowOf, ColOf, Layout;
    forall k | k in Layout(s, cols) ensures k.0 >= 0 {
      LayoutOnly(s, cols, k);
    }
    forall k | k in earlier ensures k.0 < 0 {
      assert k in Upper(earlier);
    }
  }

  lemma ConfinedOver(earlier: Cells, cells: Cells, rows: int)
    requires Upper(earlier) == earlier && Confined(cells, rows) && rows >= 0
    ensures Confined(earlier + cells, rows)
  {
    forall k | k in earlier ensures k.0 < 0 {
      assert k in Upper(earlier);
    }
  }

  // the end of a refresh: newline at the very end of a row, then up, then to the column

  function NewlineOps(newline: bool): seq<Op> {
    if newline then [LF, CR] else []
  }

  function UpOps(up: nat): seq<Op> {
    if up > 0 then [Up(up)] else []
  }

  function ColumnOps(col: nat): seq<Op> {
    if col > 0 then [CR, Right(col)] else [CR]
  }

  lemma NewlineDoes(t: Term, newline: bool)
    requires 0 <= t.row <= t.below
    ensures var r, to := Feed(t, NewlineOps(newline)), Scroll(t, t.row + if newline then 1 else 0);
      r.cols == to.cols && r.above == to.above && r.below == to.below && r.row == to.row && r.cells == to.cells
    ensures NeverAbove(t, NewlineOps(newline))
  {
    if newline {
      FeedTwo(t, LF, CR);
      assert [LF, CR][1..] == [CR] && [CR][1..] == [];
      assert NeverAbove(Do(t, LF), [CR]);
    }
  }

  lemma UpDoes(t: Term, up: nat)
    requires up <= t.row && t.above >= 0
    ensures var r := Feed(t, UpOps(up));
      r.cols == t.cols && r.above == t.above && r.below == t.below && r.row == t.row - up && r.cells == t.cells
    ensures NeverAbove(t, UpOps(up))
  {
    if up > 0 {
      FeedOne(t, Up(up));
      assert [Up(up)][1..] == [];
    }
  }

  lemma ColumnDoes(t: Term, col: nat)
    requires col < t.cols && t.row >= 0
    ensures Feed(t, ColumnOps(col)) == t.(col := col, pending := false)
    ensures NeverAbove(t, ColumnOps(col))
  {
    if col > 0 {
      FeedTwo(t, CR, Right(col));
      assert [CR, Right(col)][1..] == [Right(col)] && [Right(col)][1..] == [];
      assert NeverAbove(Do(t, CR), [Right(col)]);
    } else {
      FeedOne(t, CR);
      assert [CR][1..] == [];
    }
  }

  lemma FeedTwo(t: Term, a: Op, b: Op)
    ensures Feed(t, [a, b]) == Do(Do(t, a), b)
  {
    assert [a, b][1..] == [b];
    FeedOne(Do(t, a), b);
  }

  lemma TailDoes(t: Term, newline: bool, up: nat, col: nat)
    requires col < t.cols && 0 <= t.row <= t.below
    requires var to := Scroll(t, t.row + if newline then 1 else 0); to.above >= 0 && up <= to.row
    ensures var to := Scroll(t, t.row + if newline then 1 else 0);
      Feed(t, NewlineOps(newline) + UpOps(up) + ColumnOps(col)) ==
        to.(row := to.row - up, col := col, pending := false)
    ensures NeverAbove(t, NewlineOps(newline) + UpOps(up) + ColumnOps(col))
  {
    hide Feed, NewlineOps, UpOps, ColumnOps, NeverAbove, From;
    var a, b, c := NewlineOps(newline), UpOps(up), ColumnOps(col);
    FeedConcat(t, a + b, c);
    FeedConcat(t, a, b);
    NewlineDoes(t, newline);
    UpDoes(Feed(t, a), up);
    ColumnDoes(Feed(t, a + b), col);
    NeverAboveConcat(t, a, b);
    NeverAboveConcat(t, a + b, c);
  }

  /** A row more, perhaps. */
  lemma ScrollPrinted(s: seq<Byte>, cols: nat, p: Page, newline: bool)
    requires cols > 0 && p.above >= 0 && p.below >= 0
    requires LastRow(|s|, cols) + (if newline then 1 else 0) <= p.above + p.below
    ensures var t := Printed(s, cols, p);
      var to := Scroll(t, t.row + if newline then 1 else 0);
      var q := Reach(p, LastRow(|s|, cols) + if newline then 1 else 0);
      && t.cols == cols && 0 <= t.row <= t.below && t.row == LastRow(|s|, cols)
      && to.cols == cols && to.above == q.above >= 0 && to.below == q.below
      && to.row == LastRow(|s|, cols) + (if newline then 1 else 0) && to.cells == q.upper + Layout(s, cols)
  {
    hide RowOf, ColOf, Layout, LastRow, Printed, From, RowsFor;
    PrintedRow(s, cols, p);
    var last := LastRow(|s|, cols);
    ReachSize(p, last);
    if newline {
      ReachTwice(p, last, last + 1);
      ReachSize(p, last + 1);
      FromOver(Reach(p, last).upper, s, cols, 0 - Reach(p, last + 1).above);
    }
  }

  /** Rows written, and how far up from the last of them the cursor belongs. */
  function RowsWritten(n: nat, newline: bool, cols: nat): nat
    requires cols > 0
  {
    RowsFor(n, cols) + if newline then 1 else 0
  }

  function UpBy(rows: nat, p: nat, cols: nat): nat
    requires cols > 0
  {
    var rpos2 := RowOf(p, cols) + 1;
    if rows > rpos2 then rows - rpos2 else 0
  }

  lemma UpIsRight(n: nat, p: nat, plen: nat, cols: nat, newline: bool)
    requires plen < cols && plen <= p <= n
    requires newline <==> p > plen && p == n && ColOf(p, cols) == 0
    ensures var rows := RowsWritten(n, newline, cols);
      var last := (if n == 0 then 0 else RowsFor(n, cols) - 1) + if newline then 1 else 0;
      && UpBy(rows, p, cols) <= last && last - UpBy(rows, p, cols) == RowOf(p, cols)
      && RowOf(p, cols) < (if rows > 0 then rows else 1)
  {
    hide RowOf, ColOf;
    CursorRow(n, p, plen, cols);
    if n == 0 {
      FirstRow(0, cols);
    }
  }

  /** From the last row written to the place of the cursor. */
  function CursorTail(rows: nat, newline: bool, p: nat, cols: nat): seq<Op>
    requires cols > 0
  {
    NewlineOps(newline) + UpOps(UpBy(rows, p, cols)) + ColumnOps(ColOf(p, cols))
  }

  lemma RowsBefore(n: nat, newline: bool, cols: nat)
    requires cols > 0 && (newline ==> n > 0)
    ensures LastOf(RowsWritten(n, newline, cols)) == LastRow(n, cols) + if newline then 1 else 0
  {
    hide RowOf, ColOf;
    RowsPositive(n, cols);
  }

  /** The cursor goes from the end of the text to its place. */
  lemma CursorLands(s: seq<Byte>, p: nat, plen: nat, cols: nat, newline: bool, page: Page)
    requires plen < cols && plen <= p <= |s| && page.above >= 0 && page.below >= 0
    requires newline <==> p > plen && p == |s| && ColOf(p, cols) == 0
    requires LastOf(RowsWritten(|s|, newline, cols)) <= page.above + page.below
    ensures var rows := RowsWritten(|s|, newline, cols);
      var t, ops := Printed(s, cols, page), CursorTail(rows, newline, p, cols);
      && Feed(t, ops) == Screen(cols, Reach(page, LastOf(rows)), RowOf(p, cols), ColOf(p, cols), s)
      && NeverAbove(t, ops)
  {
    hide RowOf, ColOf, Feed, Layout, Printed, NewlineOps, UpOps, ColumnOps, UpBy, RowsFor, NeverAbove, Reach, Scroll;
    var up := UpBy(RowsWritten(|s|, newline, cols), p, cols);
    RowsPositive(|s|, cols);
    ScrollPrinted(s, cols, page, newline);
    UpIsRight(|s|, p, plen, cols, newline);
    TailDoes(Printed(s, cols, page), newline, up, ColOf(p, cols));
  }

  /** Prompt and line printed on empty rows, and the cursor moved to its place. */
  lemma RefreshEnds(s: seq<Byte>, p: nat, plen: nat, cols: nat, newline: bool, page: Page)
    requires plen < cols && plen <= p <= |s| && page.above >= 0 && page.below >= 0
    requires newline <==> p > plen && p == |s| && ColOf(p, cols) == 0
    requires LastOf(RowsWritten(|s|, newline, cols)) <= page.above + page.below
    ensures var rows := RowsWritten(|s|, newline, cols);
      var ops := Prints(s) + CursorTail(rows, newline, p, cols);
      && Feed(Blank(cols, page), ops) == Screen(cols, Reach(page, LastOf(rows)), RowOf(p, cols), ColOf(p, cols), s)
      && NeverAbove(Blank(cols, page), ops)
  {
    hide RowOf, ColOf, Feed, Layout, Prints, Printed, CursorTail, RowsWritten, NeverAbove, Reach, LastRow, Screen;
    hide LastOf;
    var rows := RowsWritten(|s|, newline, cols);
    var t, tail := Blank(cols, page), CursorTail(rows, newline, p, cols);
    RowsBefore(|s|, newline, cols);
    PrintAll(s, cols, page);
    FeedConcat(t, Prints(s), tail);
    CursorLands(s, p, plen, cols, newline, page);
    PrintsStay(t, s);
    NeverAboveConcat(t, Prints(s), tail);
  }

  /** The same after the rows have been cleared, with prompt and line printed one after the other. */
  lemma RefreshOutput(t: Term, cleared: seq<Op>, prompt: seq<Byte>, text: seq<Byte>, tail: seq<Op>, p: nat,
                      newline: bool, cols: nat)
    requires |prompt| < cols && |prompt| <= p <= |prompt| + |text| && t.above >= 0 && t.below >= 0
    requires newline <==> p > |prompt| && p == |prompt| + |text| && ColOf(p, cols) == 0
    requires LastOf(RowsWritten(|prompt| + |text|, newline, cols)) <= t.above + t.below
    requires Feed(t, cleared) == Blank(cols, PageOf(t)) && NeverAbove(t, cleared)
    requires tail == CursorTail(RowsWritten(|prompt| + |text|, newline, cols), newline, p, cols)
    ensures var ops := cleared + Prints(prompt) + Prints(text) + tail;
      var page := Reach(PageOf(t), LastOf(RowsWritten(|prompt| + |text|, newline, cols)));
      Feed(t, ops) == Screen(cols, page, RowOf(p, cols), ColOf(p, cols), prompt + text) && NeverAbove(t, ops)
  {
    hide RowOf, ColOf, Feed, Layout, Prints, CursorTail, NeverAbove, Upper, Blank, RowsWritten, Reach;
    var s := prompt + text;
    PrintsConcat(prompt, text);
    RefreshEnds(s, p, |prompt|, cols, newline, PageOf(t));
    FeedAll(t, cleared, Prints(prompt), Prints(text), Prints(s), tail);
  }

  lemma FeedAll(t: Term, a: seq<Op>, b: seq<Op>, c: seq<Op>, bc: seq<Op>, d: seq<Op>)
    requires bc == b + c && NeverAbove(t, a) && NeverAbove(Feed(t, a), bc + d)
    ensures Feed(t, a + b + c + d) == Feed(Feed(t, a), bc + d) && NeverAbove(t, a + b + c + d)
  {
    hide Feed, NeverAbove;
    Regroup(a, b, c, d);
    FeedConcat(t, a, bc + d);
    NeverAboveConcat(t, a, bc + d);
  }

  lemma Regroup(a: seq<Op>, b: seq<Op>, c: seq<Op>, d: seq<Op>)
    ensures a + b + c + d == a + ((b + c) + d)
  {
  }

  /** What the next refresh will rely on. */
  lemma RefreshLeaves(earlier: Cells, prompt: seq<Byte>, text: seq<Byte>, p: nat, newline: bool, cols: nat, most: nat)
    requires |prompt| < cols && |prompt| <= p <= |prompt| + |text| && Upper(earlier) == earlier
    requires newline <==> p > |prompt| && p == |prompt| + |text| && ColOf(p, cols) == 0
    requires RowsWritten(|prompt| + |text|, newline, cols) <= most
    ensures Confined(earlier + Layout(prompt + text, cols), LastOf(most) + 1) && RowOf(p, cols) <= LastOf(most)
  {
    hide RowOf, ColOf, Layout, Confined, Upper, RowsFor;
    UpIsRight(|prompt + text|, p, |prompt|, cols, newline);
    RefreshConfined(earlier, prompt + text, if most > 0 then most else 1, cols);
  }

  lemma RefreshConfined(earlier: Cells, s: seq<Byte>, rows: nat, cols: nat)
    requires cols > 0 && Upper(earlier) == earlier && rows >= RowsFor(|s|, cols)
    ensures Confined(earlier + Layout(s, cols), rows)
  {
    hide RowOf, ColOf, Layout, Confined, Upper;
    LayoutConfined(s, cols);
    ConfinedMore(Layout(s, cols), RowsFor(|s|, cols), rows);
    ConfinedOver(earlier, Layout(s, cols), rows);
  }

  lemma RowsPositive(n: nat, cols: nat)
    requires cols > 0
    ensures n > 0 ==> RowsFor(n, cols) > 0
    ensures LastOf(RowsFor(n, cols)) == LastRow(n, cols)
  {
  }

  lemma RowConfined(cells: Cells, rows: int, rows': int)
    requires (Confined(cells, rows) && rows <= rows') || cells == map[]
    ensures Confined(cells, rows')
  {
  }

  lemma OnlyUpper(cells: Cells)
    requires Confined(cells, 0)
    ensures Upper(cells) == cells
  {
  }

  lemma UpperTwice(cells: Cells)
    ensures Upper(Upper(cells)) == Upper(cells)
  {
  }

  /** The prompt alone. */
  lemma StartScreen(prompt: seq<Byte>, cols: nat, page: Page)
    requires |prompt| < cols && Upper(page.upper) == page.upper && page.above >= 0 && page.below >= 0
    ensures var t := Feed(Blank(cols, page), Prints(prompt));
      && t == Screen(cols, page, RowOf(|prompt|, cols), ColOf(|prompt|, cols), prompt)
      && PageOf(t) == page && Confined(t.cells, 1) && RowOf(|prompt|, cols) == 0
  {
    hide Layout, Confined, Upper;
    FirstRow(|prompt|, cols);
    if |prompt| > 0 {
      FirstRow(|prompt| - 1, cols);
    }
    PrintAll(prompt, cols, page);
    UpperOver(page.upper, prompt, cols);
    LayoutConfined(prompt, cols);
    ConfinedMore(Layout(prompt, cols), RowsFor(|prompt|, cols), 1);
    ConfinedOver(page.upper, Layout(prompt, cols), 1);
  }

  // ---------- what becomes of the page ----------

  /** The page after it was wiped. */
  function Wiped(p: Page): Page {
    Page(0, p.above + p.below, map[])
  }

  /**
   From page `p`, with `rows` as the most rows that were needed so far, to `q` with `rows'`: what
   is above the prompt is as it was, but for the rows that had to scroll away.
   */
  ghost predicate PageKept(p: Page, rows: nat, q: Page, rows': nat) {
    && rows <= rows' && q.above + q.below == p.above + p.below
    && (rows' <= p.above + p.below + 1 ==> q == Reach(p, LastOf(rows')))
  }

  lemma PageSame(p: Page, rows: nat)
    requires rows <= p.above + p.below + 1 ==> LastOf(rows) <= p.below
    ensures PageKept(p, rows, p, rows)
  {
  }

  lemma PageTrans(p: Page, rows: nat, q: Page, rows': nat, r: Page, rows'': nat)
    requires PageKept(p, rows, q, rows') && PageKept(q, rows', r, rows'')
    ensures PageKept(p, rows, r, rows'')
  {
    ReachTwice(p, LastOf(rows'), LastOf(rows''));
  }

  /** Wiping makes room for every line that fits. */
  lemma PageWiped(p: Page, rows: nat, q: Page, rows': nat)
    requires rows <= rows' && q.above + q.below == p.above + p.below >= 0
    ensures PageKept(Wiped(p), rows, Wiped(q), rows')
  {
  }

  lemma StartWiped(p: Page, rows: nat)
    requires p.above + p.below >= 0
    ensures PageKept(Wiped(p), rows, Wiped(p), rows) && Wiped(Wiped(p)) == Wiped(p)
  {
    PageWiped(p, rows, p, rows);
  }

  /** One command of several: `c0` if it clears the screen, `c1` if a later one does. */
  lemma PageStep(start: Page, rows0: nat, p: Page, rows: nat, q: Page, rows': nat, c0: bool, c1: bool)
    requires PageKept(start, rows0, if c0 || c1 then Wiped(p) else p, rows)
    requires PageKept(if c0 then Wiped(p) else p, rows, q, rows') && p.above + p.below >= 0
    requires c1 ==> start == Wiped(start)
    ensures PageKept(start, rows0, if c1 then Wiped(q) else q, rows')
  {
    if c1 {
      PageWiped(start, rows0, q, rows');
    } else {
      PageTrans(start, rows0, if c0 then Wiped(p) else p, rows, q, rows');
    }
  }

  /** Only the most rows ever needed count. */
  lemma ReachMost(p: Page, rows: nat, before: nat, most: nat)
    requires LastOf(before) <= p.below && most == if rows > before then rows else before
    ensures Reach(p, LastOf(rows)) == Reach(p, LastOf(most))
  {
  }

  // ---------- the editor ----------

  class LineState {
    const buf: array<Byte>
    const buflen: nat       // without the place for the final NUL
    const prompt: seq<Byte>
    const cols: nat
    const hist: HistoryBuffer
    var pos: nat
    var oldpos: nat
    var len: nat
    var maxrows: nat
    var historyIndex: nat
    var term: Term          // the terminal that `ofd` writes to

    ghost predicate InBuffer()
      reads this, buf
    {
      && buf.Length == buflen + 1 && buflen > 0 && |prompt| < cols
      && pos <= len <= buflen && buf[len] == 0
    }

    ghost function Text(): seq<Byte>
      requires InBuffer()
      reads this, buf
    {
      buf[..len]
    }

    /** The page around the prompt's row, and what is on the rows above it. */
    ghost function Earlier(): Page
      reads `term
    {
      PageOf(term)
    }

    /** No line so far has needed more rows than the page has. */
    ghost predicate Fits()
      reads `term, `maxrows
    {
      maxrows <= term.above + term.below + 1
    }

    /** What the next refresh relies on: it can find row 0 and clear all from there on. */
    ghost predicate CanRefresh()
      reads `term, `maxrows, `oldpos
    {
      && term.cols == cols > |prompt| && term.above + term.below >= 0
      && (Fits() ==>
        && term.above >= 0 && term.below >= LastOf(maxrows)
        && Confined(term.cells, LastOf(maxrows) + 1)
        && RowOf(|prompt| + oldpos, cols) <= LastOf(maxrows)
        && (term.row == RowOf(|prompt| + oldpos, cols) || (term.row == 0 && term.above == 0 && term.cells == map[])))
    }

    /** Prompt, line and cursor are on the screen, and nothing else from row 0 on. */
    ghost predicate Shown()
      requires InBuffer()
      reads this, buf
    {
      var p := |prompt| + pos;
      && oldpos == pos && CanRefresh()
      && (Fits() ==> term == Screen(cols, Earlier(), RowOf(p, cols), ColOf(p, cols), prompt + Text()))
    }

    /** The state is set up and the prompt written on an empty row, below earlier output. */
    constructor (buf: array<Byte>, prompt: seq<Byte>, cols: nat, hist: HistoryBuffer, page: Page)
      requires buf.Length >= 2 && |prompt| < cols
      requires page.above >= 0 && page.below >= 0 && Upper(page.upper) == page.upper
      modifies buf
      ensures InBuffer() && Shown() && Text() == [] && pos == 0 && historyIndex == 0
      ensures Earlier() == page && maxrows == 0
      ensures this.buf == buf && this.prompt == prompt && this.cols == cols && this.hist == hist
        && buflen == buf.Length - 1
    {
      this.buf := buf;
      this.buflen := buf.Length - 1;
      this.prompt := prompt;
      this.cols := cols;
      this.hist := hist;
      oldpos := 0;
      pos := 0;
      len := 0;
      maxrows := 0;
      historyIndex := 0;
      term := Feed(Blank(cols, page), Prints(prompt));
      new;
      buf[0] := 0;
      StartScreen(prompt, cols, page);
      assert prompt + [] == prompt;
    }

    /** The whole output of a refresh goes to the terminal at once. */
    method RefreshMultiLine()
      requires InBuffer() && CanRefresh()
      modifies `oldpos, `maxrows, `term
      ensures InBuffer() && Shown() && Zipper() == old(Zipper())
      ensures PageKept(old(Earlier()), old(maxrows), Earlier(), maxrows)
      ensures maxrows == MostRows(old(maxrows))
    {
      hide RowOf, ColOf, Feed, Layout, Confined, NeverAbove, Upper, Reach, RowsWritten;
      var ab := RefreshOps();
      ghost var page := Reach(Earlier(), LastOf(maxrows));
      UpperTwice(term.cells);
      ReachUpper(Earlier(), LastOf(maxrows));
      ReachSize(Earlier(), LastOf(maxrows));
      UpperOver(page.upper, prompt + Text(), cols);
      FeedSize(term, ab);
      oldpos := pos;
      term := Feed(term, ab);
    }

    /** The most rows needed so far, with those of the line as it is now. */
    ghost function MostRows(before: nat): nat
      requires InBuffer()
      reads this, buf
    {
      var rows := RowsWritten(|prompt| + len, AtRowEnd(), cols);
      if rows > before then rows else before
    }

    /** What a refresh writes; on its way the cursor is never above the prompt. */
    method RefreshOps() returns (ab: seq<Op>)
      requires InBuffer() && CanRefresh()
      modifies `maxrows
      ensures maxrows == MostRows(old(maxrows))
      ensures Fits() ==>
        var p, page := |prompt| + pos, Reach(Earlier(), LastOf(maxrows));
        && Feed(term, ab) == Screen(cols, page, RowOf(p, cols), ColOf(p, cols), prompt + Text())
        && NeverAbove(term, ab)
        && Confined(page.upper + Layout(prompt + Text(), cols), LastOf(maxrows) + 1)
        && RowOf(p, cols) <= LastOf(maxrows)
    {
      hide RowOf, ColOf, Feed, Layout, Prints, Confined, CursorTail, RowsFor, RowsWritten, NeverAbove, Upper, Blank,
        Reach;
      var plen := |prompt|;
      var rows := (plen + len + cols - 1) / cols;
      var rpos := (plen + oldpos + cols) / cols;
      var oldRows := maxrows;
      RowsIs(plen + len, cols);
      RowsIs(plen + oldpos, cols);
      if rows > maxrows {
        maxrows := rows;
      }
      ab := ClearOps(oldRows, rpos);
      ghost var cleared := ab;
      ab := ab + Prints(prompt) + Prints(buf[..len]);
      var tail;
      tail, rows := CursorOps(rows);
      ab := ab + tail;
      if Fits() {
        UpperTwice(term.cells);
        ReachMost(Earlier(), rows, oldRows, maxrows);
        RefreshOutput(term, cleared, prompt, Text(), tail, |prompt| + pos, AtRowEnd(), cols);
        ReachUpper(Earlier(), LastOf(maxrows));
        RefreshLeaves(Reach(Earlier(), LastOf(maxrows)).upper, prompt, Text(), |prompt| + pos, AtRowEnd(), cols,
          maxrows);
      }
    }

    /** The second half of a refresh, after prompt and line were printed over `rows0` rows. */
    method CursorOps(rows0: nat) returns (ab: seq<Op>, rows: nat)
      requires InBuffer() && rows0 == RowsFor(|prompt| + len, cols)
      modifies `maxrows
      ensures rows == RowsWritten(|prompt| + len, AtRowEnd(), cols)
      ensures ab == TailOps(rows)
      ensures maxrows == if rows > rows0 && rows > old(maxrows) then rows else old(maxrows)
      ensures rows >= rows0
    {
      hide RowOf, ColOf;
      ab, rows := [], rows0;
      var plen := |prompt|;
      RowsIs(plen + pos, cols);
      if pos > 0 && pos == len && (pos + plen) % cols == 0 {
        ab := ab + [LF, CR];
        rows := rows + 1;
        if rows > maxrows {
          maxrows := rows;
        }
      }
      var rpos2 := (plen + pos + cols) / cols;
      if rows - rpos2 > 0 {
        ab := ab + [Up(rows - rpos2)];
      }
      var col := (plen + pos) % cols;
      if col > 0 {
        ab := ab + [CR, Right(col)];
      } else {
        ab := ab + [CR];
      }
    }

    /** The cursor is behind a line that exactly fills its last row. */
    ghost predicate AtRowEnd()
      requires InBuffer()
      reads this, buf
    {
      pos > 0 && pos == len && ColOf(|prompt| + pos, cols) == 0
    }

    ghost function TailOps(rows: nat): seq<Op>
      requires InBuffer()
      reads this, buf
    {
      var p := |prompt| + pos;
      CursorTail(rows, AtRowEnd(), p, cols)
    }

    /**
     The first half of a refresh: to the last row used so far, then clear every row on
     the way up. It ends in the prompt's row, having left alone what is above it.
     */
    method ClearOps(oldRows: nat, rpos: nat) returns (ab: seq<Op>)
      requires term.cols == cols > 0
      ensures Clearable(oldRows, rpos) ==> Feed(term, ab) == Blank(cols, PageOf(term)) && NeverAbove(term, ab)
    {
      hide Confined, Upper, Erase;
      ghost var sure := Clearable(oldRows, rpos);
      var last := if oldRows > 0 then oldRows - 1 else 0;
      ab := [];
      if oldRows - rpos > 0 {
        FeedOne(term, Down(oldRows - rpos));
        ab := ab + [Down(oldRows - rpos)];
        assert ab == [Down(oldRows - rpos)] && ab[1..] == [];
      }
      ghost var x := Feed(term, ab);
      if sure {
        RowConfined(term.cells, last + 1, x.row + 1);
        assert NeverAbove(term, ab);
      }
      hide NeverAbove, Feed;
      for j := 0 to last
        invariant x == Feed(term, ab)
        invariant sure ==> x.cols == cols && x.above == term.above >= 0 && x.below == term.below && NeverAbove(term, ab)
        invariant sure ==> Confined(x.cells, x.row + 1) && Upper(x.cells) == Upper(term.cells)
        invariant sure ==> 0 <= x.row && x.row + j <= last && (x.above > 0 ==> x.row + j == last)
      {
        if sure {
          ClearRow(x);
          ClearRowUp(x);
          NeverAboveConcat(term, ab, [CR, EraseRight, Up(1)]);
          RowConfined(Erase(x.cells, x.row, 0), x.row, if x.row > 0 then x.row else 1);
        }
        FeedConcat(term, ab, [CR, EraseRight, Up(1)]);
        ab := ab + [CR, EraseRight, Up(1)];
        x := Feed(term, ab);
      }
      if sure {
        ClearRow(x);
        NeverAboveConcat(term, ab, [CR, EraseRight]);
        OnlyUpper(Erase(x.cells, 0, 0));
      }
      FeedConcat(term, ab, [CR, EraseRight]);
      ab := ab + [CR, EraseRight];
    }

    /** All rows used so far are on the page, and the cursor is where `rpos` says, or the page is empty. */
    ghost predicate Clearable(oldRows: nat, rpos: nat)
      reads `term
    {
      && 0 < rpos <= LastOf(oldRows) + 1 && Confined(term.cells, LastOf(oldRows) + 1)
      && term.above >= 0 && term.below >= LastOf(oldRows)
      && (term.row == rpos - 1 || (term.row == 0 && term.above == 0 && term.cells == map[]))
    }

    // ----- editing in place -----

    ghost function Zipper(): Line
      requires InBuffer()
      reads this, buf
    {
      Line(buf[..pos], buf[pos..len])
    }

    /** `memmove` within the buffer. */
    method MemMove(dst: nat, src: nat, n: nat)
      requires dst + n <= buf.Length && src + n <= buf.Length
      modifies buf
      ensures buf[..dst] == old(buf[..dst]) && buf[dst..dst + n] == old(buf[src..src + n])
        && buf[dst + n..] == old(buf[dst + n..])
    {
      ghost var before := buf[..];
      assert before[..dst] == buf[..dst] && before[src..src + n] == buf[src..src + n]
        && before[dst + n..] == buf[dst + n..];
      forall i | 0 <= i < n {
        buf[dst + i] := buf[src + i];
      }
      ghost var after := buf[..];
      assert forall i | dst <= i < dst + n :: after[i] == before[src + (i - dst)];
      SameSlices(before, after, dst, src, n);
      assert after[..dst] == buf[..dst] && after[dst..dst + n] == buf[dst..dst + n]
        && after[dst + n..] == buf[dst + n..];
    }

    method EditInsert(c: Byte)
      requires InBuffer() && Shown()
      modifies this, buf
      ensures InBuffer() && Shown() && Zipper() == Edit(old(Zipper()), Insert(c), buflen)
        && historyIndex == old(historyIndex)
      ensures PageKept(old(Earlier()), old(maxrows), Earlier(), maxrows)
    {
      hide RowOf, ColOf, Layout, Confined, Upper, PageKept, Reach, Shown, CanRefresh, Screen, Earlier, MostRows;
      PageStays();
      if len < buflen {
        PutChar(c);
        RefreshMultiLine();
      }
    }

    method PutChar(c: Byte)
      requires pos <= len < buf.Length - 1
      modifies `pos, `len, buf
      ensures pos == old(pos) + 1 && len == old(len) + 1 && buf[len] == 0
      ensures buf[..pos] == old(buf[..pos]) + [c] && buf[pos..len] == old(buf[pos..len])
    {
      ghost var left, right := buf[..pos], buf[pos..len];
      if len == pos {
        buf[pos] := c;
        pos := pos + 1;
        len := len + 1;
        buf[len] := 0;
      } else {
        MemMove(pos + 1, pos, len - pos);
        buf[pos] := c;
        len := len + 1;
        pos := pos + 1;
        buf[len] := 0;
        assert buf[pos..len] == right;
      }
      assert buf[..pos] == left + [c];
    }

    method MoveTo(p: nat)
      requires InBuffer() && CanRefresh() && p <= len
      modifies this
      ensures InBuffer() && Shown() && pos == p && len == old(len) && historyIndex == old(historyIndex)
      ensures PageKept(old(Earlier()), old(maxrows), Earlier(), maxrows)
    {
      hide RowOf, ColOf, Layout, Confined, Upper, PageKept, Reach, Shown, CanRefresh, Screen, Earlier, MostRows;
      pos := p;
      RefreshMultiLine();
    }

    method EditMoveLeft()
      requires InBuffer() && Shown()
      modifies this
      ensures InBuffer() && Shown() && Zipper() == Edit(old(Zipper()), MoveLeft, buflen)
        && historyIndex == old(historyIndex)
      ensures PageKept(old(Earlier()), old(maxrows), Earlier(), maxrows)
    {
      hide RowOf, ColOf, Layout, Confined, Upper, PageKept, Reach, Shown, CanRefresh, Screen, Earlier, MostRows;
      PageStays();
      if pos > 0 {
        ghost var left, right := buf[..pos], buf[pos..len];
        MoveTo(pos - 1);
        assert buf[..pos] == DropLast(left) && buf[pos..len] == [Last(left)] + right;
      }
    }

    method EditMoveRight()
      requires InBuffer() && Shown()
      modifies this
      ensures InBuffer() && Shown() && Zipper() == Edit(old(Zipper()), MoveRight, buflen)
        && historyIndex == old(historyIndex)
      ensures PageKept(old(Earlier()), old(maxrows), Earlier(), maxrows)
    {
      hide RowOf, ColOf, Layout, Confined, Upper, PageKept, Reach, Shown, CanRefresh, Screen, Earlier, MostRows;
      PageStays();
      if pos != len {
        ghost var left, right := buf[..pos], buf[pos..len];
        MoveTo(pos + 1);
        assert buf[..pos] == left + [right[0]] && buf[pos..len] == right[1..];
      }
    }

    method EditMoveHome()
      requires InBuffer() && Shown()
      modifies this
      ensures InBuffer() && Shown() && Zipper() == Edit(old(Zipper()), MoveHome, buflen)
        && historyIndex == old(historyIndex)
      ensures PageKept(old(Earlier()), old(maxrows), Earlier(), maxrows)
    {
      hide RowOf, ColOf, Layout, Confined, Upper, PageKept, Reach, Shown, CanRefresh, Screen, Earlier, MostRows;
      PageStays();
      assert buf[..pos] + buf[pos..len] == buf[..len];
      if pos != 0 {
        MoveTo(0);
      }
      assert buf[..0] == [] && buf[0..len] == buf[..len];
    }

    method EditMoveEnd()
      requires InBuffer() && Shown()
      modifies this
      ensures InBuffer() && Shown() && Zipper() == Edit(old(Zipper()), MoveEnd, buflen)
        && historyIndex == old(historyIndex)
      ensures PageKept(old(Earlier()), old(maxrows), Earlier(), maxrows)
    {
      hide RowOf, ColOf, Layout, Confined, Upper, PageKept, Reach, Shown, CanRefresh, Screen, Earlier, MostRows;
      PageStays();
      assert buf[..pos] + buf[pos..len] == buf[..len];
      if pos != len {
        MoveTo(len);
      }
    }

    method EditDelete()
      requires InBuffer() && Shown()
      modifies this, buf
      ensures InBuffer() && Shown() && Zipper() == Edit(old(Zipper()), Delete, buflen)
        && historyIndex == old(historyIndex)
      ensures PageKept(old(Earlier()), old(maxrows), Earlier(), maxrows)
    {
      hide RowOf, ColOf, Layout, Confined, Upper, PageKept, Reach, Shown, CanRefresh, Screen, Earlier, MostRows;
      PageStays();
      if len > 0 && pos < len {
        ghost var left, right := buf[..pos], buf[pos..len];
        MemMove(pos, pos + 1, len - pos - 1);
        len := len - 1;
        buf[len] := 0;
        assert buf[..pos] == left && buf[pos..len] == right[1..];
        RefreshMultiLine();
      }
    }

    method EditBackspace()
      requires InBuffer() && Shown()
      modifies this, buf
      ensures InBuffer() && Shown() && Zipper() == Edit(old(Zipper()), Backspace, buflen)
        && historyIndex == old(historyIndex)
      ensures PageKept(old(Earlier()), old(maxrows), Earlier(), maxrows)
    {
      hide RowOf, ColOf, Layout, Confined, Upper, PageKept, Reach, Shown, CanRefresh, Screen, Earlier, MostRows;
      PageStays();
      if pos > 0 && len > 0 {
        ghost var left, right := buf[..pos], buf[pos..len];
        MemMove(pos - 1, pos, len - pos);
        pos := pos - 1;
        len := len - 1;
        buf[len] := 0;
        assert buf[..pos] == DropLast(left) && buf[pos..len] == right;
        RefreshMultiLine();
      }
    }

    method EditDeletePrevWord()
      requires InBuffer() && Shown()
      modifies this, buf
      ensures InBuffer() && Shown() && Zipper() == Edit(old(Zipper()), DeletePrevWord, buflen)
        && historyIndex == old(historyIndex)
      ensures PageKept(old(Earlier()), old(maxrows), Earlier(), maxrows)
    {
      hide RowOf, ColOf, Layout, Confined, Upper, PageKept, Reach, Shown, CanRefresh, Screen, Earlier, MostRows;
      PageStays();
      var oldPos := pos;
      ghost var left, right := buf[..pos], buf[pos..len];
      ToWordStart();
      CloseGap(oldPos);
      RefreshMultiLine();
    }

    method ToWordStart()
      requires pos <= buf.Length
      modifies `pos
      ensures pos <= old(pos) && buf[..pos] == TrimWord(TrimSpaces(buf[..old(pos)]))
    {
      ghost var left := buf[..pos];
      while pos > 0 && buf[pos - 1] == SPACE
        invariant pos <= old(pos) && TrimSpaces(buf[..pos]) == TrimSpaces(left)
      {
        assert DropLast(buf[..pos]) == buf[..pos - 1];
        pos := pos - 1;
      }
      while pos > 0 && buf[pos - 1] != SPACE
        invariant pos <= old(pos) && TrimWord(buf[..pos]) == TrimWord(TrimSpaces(left))
      {
        assert DropLast(buf[..pos]) == buf[..pos - 1];
        pos := pos - 1;
      }
    }

    /** The text from `oldPos` on moves down to `pos`, with its final NUL. */
    method CloseGap(oldPos: nat)
      requires pos <= oldPos <= len < buf.Length && buf[len] == 0
      modifies `len, buf
      ensures pos <= len < buf.Length && buf[len] == 0 && len == old(len) - (oldPos - pos)
      ensures buf[..pos] == old(buf[..pos]) && buf[pos..len] == old(buf[oldPos..len])
    {
      var diff := oldPos - pos;
      ghost var right := buf[oldPos..len];
      assert buf[oldPos..len + 1] == right + [0];
      MemMove(pos, oldPos, len - oldPos + 1);
      len := len - diff;
      assert buf[pos..len + 1] == right + [0];
      assert buf[len] == buf[pos..len + 1][len - pos];
      assert buf[pos..len] == buf[pos..len + 1][..len - pos];
    }

    method EditTranspose()
      requires InBuffer() && Shown()
      modifies this, buf
      ensures InBuffer() && Shown() && Zipper() == Edit(old(Zipper()), Transpose, buflen)
        && historyIndex == old(historyIndex)
      ensures PageKept(old(Earlier()), old(maxrows), Earlier(), maxrows)
    {
      hide RowOf, ColOf, Layout, Confined, Upper, PageKept, Reach, Shown, CanRefresh, Screen, Earlier, MostRows;
      PageStays();
      if pos > 0 && pos < len {
        ghost var left, right := buf[..pos], buf[pos..len];
        var aux := buf[pos - 1];
        buf[pos - 1] := buf[pos];
        buf[pos] := aux;
        if pos != len - 1 {
          pos := pos + 1;
          assert buf[..pos] == DropLast(left) + [right[0], Last(left)] && buf[pos..len] == right[1..];
        } else {
          assert buf[..pos] == DropLast(left) + [right[0]] && buf[pos..len] == [Last(left)];
        }
        RefreshMultiLine();
      }
    }

    method EditKillLine()
      requires InBuffer() && Shown()
      modifies this, buf
      ensures InBuffer() && Shown() && Zipper() == Edit(old(Zipper()), KillLine, buflen)
        && historyIndex == old(historyIndex)
      ensures PageKept(old(Earlier()), old(maxrows), Earlier(), maxrows)
    {
      hide RowOf, ColOf, Layout, Confined, Upper, PageKept, Reach, Shown, CanRefresh, Screen, Earlier, MostRows;
      PageStays();
      buf[0] := 0;
      pos := 0;
      len := 0;
      RefreshMultiLine();
    }

    method EditKillToEnd()
      requires InBuffer() && Shown()
      modifies this, buf
      ensures InBuffer() && Shown() && Zipper() == Edit(old(Zipper()), KillToEnd, buflen)
        && historyIndex == old(historyIndex)
      ensures PageKept(old(Earlier()), old(maxrows), Earlier(), maxrows)
    {
      hide RowOf, ColOf, Layout, Confined, Upper, PageKept, Reach, Shown, CanRefresh, Screen, Earlier, MostRows;
      PageStays();
      ghost var left := buf[..pos];
      buf[pos] := 0;
      len := pos;
      assert buf[..pos] == left && buf[pos..len] == [];
      RefreshMultiLine();
    }

    method ClearTheScreen()
      requires InBuffer() && Shown()
      modifies this
      ensures InBuffer() && Shown() && Zipper() == old(Zipper()) && historyIndex == old(historyIndex)
      ensures PageKept(Wiped(old(Earlier())), old(maxrows), Earlier(), maxrows)
    {
      term := Feed(term, [Op.Clear]);
      FeedOne(old(term), Op.Clear);
      assert Earlier() == Wiped(old(Earlier()));
      RefreshMultiLine();
    }

    // ----- history -----

    ghost predicate Sane()
      reads this, hist, hist.history
    {
      hist.Valid() && (hist.historyLen == 0 || historyIndex < hist.historyLen)
    }

    ghost function Editor(): Editor
      requires InBuffer() && Sane()
      reads this, buf, hist, hist.history
      ensures LineEdit.Sane(Editor())
    {
      LineEdit.Editor.Editor(Zipper(), hist.Contents(), historyIndex)
    }

    /** `strlen(buf)`, or a copy of what it spans. */
    method StrDup() returns (s: Text)
      requires InBuffer()
      ensures s == CString(Text())
    {
      var n := 0;
      while buf[n] != 0
        invariant n <= len && 0 !in buf[..n]
        decreases len - n
      {
        n := n + 1;
      }
      s := buf[..n];
      CStringIs(buf[..len], n);
    }

    /** `strncpy(buf, entry, buflen)` and the NUL forced into the last place but one. */
    method StrNCpy(entry: Text)
      requires buf.Length == buflen + 1 && buflen > 0
      modifies buf
      ensures var s := CString(entry);
        var r := if |s| < buflen then s else s[..buflen - 1];
        |r| < buflen && buf[..|r|] == r && buf[|r|] == 0
    {
      var s := CString(entry);
      forall i | 0 <= i < buflen {
        buf[i] := if i < |s| then s[i] else 0;
      }
      buf[buflen - 1] := 0;
    }

    /** The line goes into its own entry. */
    method StoreLine()
      requires InBuffer() && Sane() && hist.historyLen > 0
      modifies hist.history
      ensures Sane()
      ensures var e := old(Editor());
        Editor() == e.(hist := e.hist[|e.hist| - 1 - e.index := CString(Whole(e.line))])
    {
      hide CString;
      WholeIs();
      var line := StrDup();
      hist.SetEntry(hist.historyLen - 1 - historyIndex, line);
    }

    method EditHistoryNext(prev: bool)
      requires InBuffer() && Shown() && Sane()
      modifies this, buf, hist.history
      ensures InBuffer() && Shown() && Sane()
      ensures Editor() == Browse(old(Editor()), prev, buflen)
      ensures PageKept(old(Earlier()), old(maxrows), Earlier(), maxrows)
    {
      hide RowOf, ColOf, Layout, Confined, CString, Browse, Whole, Zipper, Upper, PageKept, Reach, Screen;
      PageStays();
      ghost var e := Editor();
      BrowseIs(e, prev, buflen);
      if hist.historyLen > 1 {
        StoreLine();
        var n := hist.historyLen;
        if prev {
          if historyIndex + 1 >= n {
            historyIndex := n - 1;
            return;
          }
          historyIndex := historyIndex + 1;
        } else {
          if historyIndex == 0 {
            return;
          }
          historyIndex := historyIndex - 1;
        }
        FetchEntry(n - 1 - historyIndex);
      }
    }

    method FetchEntry(i: nat)
      requires InBuffer() && CanRefresh() && Sane() && i < hist.historyLen
      modifies `pos, `len, `oldpos, `maxrows, `term, buf
      ensures InBuffer() && Shown() && Sane()
      ensures PageKept(old(Earlier()), old(maxrows), Earlier(), maxrows)
      ensures var s := CString(hist.Contents()[i]);
        Editor() == LineEdit.Editor.Editor(Line(if |s| < buflen then s else s[..buflen - 1], []),
          old(hist.Contents()), old(historyIndex))
    {
      hide RowOf, ColOf, Layout, Confined, CanRefresh, Shown;
      Fetch(hist.history[i]);
    }

    /** The entry becomes the line, with the cursor at its end. */
    method Fetch(entry: Text)
      requires InBuffer() && CanRefresh()
      modifies `pos, `len, `oldpos, `maxrows, `term, buf
      ensures InBuffer() && Shown()
      ensures PageKept(old(Earlier()), old(maxrows), Earlier(), maxrows)
      ensures var s := CString(entry);
        Zipper() == Line(if |s| < buflen then s else s[..buflen - 1], [])
    {
      hide RowOf, ColOf, Layout, Confined, Upper, PageKept, Reach, CString, Screen, Shown;
      StrNCpy(entry);
      var n := 0;
      ghost var s := CString(entry);
      ghost var r := if |s| < buflen then s else s[..buflen - 1];
      while buf[n] != 0
        invariant n <= |r|
        decreases |r| - n
      {
        n := n + 1;
      }
      len := n;
      pos := n;
      assert buf[n..n] == [];
      RefreshMultiLine();
    }

    // ----- keys -----

    lemma WholeIs()
      requires InBuffer()
      ensures Whole(Zipper()) == Text()
    {
      assert buf[..pos] + buf[pos..len] == buf[..len];
    }

    method Execute(cmd: Command)
      requires InBuffer() && Shown() && Sane()
      modifies this, buf, hist.history
      ensures InBuffer() && Shown() && Sane()
      ensures Editor() == Apply(old(Editor()), cmd, buflen)
      ensures PageKept(if cmd.ClearScreen? then Wiped(old(Earlier())) else old(Earlier()), old(maxrows), Earlier(),
                       maxrows)
    {
      hide Shown, CString, RowOf, ColOf, Layout, Confined, Edit, Browse;
      if cmd.History? {
        EditHistoryNext(cmd.prev);
      } else {
        EditLine(cmd);
      }
    }

    lemma PageStays()
      requires InBuffer() && Shown()
      ensures CanRefresh() && PageKept(Earlier(), maxrows, Earlier(), maxrows) && term.above + term.below >= 0
    {
      hide Confined, Upper, RowOf, ColOf, Layout;
      PageSame(Earlier(), maxrows);
    }

    method EditLine(cmd: Command)
      requires InBuffer() && Shown() && !cmd.History?
      modifies this, buf
      ensures InBuffer() && Shown() && historyIndex == old(historyIndex)
      ensures Zipper() == Edit(old(Zipper()), cmd, buflen)
      ensures PageKept(if cmd.ClearScreen? then Wiped(old(Earlier())) else old(Earlier()), old(maxrows), Earlier(),
                       maxrows)
    {
      hide Shown, RowOf, ColOf, Layout, Confined, Zipper;
      PageStays();
      match cmd
      case Insert(c) => EditInsert(c);
      case MoveLeft => EditMoveLeft();
      case MoveRight => EditMoveRight();
      case MoveHome => EditMoveHome();
      case MoveEnd => EditMoveEnd();
      case Delete => EditDelete();
      case Backspace => EditBackspace();
      case DeletePrevWord => EditDeletePrevWord();
      case Transpose => EditTranspose();
      case KillLine => EditKillLine();
      case KillToEnd => EditKillToEnd();
      case ClearScreen => ClearTheScreen();
      case Nothing =>
    }

    /**
     The key loop. The buffer ends up as `RunKeys` says, the terminal shows it, and
     the history has lost the entry of this line if enter or end-of-file ended it.
     */
    method Run(input: seq<Byte>) returns (ending: Ending)
      requires InBuffer() && Shown() && Sane() && hist.historyLen > 0
      modifies this, buf, hist, hist.history
      ensures InBuffer() && Shown() && hist.Valid()
      ensures var (e, how) := RunKeys(old(Editor()), input, buflen);
        && ending == how && Zipper() == e.line
        && hist.Contents() == if how.Accepted? || how.EndOfFile? then WithoutLast(e.hist) else e.hist
      ensures PageKept(if ClearsScreen(old(Editor()), input, buflen) then Wiped(old(Earlier())) else old(Earlier()),
                       old(maxrows), Earlier(), maxrows)
    {
      hide Shown, CString, RowOf, ColOf, Layout, Confined, Edit, Browse, Zipper, Decode, Apply, PageKept, Wiped, Upper;
      hide RunKeys, ClearsScreen;
      var rest := input;
      ghost var start, rows := if ClearsScreen(Editor(), input, buflen) then Wiped(Earlier()) else Earlier(), maxrows;
      PageStays();
      StartWiped(Earlier(), maxrows);
      while true
        invariant InBuffer() && Shown() && Sane() && hist.historyLen > 0 && hist.history == old(hist.history)
        invariant RunKeys(Editor(), rest, buflen) == RunKeys(old(Editor()), input, buflen)
        invariant PageKept(start, rows, if ClearsScreen(Editor(), rest, buflen) then Wiped(Earlier()) else Earlier(),
                           maxrows)
        invariant ClearsScreen(Editor(), rest, buflen) ==> start == Wiped(start)
        decreases |rest|
      {
        if rest == [] {
          NoKeys(Editor(), buflen);
          return EndOfInput;
        }
        var action := Decode(rest);
        KeyStep(Editor(), rest, buflen);
        WholeIs();
        PageStays();
        ghost var page, before := Earlier(), maxrows;
        if action.Accept? {
          Execute(MoveEnd);
          PageStep(start, rows, page, before, Earlier(), maxrows, false, false);
          hist.DropCurrent();
          return Accepted;
        } else if action.Interrupt? {
          return Interrupted;
        } else if action.DeleteOrEnd? {
          if len == 0 {
            hist.DropCurrent();
            return EndOfFile;
          }
          Execute(Delete);
          rest := action.rest;
          PageStep(start, rows, page, before, Earlier(), maxrows, false, ClearsScreen(Editor(), rest, buflen));
        } else {
          Execute(action.cmd);
          rest := action.rest;
          PageStep(start, rows, page, before, Earlier(), maxrows, action.cmd.ClearScreen?,
            ClearsScreen(Editor(), rest, buflen));
        }
      }
    }
  }

  /** An empty line with a new last entry in the history. */
  method Begin(buf: array<Byte>, prompt: seq<Byte>, cols: nat, hist: HistoryBuffer, page: Page)
    returns (l: LineState)
    requires buf.Length >= 2 && |prompt| < cols && hist.Valid() && hist.historyMaxLen > 0
    requires page.above >= 0 && page.below >= 0 && Upper(page.upper) == page.upper
    modifies buf, hist, hist.history
    ensures fresh(l) && l.buf == buf && l.buflen == buf.Length - 1 && l.hist == hist
    ensures l.InBuffer() && l.Shown() && l.Sane() && hist.historyLen > 0 && l.Earlier() == page && l.maxrows == 0
    ensures hist.history == old(hist.history) || fresh(hist.history)
    ensures l.Editor() == LineEdit.Editor.Editor(Line([], []),
      AddLine(old(hist.Contents()), old(hist.historyMaxLen), []), 0)
  {
    hide RowOf, ColOf, Layout, Confined, Upper;
    var added := hist.HistoryAdd([]);
    l := new LineState(buf, prompt, cols, hist, page);
    assert l.Zipper() == Line([], []);
  }

  /** `linenoiseEdit`: the line is set up below earlier output, then the keys are handled. */
  method LinenoiseEdit(buf: array<Byte>, prompt: seq<Byte>, cols: nat, hist: HistoryBuffer, page: Page,
                       input: seq<Byte>)
    returns (l: LineState, ending: Ending)
    requires buf.Length >= 2 && |prompt| < cols && hist.Valid() && hist.historyMaxLen > 0
    requires page.above >= 0 && page.below >= 0 && Upper(page.upper) == page.upper
    modifies buf, hist, hist.history
    ensures fresh(l) && l.InBuffer() && l.Shown() && l.buf == buf && hist.Valid()
    ensures var start := LineEdit.Editor.Editor(Line([], []),
      AddLine(old(hist.Contents()), old(hist.historyMaxLen), []), 0);
      var (e, how) := RunKeys(start, input, buf.Length - 1);
      && ending == how && l.Zipper() == e.line
      && hist.Contents() == (if how.Accepted? || how.EndOfFile? then WithoutLast(e.hist) else e.hist)
      && PageKept(if ClearsScreen(start, input, buf.Length - 1) then Wiped(page) else page, 0, l.Earlier(), l.maxrows)
  {
    hide RowOf, ColOf, Layout, Confined, RunKeys, CString, AddLine, WithoutLast, ClearsScreen, Upper;
    hide LineState.InBuffer, LineState.Shown, LineState.Zipper, LineState.Editor, LineState.Sane, LineState.Earlier;
    hide HistoryBuffer.Contents;
    l := Begin(buf, prompt, cols, hist, page);
    ending := l.Run(input);
  }

  lemma SameSlices(before: Text, after: Text, dst: nat, src: nat, n: nat)
    requires |before| == |after| && dst + n <= |before| && src + n <= |before|
    requires forall i | dst <= i < dst + n :: after[i] == before[src + (i - dst)]
    requires forall i | 0 <= i < |before| && !(dst <= i < dst + n) :: after[i] == before[i]
    ensures after[..dst] == before[..dst] && after[dst..dst + n] == before[src..src + n]
      && after[dst + n..] == before[dst + n..]
  {
  }

  lemma BrowseIs(e: Editor, prev: bool, cap: nat)
    requires LineEdit.Sane(e) && cap > 0
    ensures |e.hist| <= 1 ==> Browse(e, prev, cap) == e
    ensures |e.hist| > 1 ==>
      var n := |e.hist|;
      var hist := e.hist[n - 1 - e.index := CString(Whole(e.line))];
      if (if prev then e.index + 1 >= n else e.index == 0) then Browse(e, prev, cap) == e.(hist := hist)
      else
        var index := if prev then e.index + 1 else e.index - 1;
        var s := CString(hist[n - 1 - index]);
        Browse(e, prev, cap) == LineEdit.Editor.Editor(Line(if |s| < cap then s else s[..cap - 1], []), hist, index)
  {
    hide CString, Whole;
  }

  lemma {:induction false} CStringIs(t: Text, n: nat)
    requires n <= |t| && 0 !in t[..n] && (n < |t| ==> t[n] == 0)
    ensures CString(t) == t[..n]
  {
    if n > 0 {
      assert t[..n][0] == t[0] && t[..n][1..] == t[1..][..n - 1];
      assert t[0] in t[..n];
      forall x | x in t[1..][..n - 1] ensures x in t[..n] {
      }
      CStringIs(t[1..], n - 1);
      assert t[..n] == [t[0]] + t[1..][..n - 1];
    } else {
      assert t[..n] == [];
    }
  }
}
