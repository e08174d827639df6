/**
 What the keys of the line editor do, one by one: for every line, every place of the
 cursor and whatever is typed afterwards.
 */
module LineKeys {
  import opened Terminal
  import opened LineEdit

  /** Text `t` with the cursor before character `p`. */
  function AtPos(t: Text, p: nat): Line
    requires p <= |t|
  {
    Line(t[..p], t[p..])
  }

  /** The rest of the keys with another line. */
  function Onward(e: Editor, l: Line, rest: seq<Byte>, cap: nat): (Editor, Ending)
    requires Sane(e) && cap > 0
  {
    RunKeys(e.(line := l), rest, cap)
  }

  /** A key of one byte. */
  lemma OneByte(c: Byte, rest: seq<Byte>)
    ensures ([c] + rest)[0] == c && ([c] + rest)[1..] == rest
  {
  }

  /** ESC and two bytes. */
  lemma ThreeBytes(a: Byte, b: Byte, rest: seq<Byte>)
    ensures var s := [ESC, a, b] + rest;
      s[0] == ESC && |s[1..]| >= 2 && s[1..][0] == a && s[1..][1] == b && s[1..][2..] == rest
  {
    assert ([ESC, a, b] + rest)[1..] == [a, b] + rest;
  }

  /** ESC and three bytes. */
  lemma FourBytes(a: Byte, b: Byte, d: Byte, rest: seq<Byte>)
    ensures var s := [ESC, a, b, d] + rest;
      && s[0] == ESC && |s[1..]| >= 3 && s[1..][0] == a && s[1..][1] == b && s[1..][2] == d
      && s[1..][3..] == rest
  {
    assert ([ESC, a, b, d] + rest)[1..] == [a, b, d] + rest;
  }

  // ---------- moving ----------

  lemma MovesAre(l: Line, cap: nat)
    ensures var t, p := Whole(l), |l.left|;
      && Edit(l, MoveLeft, cap) == AtPos(t, if p > 0 then p - 1 else 0)
      && Edit(l, MoveRight, cap) == AtPos(t, if p < |t| then p + 1 else |t|)
      && Edit(l, MoveHome, cap) == AtPos(t, 0) && Edit(l, MoveEnd, cap) == AtPos(t, |t|)
  {
    var t, p := Whole(l), |l.left|;
    assert t[..p] == l.left && t[p..] == l.right;
    assert t[..|t|] == t && t[0..] == t;
    if p > 0 {
      assert t[..p - 1] == DropLast(l.left) && t[p - 1..] == [Last(l.left)] + l.right;
    }
    if p < |t| {
      assert t[..p + 1] == l.left + [l.right[0]] && t[p + 1..] == l.right[1..];
    }
  }

  /** ctrl-b and left: one character back, the text as it is. */
  lemma LeftKeys(e: Editor, rest: seq<Byte>, cap: nat)
    requires Sane(e) && cap > 0
    ensures var t, p := Whole(e.line), |e.line.left|;
      var r := Onward(e, AtPos(t, if p > 0 then p - 1 else 0), rest, cap);
      RunKeys(e, [2] + rest, cap) == r && RunKeys(e, [27, 91, 68] + rest, cap) == r
  {
    hide Edit;
    OneByte(2, rest);
    ThreeBytes(91, 68, rest);
    MovesAre(e.line, cap);
  }

  /** ctrl-f and right: one character on. */
  lemma RightKeys(e: Editor, rest: seq<Byte>, cap: nat)
    requires Sane(e) && cap > 0
    ensures var t, p := Whole(e.line), |e.line.left|;
      var r := Onward(e, AtPos(t, if p < |t| then p + 1 else |t|), rest, cap);
      RunKeys(e, [6] + rest, cap) == r && RunKeys(e, [27, 91, 67] + rest, cap) == r
  {
    hide Edit;
    OneByte(6, rest);
    ThreeBytes(91, 67, rest);
    MovesAre(e.line, cap);
  }

  /** ctrl-a and both forms of home: to the start. */
  lemma HomeKeys(e: Editor, rest: seq<Byte>, cap: nat)
    requires Sane(e) && cap > 0
    ensures var r := Onward(e, AtPos(Whole(e.line), 0), rest, cap);
      && RunKeys(e, [1] + rest, cap) == r
      && RunKeys(e, [27, 91, 72] + rest, cap) == r && RunKeys(e, [27, 79, 72] + rest, cap) == r
  {
    hide Edit;
    OneByte(1, rest);
    ThreeBytes(91, 72, rest);
    ThreeBytes(79, 72, rest);
    MovesAre(e.line, cap);
  }

  /** ctrl-e and both forms of end: to the end. */
  lemma EndKeys(e: Editor, rest: seq<Byte>, cap: nat)
    requires Sane(e) && cap > 0
    ensures var r := Onward(e, AtPos(Whole(e.line), |Whole(e.line)|), rest, cap);
      && RunKeys(e, [5] + rest, cap) == r
      && RunKeys(e, [27, 91, 70] + rest, cap) == r && RunKeys(e, [27, 79, 70] + rest, cap) == r
  {
    hide Edit;
    OneByte(5, rest);
    ThreeBytes(91, 70, rest);
    ThreeBytes(79, 70, rest);
    MovesAre(e.line, cap);
  }

  // ---------- changing the text ----------

  lemma ChangesAre(l: Line, cap: nat)
    ensures var t, p := Whole(l), |l.left|;
      && l == AtPos(t, p)
      && Edit(l, Delete, cap) == (if p < |t| then AtPos(t[..p] + t[p + 1..], p) else l)
      && Edit(l, Backspace, cap) == (if p > 0 then AtPos(t[..p - 1] + t[p..], p - 1) else l)
      && Edit(l, KillLine, cap) == AtPos([], 0) && Edit(l, KillToEnd, cap) == AtPos(t[..p], p)
  {
    var t, p := Whole(l), |l.left|;
    assert t[..p] == l.left && t[p..] == l.right;
    if p < |t| {
      var u := t[..p] + t[p + 1..];
      assert u[..p] == l.left && u[p..] == l.right[1..];
    }
    if p > 0 {
      var u := t[..p - 1] + t[p..];
      assert u[..p - 1] == DropLast(l.left) && u[p - 1..] == l.right;
    }
  }

  lemma InsertIs(l: Line, c: Byte, cap: nat)
    ensures var t, p := Whole(l), |l.left|;
      Edit(l, Insert(c), cap) == if |t| < cap then AtPos(t[..p] + [c] + t[p..], p + 1) else l
  {
    var t, p := Whole(l), |l.left|;
    var u := t[..p] + [c] + t[p..];
    assert u[..p + 1] == l.left + [c] && u[p + 1..] == l.right;
  }

  lemma TransposeIs(l: Line, cap: nat)
    ensures var t, p := Whole(l), |l.left|;
      Edit(l, Transpose, cap) ==
        if 0 < p < |t| then AtPos(t[p - 1 := t[p]][p := t[p - 1]], if p == |t| - 1 then p else p + 1) else l
  {
    var t, p := Whole(l), |l.left|;
    if 0 < p < |t| {
      var u := t[p - 1 := t[p]][p := t[p - 1]];
      var r := Edit(l, Transpose, cap);
      assert u == r.left + r.right;
      assert |r.left| == if p == |t| - 1 then p else p + 1;
      assert u[..|r.left|] == r.left && u[|r.left|..] == r.right;
    }
  }

  /** Every byte that is no command is inserted at the cursor, if it still fits. */
  lemma InsertKey(e: Editor, c: Byte, rest: seq<Byte>, cap: nat)
    requires Sane(e) && cap > 0 && c !in {1, 2, 3, 4, 5, 6, 8, 11, 12, 13, 14, 16, 20, 21, 23, 27, 127}
    ensures var t, p := Whole(e.line), |e.line.left|;
      RunKeys(e, [c] + rest, cap) ==
        Onward(e, if |t| < cap then AtPos(t[..p] + [c] + t[p..], p + 1) else e.line, rest, cap)
  {
    hide Edit;
    OneByte(c, rest);
    InsertIs(e.line, c, cap);
  }

  /** Backspace and ctrl-h: the character before the cursor goes. */
  lemma BackspaceKeys(e: Editor, rest: seq<Byte>, cap: nat)
    requires Sane(e) && cap > 0
    ensures var t, p := Whole(e.line), |e.line.left|;
      var r := Onward(e, if p > 0 then AtPos(t[..p - 1] + t[p..], p - 1) else e.line, rest, cap);
      RunKeys(e, [127] + rest, cap) == r && RunKeys(e, [8] + rest, cap) == r
  {
    hide Edit;
    OneByte(127, rest);
    OneByte(8, rest);
    ChangesAre(e.line, cap);
  }

  /** ctrl-d and delete: the character at the cursor goes; in an empty line ctrl-d is the end of the file. */
  lemma DeleteKeys(e: Editor, rest: seq<Byte>, cap: nat)
    requires Sane(e) && cap > 0
    ensures var t, p := Whole(e.line), |e.line.left|;
      var r := Onward(e, if p < |t| then AtPos(t[..p] + t[p + 1..], p) else e.line, rest, cap);
      && RunKeys(e, [27, 91, 51, 126] + rest, cap) == r
      && RunKeys(e, [4] + rest, cap) == if t == [] then (e, EndOfFile) else r
  {
    hide Edit;
    OneByte(4, rest);
    FourBytes(91, 51, 126, rest);
    ChangesAre(e.line, cap);
  }

  /** ctrl-u: nothing is left; ctrl-k: nothing behind the cursor. */
  lemma KillKeys(e: Editor, rest: seq<Byte>, cap: nat)
    requires Sane(e) && cap > 0
    ensures var t, p := Whole(e.line), |e.line.left|;
      && RunKeys(e, [21] + rest, cap) == Onward(e, AtPos([], 0), rest, cap)
      && RunKeys(e, [11] + rest, cap) == Onward(e, AtPos(t[..p], p), rest, cap)
  {
    hide Edit;
    OneByte(21, rest);
    OneByte(11, rest);
    ChangesAre(e.line, cap);
  }

  /** ctrl-t: the characters around the cursor change places, and it moves on unless it is on the last one. */
  lemma TransposeKey(e: Editor, rest: seq<Byte>, cap: nat)
    requires Sane(e) && cap > 0
    ensures var t, p := Whole(e.line), |e.line.left|;
      RunKeys(e, [20] + rest, cap) ==
        Onward(e, if 0 < p < |t| then AtPos(t[p - 1 := t[p]][p := t[p - 1]], if p == |t| - 1 then p else p + 1)
          else e.line, rest, cap)
  {
    hide Edit;
    OneByte(20, rest);
    TransposeIs(e.line, cap);
  }

  /** ctrl-w: the spaces before the cursor and the word before them go. */
  lemma WordKey(e: Editor, rest: seq<Byte>, cap: nat) returns (q: nat, b: nat)
    requires Sane(e) && cap > 0
    ensures var t, p := Whole(e.line), |e.line.left|;
      && q <= b <= p && RunKeys(e, [23] + rest, cap) == Onward(e, AtPos(t[..q] + t[p..], q), rest, cap)
      && (forall i | b <= i < p :: t[i] == SPACE) && (forall i | q <= i < b :: t[i] != SPACE)
      && (q > 0 ==> t[q - 1] == SPACE) && (b > 0 ==> t[b - 1] != SPACE)
  {
    var t, p := Whole(e.line), |e.line.left|;
    var spaceless := TrimSpaces(e.line.left);
    var left := TrimWord(spaceless);
    TrimSpacesMeans(e.line.left);
    TrimWordMeans(spaceless);
    OneByte(23, rest);
    assert Edit(e.line, DeletePrevWord, cap) == Line(left, e.line.right);
    q, b := |left|, |spaceless|;
    assert t[..p] == e.line.left && t[p..] == e.line.right;
    assert forall i | 0 <= i < p :: t[i] == e.line.left[i];
    var u := t[..q] + t[p..];
    assert t[..q] == left && u[..q] == left && u[q..] == e.line.right;
  }

  // ---------- history ----------

  lemma HistoryBytes(rest: seq<Byte>)
    ensures Decode([16] + rest) == Perform(History(true), rest) == Decode([27, 91, 65] + rest)
    ensures Decode([14] + rest) == Perform(History(false), rest) == Decode([27, 91, 66] + rest)
  {
    OneByte(16, rest);
    OneByte(14, rest);
    ThreeBytes(91, 65, rest);
    ThreeBytes(91, 66, rest);
  }

  /** ctrl-p and up: the line goes into its entry, and the entry before it is edited, if there is one. */
  lemma PreviousKeys(e: Editor, rest: seq<Byte>, cap: nat)
    requires Sane(e) && cap > 0
    ensures var n := |e.hist|;
      var next := if n <= 1 then e else
        var hist := e.hist[n - 1 - e.index := CString(Whole(e.line))];
        if e.index == n - 1 then e.(hist := hist) else
          var s := CString(hist[n - 2 - e.index]);
          Editor(Line(if |s| < cap then s else s[..cap - 1], []), hist, e.index + 1);
      RunKeys(e, [16] + rest, cap) == RunKeys(next, rest, cap) == RunKeys(e, [27, 91, 65] + rest, cap)
  {
    hide CString, Whole, RunKeys, Decode;
    HistoryBytes(rest);
    KeyStep(e, [16] + rest, cap);
    KeyStep(e, [27, 91, 65] + rest, cap);
  }

  /** ctrl-n and down: likewise the entry after it. */
  lemma NextKeys(e: Editor, rest: seq<Byte>, cap: nat)
    requires Sane(e) && cap > 0
    ensures var n := |e.hist|;
      var next := if n <= 1 then e else
        var hist := e.hist[n - 1 - e.index := CString(Whole(e.line))];
        if e.index == 0 then e.(hist := hist) else
          var s := CString(hist[n - e.index]);
          Editor(Line(if |s| < cap then s else s[..cap - 1], []), hist, e.index - 1);
      RunKeys(e, [14] + rest, cap) == RunKeys(next, rest, cap) == RunKeys(e, [27, 91, 66] + rest, cap)
  {
    hide CString, Whole, RunKeys, Decode;
    HistoryBytes(rest);
    KeyStep(e, [14] + rest, cap);
    KeyStep(e, [27, 91, 66] + rest, cap);
  }

  // ---------- the end, and keys that change nothing ----------

  /** Enter accepts the line, ctrl-c gives up, and so does the end of the input. */
  lemma EndingKeys(e: Editor, rest: seq<Byte>, cap: nat)
    requires Sane(e) && cap > 0
    ensures RunKeys(e, [13] + rest, cap) == (e.(line := AtPos(Whole(e.line), |Whole(e.line)|)), Accepted)
    ensures RunKeys(e, [3] + rest, cap) == (e, Interrupted)
    ensures RunKeys(e, [], cap) == (e, EndOfInput)
  {
    hide Edit;
    OneByte(13, rest);
    OneByte(3, rest);
    MovesAre(e.line, cap);
  }

  /** Input that ends within an escape sequence. */
  lemma CutEscape(e: Editor, a: Byte, d: Byte, cap: nat)
    requires Sane(e) && cap > 0 && 48 <= d <= 57
    ensures RunKeys(e, [27], cap) == RunKeys(e, [27, a], cap) == RunKeys(e, [27, 91, d], cap) == (e, EndOfInput)
  {
    assert [27 as Byte][1..] == [] && [27, a][1..] == [a] && [27, 91, d][1..] == [91, d];
    assert Apply(e, Nothing, cap) == e;
  }

  /** The escape sequences with a meaning. */
  predicate KnownEscape(a: Byte, b: Byte) {
    (a == 91 && (48 <= b <= 57 || b in {65, 66, 67, 68, 70, 72})) || (a == 79 && b in {70, 72})
  }

  /** ctrl-l clears the screen and nothing else; other escape sequences do nothing at all. */
  lemma OtherKeys(e: Editor, a: Byte, b: Byte, d: Byte, rest: seq<Byte>, cap: nat)
    requires Sane(e) && cap > 0
    ensures RunKeys(e, [12] + rest, cap) == RunKeys(e, rest, cap) && ClearsScreen(e, [12] + rest, cap)
    ensures !KnownEscape(a, b) ==> var input := [27, a, b] + rest;
      RunKeys(e, input, cap) == RunKeys(e, rest, cap) && (ClearsScreen(e, input, cap) <==> ClearsScreen(e, rest, cap))
    ensures 48 <= b <= 57 && !(b == 51 && d == 126) ==> var input := [27, 91, b, d] + rest;
      RunKeys(e, input, cap) == RunKeys(e, rest, cap) && (ClearsScreen(e, input, cap) <==> ClearsScreen(e, rest, cap))
  {
    OneByte(12, rest);
    ThreeBytes(a, b, rest);
    FourBytes(91, b, d, rest);
    assert Apply(e, Nothing, cap) == e && Apply(e, ClearScreen, cap) == e;
  }
}
