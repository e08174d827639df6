/**
 What the line editor of lib/wrappers/linenoise/linenoise.c is for, without its
 buffers: a line with a cursor (a zipper), a history of lines, and the keys that
 change them.
 */
module LineEdit {
  import opened Terminal

  type Text = seq<Byte>

  const SPACE: Byte := 32

  /** The text left and right of the cursor. */
  datatype Line = Line(left: Text, right: Text)

  function Whole(l: Line): Text {
    l.left + l.right
  }

  datatype Command =
    | Insert(c: Byte) | MoveLeft | MoveRight | MoveHome | MoveEnd
    | Delete | Backspace | DeletePrevWord | Transpose | KillLine | KillToEnd
    | History(prev: bool) | ClearScreen | Nothing

  function DropLast(t: Text): Text
    requires t != []
  {
    t[..|t| - 1]
  }

  function Last(t: Text): Byte
    requires t != []
  {
    t[|t| - 1]
  }

  function TrimSpaces(t: Text): Text {
    if t != [] && Last(t) == SPACE then TrimSpaces(DropLast(t)) else t
  }

  function TrimWord(t: Text): Text {
    if t != [] && Last(t) != SPACE then TrimWord(DropLast(t)) else t
  }

  /** One editing command; at most `cap` characters fit. */
  function Edit(l: Line, cmd: Command, cap: nat): Line {
    match cmd
    case Insert(c) => if |Whole(l)| < cap then Line(l.left + [c], l.right) else l
    case MoveLeft => if l.left == [] then l else Line(DropLast(l.left), [Last(l.left)] + l.right)
    case MoveRight => if l.right == [] then l else Line(l.left + [l.right[0]], l.right[1..])
    case MoveHome => Line([], Whole(l))
    case MoveEnd => Line(Whole(l), [])
    case Delete => if l.right == [] then l else Line(l.left, l.right[1..])
    case Backspace => if l.left == [] then l else Line(DropLast(l.left), l.right)
    case DeletePrevWord => Line(TrimWord(TrimSpaces(l.left)), l.right)
    case Transpose =>
      if l.left == [] || l.right == [] then l
      else if |l.right| == 1 then Line(DropLast(l.left) + [l.right[0]], [Last(l.left)])
      else Line(DropLast(l.left) + [l.right[0], Last(l.left)], l.right[1..])
    case KillLine => Line([], [])
    case KillToEnd => Line(l.left, [])
    case History(_) => l
    case ClearScreen => l
    case Nothing => l
  }

  // ---------- what the commands mean ----------

  lemma MovesUndo(l: Line, cap: nat)
    ensures l.left != [] ==> Edit(Edit(l, MoveLeft, cap), MoveRight, cap) == l
    ensures l.right != [] ==> Edit(Edit(l, MoveRight, cap), MoveLeft, cap) == l
  {
    if l.left != [] {
      assert DropLast(l.left) + [Last(l.left)] == l.left;
    }
    if l.right != [] {
      assert [l.right[0]] + l.right[1..] == l.right;
    }
  }

  lemma BackspaceUndoesInsert(l: Line, c: Byte, cap: nat)
    ensures Edit(Edit(l, Insert(c), cap), Backspace, cap) == if |Whole(l)| < cap then l else Edit(l, Backspace, cap)
  {
    if |Whole(l)| < cap {
      assert DropLast(l.left + [c]) == l.left;
    }
  }

  /** Transposing permutes the text: only the two characters around the cursor are exchanged. */
  lemma TransposeMeans(l: Line, cap: nat)
    requires l.left != [] && l.right != []
    ensures var i := |l.left| - 1;
      Whole(Edit(l, Transpose, cap)) == Whole(l)[i := Whole(l)[i + 1]][i + 1 := Whole(l)[i]]
    ensures multiset(Whole(Edit(l, Transpose, cap))) == multiset(Whole(l))
  {
    var i := |l.left| - 1;
    var w := Whole(l);
    assert Whole(Edit(l, Transpose, cap)) == w[i := w[i + 1]][i + 1 := w[i]];
  }

  /** Deleting a word takes away the spaces before the cursor and the word before them, no more. */
  lemma PrevWordMeans(l: Line, cap: nat) returns (word: Text, spaces: Text)
    ensures l.left == Edit(l, DeletePrevWord, cap).left + word + spaces
    ensures Edit(l, DeletePrevWord, cap).right == l.right
    ensures SPACE !in word && forall i | 0 <= i < |spaces| :: spaces[i] == SPACE
    ensures word == [] ==> Edit(l, DeletePrevWord, cap).left == []
    ensures var a := Edit(l, DeletePrevWord, cap).left; a != [] ==> Last(a) == SPACE
  {
    var b := TrimSpaces(l.left);
    var a := TrimWord(b);
    TrimSpacesMeans(l.left);
    TrimWordMeans(b);
    assert Edit(l, DeletePrevWord, cap) == Line(a, l.right);
    hide Edit, TrimSpaces, TrimWord;
    word, spaces := b[|a|..], l.left[|b|..];
    CutTwice(l.left, b, a);
  }

  lemma CutTwice(t: Text, b: Text, a: Text)
    requires |b| <= |t| && b == t[..|b|] && forall i | |b| <= i < |t| :: t[i] == SPACE
    requires |a| <= |b| && a == b[..|a|] && forall i | |a| <= i < |b| :: b[i] != SPACE
    ensures t == a + b[|a|..] + t[|b|..]
    ensures SPACE !in b[|a|..] && forall i | 0 <= i < |t[|b|..]| :: t[|b|..][i] == SPACE
  {
    assert b == a + b[|a|..];
    assert t == b + t[|b|..];
  }

  lemma {:induction false} TrimSpacesMeans(t: Text)
    ensures var b := TrimSpaces(t);
      && |b| <= |t| && b == t[..|b|] && (forall i | |b| <= i < |t| :: t[i] == SPACE) && (b != [] ==> Last(b) != SPACE)
  {
    if t != [] && Last(t) == SPACE {
      TrimSpacesMeans(DropLast(t));
    }
  }

  lemma {:induction false} TrimWordMeans(t: Text)
    ensures var a := TrimWord(t);
      && |a| <= |t| && a == t[..|a|] && (forall i | |a| <= i < |t| :: t[i] != SPACE) && (a != [] ==> Last(a) == SPACE)
      && (t != [] && Last(t) != SPACE ==> |a| < |t|)
  {
    if t != [] && Last(t) != SPACE {
      TrimWordMeans(DropLast(t));
    }
  }

  lemma EditFits(l: Line, cmd: Command, cap: nat)
    requires |Whole(l)| <= cap
    ensures |Whole(Edit(l, cmd, cap))| <= cap
  {
    TrimSpacesMeans(l.left);
    TrimWordMeans(TrimSpaces(l.left));
  }

  // ---------- history ----------

  /** The text up to the first NUL, as `strlen` and `strdup` see it. */
  function CString(t: Text): (r: Text)
    ensures |r| <= |t| && r == t[..|r|] && 0 !in r
    ensures |r| < |t| ==> t[|r|] == 0
  {
    if t == [] || t[0] == 0 then [] else [t[0]] + CString(t[1..])
  }

  /** `linenoiseHistoryAdd`: no repetition of the last line; the oldest line makes room. */
  function AddLine(h: seq<Text>, max: nat, line: Text): seq<Text> {
    if max == 0 || (h != [] && h[|h| - 1] == line) then h
    else (if |h| == max then h[1..] else h) + [line]
  }

  lemma AddLineMeans(h: seq<Text>, max: nat, line: Text)
    requires |h| <= max && max > 0
    ensures var r := AddLine(h, max, line);
      && 0 < |r| <= max && r[|r| - 1] == line
      && (r == h <==> h != [] && h[|h| - 1] == line)
      && (r != h ==> |r| == (if |h| < max then |h| + 1 else max) && r[..|r| - 1] == h[|h| - (|r| - 1)..])
  {
    var r := AddLine(h, max, line);
    if r != h {
      assert r[..|r| - 1] == if |h| == max then h[1..] else h;
    }
  }

  /** The line being edited and the history, whose entry `|hist| - 1 - index` it came from. */
  datatype Editor = Editor(line: Line, hist: seq<Text>, index: nat)

  predicate Sane(e: Editor) {
    e.hist == [] || e.index < |e.hist|
  }

  /**
   `linenoiseEditHistoryNext`: the line is stored in its entry and the next one is
   fetched, cut to one character less than would fit. Past either end only the
   storing happens.
   */
  function Browse(e: Editor, prev: bool, cap: nat): Editor
    requires Sane(e) && cap > 0
  {
    if |e.hist| <= 1 then e
    else
      var n := |e.hist|;
      var hist := e.hist[n - 1 - e.index := CString(Whole(e.line))];
      var index := if prev then e.index + 1 else e.index - 1;
      if index < 0 || index >= n then e.(hist := hist)
      else
        var entry := CString(hist[n - 1 - index]);
        Editor(Line(if |entry| < cap then entry else entry[..cap - 1], []), hist, index)
  }

  function Apply(e: Editor, cmd: Command, cap: nat): (r: Editor)
    requires Sane(e) && cap > 0
    ensures Sane(r)
  {
    if cmd.History? then Browse(e, cmd.prev, cap) else e.(line := Edit(e.line, cmd, cap))
  }

  /**
   Going up and down again gives back the line unless it fills the buffer or
   holds a NUL: a line of exactly `cap` characters can be typed, but loses its
   last one on the way.
   */
  lemma UpAndDown(e: Editor, cap: nat)
    requires Sane(e) && cap > 0 && |Whole(e.line)| <= cap && e.index + 1 < |e.hist|
    ensures Whole(Apply(Apply(e, History(true), cap), History(false), cap).line) == Whole(e.line)
      <==> |Whole(e.line)| < cap && 0 !in Whole(e.line)
    ensures Apply(Apply(e, History(true), cap), History(false), cap).index == e.index
  {
    var n, t := |e.hist|, Whole(e.line);
    var up := Apply(e, History(true), cap);
    assert up.index == e.index + 1 && |up.hist| == n;
    assert up.hist[n - 1 - e.index] == CString(t);
    CStringSame(t);
    CStringSame(CString(t));
    var down := Apply(up, History(false), cap);
    assert down.line == Line(if |CString(t)| < cap then CString(t) else CString(t)[..cap - 1], []);
  }

  lemma {:induction false} CStringSame(t: Text)
    ensures CString(t) == t <==> 0 !in t
  {
    if t != [] && t[0] != 0 {
      CStringSame(t[1..]);
      assert t == [t[0]] + t[1..];
    }
  }

  // ---------- keys ----------

  const ENTER: Byte := 13
  const ESC: Byte := 27

  /** What a key asks for; `rest` is the input after it. */
  datatype Action =
    | Perform(cmd: Command, rest: seq<Byte>)
    | DeleteOrEnd(rest: seq<Byte>)   // ctrl-d
    | Accept                         // enter
    | Interrupt                      // ctrl-c

  function Decode(input: seq<Byte>): (a: Action)
    requires input != []
    ensures a.Perform? || a.DeleteOrEnd? ==> |a.rest| < |input|
  {
    var c, rest := input[0], input[1..];
    if c == ENTER then Accept
    else if c == 3 then Interrupt
    else if c == 127 || c == 8 then Perform(Backspace, rest)
    else if c == 4 then DeleteOrEnd(rest)
    else if c == 20 then Perform(Transpose, rest)
    else if c == 2 then Perform(MoveLeft, rest)
    else if c == 6 then Perform(MoveRight, rest)
    else if c == 16 then Perform(History(true), rest)
    else if c == 14 then Perform(History(false), rest)
    else if c == ESC then Escape(rest)
    else if c == 21 then Perform(KillLine, rest)
    else if c == 11 then Perform(KillToEnd, rest)
    else if c == 1 then Perform(MoveHome, rest)
    else if c == 5 then Perform(MoveEnd, rest)
    else if c == 12 then Perform(ClearScreen, rest)
    else if c == 23 then Perform(DeletePrevWord, rest)
    else Perform(Insert(c), rest)
  }

  /** The two or three bytes after ESC; an input that ends within them is a read error, and the key is dropped. */
  function Escape(s: seq<Byte>): (a: Action)
    ensures a.Perform? && |a.rest| <= |s|
  {
    if |s| < 2 then Perform(Nothing, [])
    else if s[0] == 91 && 48 <= s[1] <= 57 then
      if |s| < 3 then Perform(Nothing, [])
      else Perform(if s[2] == 126 && s[1] == 51 then Delete else Nothing, s[3..])
    else if s[0] == 91 then
      Perform(if s[1] == 65 then History(true)
         else if s[1] == 66 then History(false)
         else if s[1] == 67 then MoveRight
         else if s[1] == 68 then MoveLeft
         else if s[1] == 72 then MoveHome
         else if s[1] == 70 then MoveEnd
         else Nothing, s[2..])
    else if s[0] == 79 then
      Perform(if s[1] == 72 then MoveHome else if s[1] == 70 then MoveEnd else Nothing, s[2..])
    else Perform(Nothing, s[2..])
  }

  datatype Ending = Accepted | Interrupted | EndOfFile | EndOfInput

  /** All keys up to the one that ends the line. */
  function RunKeys(e: Editor, input: seq<Byte>, cap: nat): (Editor, Ending)
    requires Sane(e) && cap > 0
    decreases |input|
  {
    if input == [] then (e, EndOfInput)
    else
      match Decode(input)
      case Perform(cmd, rest) => RunKeys(Apply(e, cmd, cap), rest, cap)
      case DeleteOrEnd(rest) =>
        if Whole(e.line) == [] then (e, EndOfFile) else RunKeys(Apply(e, Delete, cap), rest, cap)
      case Accept => (Apply(e, MoveEnd, cap), Accepted)
      case Interrupt => (e, Interrupted)
  }

  /** Some key before the end of the line clears the screen. */
  predicate ClearsScreen(e: Editor, input: seq<Byte>, cap: nat)
    requires Sane(e) && cap > 0
    decreases |input|
  {
    if input == [] then false
    else
      match Decode(input)
      case Perform(cmd, rest) => cmd.ClearScreen? || ClearsScreen(Apply(e, cmd, cap), rest, cap)
      case DeleteOrEnd(rest) => Whole(e.line) != [] && ClearsScreen(Apply(e, Delete, cap), rest, cap)
      case _ => false
  }

  /** What one key does to the rest of the run. */
  lemma KeyStep(e: Editor, input: seq<Byte>, cap: nat)
    requires Sane(e) && cap > 0 && input != []
    ensures var a := Decode(input);
      RunKeys(e, input, cap) ==
        if a.Accept? then (Apply(e, MoveEnd, cap), Accepted)
        else if a.Interrupt? then (e, Interrupted)
        else if a.Perform? then RunKeys(Apply(e, a.cmd, cap), a.rest, cap)
        else if Whole(e.line) == [] then (e, EndOfFile)
        else RunKeys(Apply(e, Delete, cap), a.rest, cap)
    ensures var a := Decode(input);
      ClearsScreen(e, input, cap) ==
        if a.Perform? then a.cmd.ClearScreen? || ClearsScreen(Apply(e, a.cmd, cap), a.rest, cap)
        else a.DeleteOrEnd? && Whole(e.line) != [] && ClearsScreen(Apply(e, Delete, cap), a.rest, cap)
  {
    hide Decode, Apply;
  }

  lemma NoKeys(e: Editor, cap: nat)
    requires Sane(e) && cap > 0
    ensures RunKeys(e, [], cap) == (e, EndOfInput) && !ClearsScreen(e, [], cap)
  {
  }
}
