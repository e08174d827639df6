/** What several models share. */
module Basics {

  datatype Option<+T> = None | Some(value: T)

  /** `part` stands in `whole` from index `i` on. */
  ghost predicate At<T>(whole: seq<T>, i: nat, part: seq<T>) {
    i + |part| <= |whole| && whole[i..i + |part|] == part
  }

  lemma AtSplit<T>(whole: seq<T>, i: nat, a: seq<T>, b: seq<T>)
    requires At(whole, i, a + b)
    ensures At(whole, i, a) && At(whole, i + |a|, b)
  {
    var c := a + b;
    assert whole[i..i + |a|] == c[..|a|] == a;
    assert whole[i + |a|..i + |c|] == c[|a|..] == b;
  }

  lemma AtLine<T>(whole: seq<T>, i: nat, part: seq<T>, j: nat)
    requires At(whole, i, part) && j < |part|
    ensures i + j < |whole| && whole[i + j] == part[j]
  {
    assert whole[i..i + |part|][j] == part[j];
  }
}
