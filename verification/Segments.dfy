/** Where a piece of a longer sequence stands: lines in a file, fields in a packet. */
module Segments {
  ghost predicate At<T>(whole: seq<T>, pos: nat, segment: seq<T>) {
    pos + |segment| <= |whole| && whole[pos..pos + |segment|] == segment
  }

  lemma AtAppend<T>(whole: seq<T>, pos: nat, a: seq<T>, b: seq<T>)
    requires At(whole, pos, a + b)
    ensures At(whole, pos, a) && At(whole, pos + |a|, b)
  {
    var s := whole[pos..pos + |a + b|];
    assert whole[pos..pos + |a|] == s[..|a|];
    assert whole[pos + |a|..pos + |a| + |b|] == s[|a|..];
  }

  lemma AtJoin<T>(whole: seq<T>, pos: nat, a: seq<T>, b: seq<T>)
    requires At(whole, pos, a) && At(whole, pos + |a|, b)
    ensures At(whole, pos, a + b)
  {
    var n := |a| + |b|;
    assert whole[pos..pos + n] == whole[pos..pos + |a|] + whole[pos + |a|..pos + n];
  }
}
