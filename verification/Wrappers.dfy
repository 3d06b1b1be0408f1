/** Small things that several modules need. */
module Wrappers {

  datatype Option<+T> = None | Some(value: T)

  /** Pieces, end to end. */
  function Join<T>(parts: seq<seq<T>>): seq<T> {
    if parts == [] then [] else parts[0] + Join(parts[1..])
  }

  /** `s` stands in `buf` at position `p`. */
  ghost predicate At<T>(buf: seq<T>, p: nat, s: seq<T>) {
    p + |s| <= |buf| && buf[p..p + |s|] == s
  }

  lemma AtSplit<T>(buf: seq<T>, p: nat, a: seq<T>, b: seq<T>)
    requires At(buf, p, a + b)
    ensures At(buf, p, a) && At(buf, p + |a|, b)
  {
    var s := a + b;
    assert buf[p..p + |a|] == s[..|a|];
    assert buf[p + |a|..p + |a| + |b|] == s[|a|..];
  }

  lemma AtIndex<T>(buf: seq<T>, p: nat, s: seq<T>, i: nat)
    requires At(buf, p, s) && i < |s|
    ensures buf[p + i] == s[i]
  {
    assert buf[p..p + |s|][i] == buf[p + i];
  }

  lemma AtMiddle<T>(a: seq<T>, b: seq<T>, c: seq<T>)
    ensures At(a + (b + c), |a|, b)
  {
  }
}
