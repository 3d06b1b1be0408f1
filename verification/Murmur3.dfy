/** Hashes that take in their input block by block. */
module BlockHash {

  /** `f` and `g` undo each other. */
  ghost predicate Inverse<T(!new)>(f: T -> T, g: T -> T) {
    && (forall x {:trigger f(x)} :: g(f(x)) == x)
    && (forall x {:trigger g(x)} :: f(g(x)) == x)
  }

  lemma Chain<T(!new)>(f: T -> T, f1: T -> T, g: T -> T, g1: T -> T)
    requires Inverse(f, f1) && Inverse(g, g1)
    ensures Inverse(x => g(f(x)), x => f1(g1(x)))
  {
  }

  lemma Undo<T(!new)>(f: T -> T, g: T -> T, x: T, y: T)
    requires Inverse(f, g) && f(x) == f(y)
    ensures x == y
  {
    assert g(f(x)) == x;
  }

  /** What joins two words loses neither, if the other is known. */
  ghost predicate Cancels<T(!new)>(join: (T, T) -> T) {
    && (forall x, y, m {:trigger join(x, m), join(y, m)} :: join(x, m) == join(y, m) ==> x == y)
    && (forall x, y, m {:trigger join(m, x), join(m, y)} :: join(m, x) == join(m, y) ==> x == y)
  }

  /** The state after all blocks. */
  function Absorb<S, K>(round: (S, K) -> S, h: S, ks: seq<K>): S
    decreases |ks|
  {
    if ks == [] then h else Absorb(round, round(h, ks[0]), ks[1..])
  }

  /** A round loses nothing of the state and nothing of the block. */
  ghost predicate Lossless<S(!new), K(!new)>(round: (S, K) -> S) {
    && (forall h, g, k {:trigger round(h, k), round(g, k)} :: round(h, k) == round(g, k) ==> h == g)
    && (forall h, k, l {:trigger round(h, k), round(h, l)} :: round(h, k) == round(h, l) ==> k == l)
  }

  lemma {:induction false} StatesStayApart<S(!new), K(!new)>(round: (S, K) -> S, h: S, g: S, ks: seq<K>)
    requires Lossless(round) && h != g
    ensures Absorb(round, h, ks) != Absorb(round, g, ks)
    decreases |ks|
  {
    if ks != [] {
      StatesStayApart(round, round(h, ks[0]), round(g, ks[0]), ks[1..]);
    }
  }

  /** Inputs that differ in one block leave different states. */
  lemma {:induction false} OneBlock<S(!new), K(!new)>(round: (S, K) -> S, h: S, a: seq<K>, b: seq<K>, j: nat)
    requires Lossless(round) && |a| == |b| && j < |a| && a[j] != b[j]
    requires forall i :: 0 <= i < |a| && i != j ==> a[i] == b[i]
    ensures Absorb(round, h, a) != Absorb(round, h, b)
    decreases |a|
  {
    if j == 0 {
      assert a[1..] == b[1..];
      StatesStayApart(round, round(h, a[0]), round(h, b[0]), a[1..]);
    } else {
      OneBlock(round, round(h, a[0]), a[1..], b[1..], j - 1);
    }
  }

  /** A round in which the block is mixed and joined to the state. */
  function Round<T>(after: T -> T, join: (T, T) -> T, mix: T -> T): (T, T) -> T {
    (h: T, k: T) => after(join(h, mix(k)))
  }

  lemma RoundLossless<T(!new)>(after: T -> T, before: T -> T, join: (T, T) -> T, mix: T -> T, unmix: T -> T)
    requires Inverse(after, before) && Inverse(mix, unmix) && Cancels(join)
    ensures Lossless(Round(after, join, mix))
  {
    var round := Round(after, join, mix);
    forall h, g, k | round(h, k) == round(g, k)
      ensures h == g
    {
      Undo(after, before, join(h, mix(k)), join(g, mix(k)));
    }
    forall h, k, l | round(h, k) == round(h, l)
      ensures k == l
    {
      Undo(after, before, join(h, mix(k)), join(h, mix(l)));
      Undo(mix, unmix, k, l);
    }
  }

  type Bytes = seq<bv8>

  /** Bytes enter a word of the state through its mix, unless there are none. */
  function Enter<T>(xor: (T, T) -> T, mix: T -> T, word: Bytes -> T, h: T, b: Bytes): T {
    if b == [] then h else xor(h, mix(word(b)))
  }

  /** The end of the hash: the tail enters like a block, then the length, then the final mix. */
  function Finish<T>(fmix: T -> T, join: (T, T) -> T, mix: T -> T, word: Bytes -> T, len: T): (T, Bytes) -> T {
    (h: T, tail: Bytes) => fmix(join(Enter(join, mix, word, h, tail), len))
  }

  /** Nothing of the state is lost and, for tails of one length up to `n`, nothing of the tail. */
  ghost predicate LosslessEnd<S(!new), D(!new)>(finish: (S, Bytes) -> D, n: nat) {
    && (forall h, g, t {:trigger finish(h, t), finish(g, t)} :: finish(h, t) == finish(g, t) ==> h == g)
    && (forall h, a, b {:trigger finish(h, a), finish(h, b)} ::
          finish(h, a) == finish(h, b) && |a| == |b| <= n ==> a == b)
  }

  /** Bytes of one length up to `n` are told apart by their word. */
  ghost predicate Spells<T(!new)>(word: Bytes -> T, n: nat) {
    forall a, b {:trigger word(a), word(b)} :: word(a) == word(b) && |a| == |b| <= n ==> a == b
  }

  lemma EnterLossless<T(!new)>(xor: (T, T) -> T, mix: T -> T, unmix: T -> T, word: Bytes -> T, n: nat,
                               h: T, g: T, a: Bytes, b: Bytes)
    requires Cancels(xor) && Inverse(mix, unmix) && Spells(word, n) && |a| == |b| <= n
    requires Enter(xor, mix, word, h, a) == Enter(xor, mix, word, g, b)
    ensures a == b ==> h == g
    ensures h == g ==> a == b
  {
    if h == g && a != [] {
      Undo(mix, unmix, word(a), word(b));
    }
  }

  lemma FinishLossless<T(!new)>(fmix: T -> T, unfmix: T -> T, join: (T, T) -> T, mix: T -> T, unmix: T -> T,
                                word: Bytes -> T, len: T, n: nat)
    requires Inverse(fmix, unfmix) && Cancels(join) && Inverse(mix, unmix) && Spells(word, n)
    ensures LosslessEnd(Finish(fmix, join, mix, word, len), n)
  {
    var finish := Finish(fmix, join, mix, word, len);
    forall h, g, t | finish(h, t) == finish(g, t)
      ensures h == g
    {
      var x, y := Enter(join, mix, word, h, t), Enter(join, mix, word, g, t);
      Undo(fmix, unfmix, join(x, len), join(y, len));
    }
    forall h, a, b | finish(h, a) == finish(h, b) && |a| == |b| <= n
      ensures a == b
    {
      var x, y := Enter(join, mix, word, h, a), Enter(join, mix, word, h, b);
      Undo(fmix, unfmix, join(x, len), join(y, len));
      EnterLossless(join, mix, unmix, word, n, h, h, a, b);
    }
  }

  function Digest<S, K, D>(round: (S, K) -> S, finish: (S, Bytes) -> D, seed: S, ks: seq<K>, tail: Bytes): D {
    finish(Absorb(round, seed, ks), tail)
  }

  /** Inputs of one length that differ in one block only, or in the tail only, have different digests. */
  lemma DigestsDiffer<S(!new), K(!new), D(!new)>(
    round: (S, K) -> S, finish: (S, Bytes) -> D, n: nat, seed: S, a: seq<K>, b: seq<K>, s: Bytes, t: Bytes, j: nat)
    requires Lossless(round) && LosslessEnd(finish, n) && |a| == |b| && |s| == |t| <= n
    requires forall i :: 0 <= i < |a| && i != j ==> a[i] == b[i]
    requires if j < |a| then a[j] != b[j] && s == t else s != t
    ensures Digest(round, finish, seed, a, s) != Digest(round, finish, seed, b, t)
  {
    if j < |a| {
      OneBlock(round, seed, a, b, j);
    } else {
      assert a == b;
    }
  }

  // Two words at a time

  /** The steps of a hash with a state of two words, without those that undo them. */
  datatype Kit<!T> = Kit(
    xor: (T, T) -> T, add: (T, T) -> T, mix1: T -> T, turn1: T -> T, scale1: T -> T,
    mix2: T -> T, turn2: T -> T, scale2: T -> T, fmix: T -> T)

  ghost predicate Sound<T(!new)>(kit: Kit<T>, un: Kit<T>) {
    && Cancels(kit.xor) && Cancels(kit.add)
    && Inverse(kit.mix1, un.mix1) && Inverse(kit.turn1, un.turn1) && Inverse(kit.scale1, un.scale1)
    && Inverse(kit.mix2, un.mix2) && Inverse(kit.turn2, un.turn2) && Inverse(kit.scale2, un.scale2)
    && Inverse(kit.fmix, un.fmix)
  }

  function First<T>(kit: Kit<T>, s: (T, T), k: T): T {
    kit.scale1(kit.add(kit.turn1(kit.xor(s.0, kit.mix1(k))), s.1))
  }

  function Second<T>(kit: Kit<T>, s: T, h1: T, k: T): T {
    kit.scale2(kit.add(kit.turn2(kit.xor(s, kit.mix2(k))), h1))
  }

  function PairRound<T>(kit: Kit<T>): ((T, T), (T, T)) -> (T, T) {
    (s: (T, T), k: (T, T)) => (First(kit, s, k.0), Second(kit, s.1, First(kit, s, k.0), k.1))
  }

  lemma FirstLossless<T(!new)>(kit: Kit<T>, un: Kit<T>, h: T, g: T, s: T, k: T, l: T)
    requires Sound(kit, un) && First(kit, (h, s), k) == First(kit, (g, s), l)
    ensures kit.xor(h, kit.mix1(k)) == kit.xor(g, kit.mix1(l))
  {
    var x, y := kit.xor(h, kit.mix1(k)), kit.xor(g, kit.mix1(l));
    Undo(kit.scale1, un.scale1, kit.add(kit.turn1(x), s), kit.add(kit.turn1(y), s));
    Undo(kit.turn1, un.turn1, x, y);
  }

  lemma SecondLossless<T(!new)>(kit: Kit<T>, un: Kit<T>, h: T, g: T, h1: T, k: T, l: T)
    requires Sound(kit, un) && Second(kit, h, h1, k) == Second(kit, g, h1, l)
    ensures kit.xor(h, kit.mix2(k)) == kit.xor(g, kit.mix2(l))
  {
    var x, y := kit.xor(h, kit.mix2(k)), kit.xor(g, kit.mix2(l));
    Undo(kit.scale2, un.scale2, kit.add(kit.turn2(x), h1), kit.add(kit.turn2(y), h1));
    Undo(kit.turn2, un.turn2, x, y);
  }

  lemma PairStateKept<T(!new)>(kit: Kit<T>, un: Kit<T>, h: (T, T), g: (T, T), k: (T, T))
    requires Sound(kit, un) && PairRound(kit)(h, k) == PairRound(kit)(g, k)
    ensures h == g
  {
    SecondLossless(kit, un, h.1, g.1, First(kit, h, k.0), k.1, k.1);
    assert h.1 == g.1;
    FirstLossless(kit, un, h.0, g.0, h.1, k.0, k.0);
  }

  lemma PairBlockKept<T(!new)>(kit: Kit<T>, un: Kit<T>, h: (T, T), k: (T, T), l: (T, T))
    requires Sound(kit, un) && PairRound(kit)(h, k) == PairRound(kit)(h, l)
    ensures k == l
  {
    SecondLossless(kit, un, h.1, h.1, First(kit, h, k.0), k.1, l.1);
    FirstLossless(kit, un, h.0, h.0, h.1, k.0, l.0);
    Undo(kit.mix1, un.mix1, k.0, l.0);
    Undo(kit.mix2, un.mix2, k.1, l.1);
  }

  lemma PairRoundLossless<T(!new)>(kit: Kit<T>, un: Kit<T>)
    requires Sound(kit, un)
    ensures Lossless(PairRound(kit))
  {
    var round := PairRound(kit);
    forall h, g, k | round(h, k) == round(g, k)
      ensures h == g
    {
      PairStateKept(kit, un, h, g, k);
    }
    forall h, k, l | round(h, k) == round(h, l)
      ensures k == l
    {
      PairBlockKept(kit, un, h, k, l);
    }
  }

  function Front(b: Bytes, n: nat): Bytes {
    if |b| <= n then b else b[..n]
  }

  function Rest(b: Bytes, n: nat): Bytes {
    if |b| <= n then [] else b[n..]
  }

  lemma FrontAndRest(b: Bytes, n: nat)
    ensures b == Front(b, n) + Rest(b, n)
  {
  }

  /** The two words are added to each other, crosswise. */
  function Cross<T>(add: (T, T) -> T, s: (T, T)): (T, T) {
    (add(s.0, s.1), add(s.1, add(s.0, s.1)))
  }

  lemma CrossLossless<T(!new)>(add: (T, T) -> T, s: (T, T), t: (T, T))
    requires Cancels(add) && Cross(add, s) == Cross(add, t)
    ensures s == t
  {
    var m := add(s.0, s.1);
    assert add(s.1, m) == add(t.1, m);
    assert s.1 == t.1;
  }

  function PairMix<T>(kit: Kit<T>, s: (T, T), len: T): (T, T) {
    var m := Cross(kit.add, (kit.xor(s.0, len), kit.xor(s.1, len)));
    Cross(kit.add, (kit.fmix(m.0), kit.fmix(m.1)))
  }

  lemma PairMixLossless<T(!new)>(kit: Kit<T>, un: Kit<T>, s: (T, T), t: (T, T), len: T)
    requires Sound(kit, un) && PairMix(kit, s, len) == PairMix(kit, t, len)
    ensures s == t
  {
    var a, b := (kit.xor(s.0, len), kit.xor(s.1, len)), (kit.xor(t.0, len), kit.xor(t.1, len));
    var m, n := Cross(kit.add, a), Cross(kit.add, b);
    CrossLossless(kit.add, (kit.fmix(m.0), kit.fmix(m.1)), (kit.fmix(n.0), kit.fmix(n.1)));
    Undo(kit.fmix, un.fmix, m.0, n.0);
    Undo(kit.fmix, un.fmix, m.1, n.1);
    CrossLossless(kit.add, a, b);
  }

  function PairFinish<T>(kit: Kit<T>, word: Bytes -> T, len: T): ((T, T), Bytes) -> (T, T) {
    (s: (T, T), t: Bytes) =>
      PairMix(kit, (Enter(kit.xor, kit.mix1, word, s.0, Front(t, 8)), Enter(kit.xor, kit.mix2, word, s.1, Rest(t, 8))), len)
  }

  lemma PairFinishLossless<T(!new)>(kit: Kit<T>, un: Kit<T>, word: Bytes -> T, len: T)
    requires Sound(kit, un) && Spells(word, 8)
    ensures LosslessEnd(PairFinish(kit, word, len), 15)
  {
    var finish := PairFinish(kit, word, len);
    forall h, g, t | finish(h, t) == finish(g, t)
      ensures h == g
    {
      PairEndKept(kit, un, word, len, h, g, t, t);
    }
    forall h, a, b | finish(h, a) == finish(h, b) && |a| == |b| <= 15
      ensures a == b
    {
      PairEndKept(kit, un, word, len, h, h, a, b);
      FrontAndRest(a, 8);
      FrontAndRest(b, 8);
    }
  }

  lemma PairEndKept<T(!new)>(kit: Kit<T>, un: Kit<T>, word: Bytes -> T, len: T, h: (T, T), g: (T, T), a: Bytes, b: Bytes)
    requires Sound(kit, un) && Spells(word, 8) && |a| == |b| && (a == b || |a| <= 15)
    requires PairFinish(kit, word, len)(h, a) == PairFinish(kit, word, len)(g, b)
    ensures a == b ==> h == g
    ensures h == g && |a| <= 15 ==> Front(a, 8) == Front(b, 8) && Rest(a, 8) == Rest(b, 8)
  {
    var x := (Enter(kit.xor, kit.mix1, word, h.0, Front(a, 8)), Enter(kit.xor, kit.mix2, word, h.1, Rest(a, 8)));
    var y := (Enter(kit.xor, kit.mix1, word, g.0, Front(b, 8)), Enter(kit.xor, kit.mix2, word, g.1, Rest(b, 8)));
    PairMixLossless(kit, un, x, y, len);
    EnterLossless(kit.xor, kit.mix1, un.mix1, word, 8, h.0, g.0, Front(a, 8), Front(b, 8));
    if |a| <= 15 {
      EnterLossless(kit.xor, kit.mix2, un.mix2, word, 8, h.1, g.1, Rest(a, 8), Rest(b, 8));
    }
  }
}

/** The steps of src/global/murmurhash3.c, each with the step that undoes it. */
module MurmurSteps {
  import opened BlockHash

  // 32 bits

  function Rotl32(x: bv32, r: bv32): bv32
    requires 0 < r < 32
  {
    (x << r) | (x >> (32 - r))
  }

  function Fold16(x: bv32): bv32 { x ^ (x >> 16) }
  function Fold13(x: bv32): bv32 { x ^ (x >> 13) }
  function Unfold13(x: bv32): bv32 { x ^ (x >> 13) ^ (x >> 26) }
  function TimesA(x: bv32): bv32 { x * 0x85ebca6b }
  function OverA(x: bv32): bv32 { x * 0xa5cb9243 }
  function TimesB(x: bv32): bv32 { x * 0xc2b2ae35 }
  function OverB(x: bv32): bv32 { x * 0x7ed1b41d }
  function TimesC(x: bv32): bv32 { x * 0xcc9e2d51 }
  function OverC(x: bv32): bv32 { x * 0xdee13bb1 }
  function TimesD(x: bv32): bv32 { x * 0x1b873593 }
  function OverD(x: bv32): bv32 { x * 0x56ed309b }
  function Turn15(x: bv32): bv32 { Rotl32(x, 15) }
  function Turn17(x: bv32): bv32 { Rotl32(x, 17) }
  function Turn13(x: bv32): bv32 { Rotl32(x, 13) }
  function Turn19(x: bv32): bv32 { Rotl32(x, 19) }
  function Scale(x: bv32): bv32 { x * 5 + 0xe6546b64 }
  function Unscale(x: bv32): bv32 { (x - 0xe6546b64) * 0xcccccccd }

  // Each step is undone first on its value spelled out, then as a function.

  lemma FoldValues32(x: bv32)
    ensures Fold16(x ^ (x >> 16)) == x
    ensures Unfold13(x ^ (x >> 13)) == x
    ensures Fold13(x ^ (x >> 13) ^ (x >> 26)) == x
  {
  }

  lemma FoldInverses32()
    ensures Inverse(Fold16, Fold16)
    ensures Inverse(Fold13, Unfold13)
  {
    forall x: bv32
      ensures Fold16(Fold16(x)) == x
      ensures Unfold13(Fold13(x)) == x && Fold13(Unfold13(x)) == x
    {
      FoldValues32(x);
    }
  }

  lemma TimesValues32(x: bv32)
    ensures OverA(x * 0x85ebca6b) == x
    ensures TimesA(x * 0xa5cb9243) == x
    ensures OverB(x * 0xc2b2ae35) == x
    ensures TimesB(x * 0x7ed1b41d) == x
    ensures OverC(x * 0xcc9e2d51) == x
    ensures TimesC(x * 0xdee13bb1) == x
    ensures OverD(x * 0x1b873593) == x
    ensures TimesD(x * 0x56ed309b) == x
  {
  }

  lemma TimesInverses32()
    ensures Inverse(TimesA, OverA)
    ensures Inverse(TimesB, OverB)
    ensures Inverse(TimesC, OverC)
    ensures Inverse(TimesD, OverD)
  {
    forall x: bv32
      ensures OverA(TimesA(x)) == x && TimesA(OverA(x)) == x
      ensures OverB(TimesB(x)) == x && TimesB(OverB(x)) == x
      ensures OverC(TimesC(x)) == x && TimesC(OverC(x)) == x
      ensures OverD(TimesD(x)) == x && TimesD(OverD(x)) == x
    {
      TimesValues32(x);
    }
  }

  lemma Turn15Values(x: bv32)
    ensures Turn17(Rotl32(x, 15)) == x
    ensures Turn15(Rotl32(x, 17)) == x
  {
  }

  lemma Turn13Values(x: bv32)
    ensures Turn19(Rotl32(x, 13)) == x
    ensures Turn13(Rotl32(x, 19)) == x
  {
  }

  lemma TurnInverses32()
    ensures Inverse(Turn15, Turn17)
    ensures Inverse(Turn13, Turn19)
  {
    forall x: bv32
      ensures Turn17(Turn15(x)) == x && Turn15(Turn17(x)) == x
      ensures Turn19(Turn13(x)) == x && Turn13(Turn19(x)) == x
    {
      Turn15Values(x);
      Turn13Values(x);
    }
  }

  lemma ScaleValues32(x: bv32)
    ensures Unscale(x * 5 + 0xe6546b64) == x
    ensures Scale((x - 0xe6546b64) * 0xcccccccd) == x
  {
  }

  lemma ScaleInverses32()
    ensures Inverse(Scale, Unscale)
  {
    forall x: bv32
      ensures Unscale(Scale(x)) == x && Scale(Unscale(x)) == x
    {
      ScaleValues32(x);
    }
  }

  // 64 bits

  function Rotl64(x: bv64, r: bv64): bv64
    requires 0 < r < 64
  {
    (x << r) | (x >> (64 - r))
  }

  function Fold33(x: bv64): bv64 { x ^ (x >> 33) }
  function TimesE(x: bv64): bv64 { x * 0xff51afd7ed558ccd }
  function OverE(x: bv64): bv64 { x * 0x4f74430c22a54005 }
  function TimesF(x: bv64): bv64 { x * 0xc4ceb9fe1a85ec53 }
  function OverF(x: bv64): bv64 { x * 0x9cb4b2f8129337db }
  function TimesG(x: bv64): bv64 { x * 0x87c37b91114253d5 }
  function OverG(x: bv64): bv64 { x * 0xa98409e882ce4d7d }
  function TimesH(x: bv64): bv64 { x * 0x4cf5ad432745937f }
  function OverH(x: bv64): bv64 { x * 0xa81e14edd9de2c7f }
  function Turn31(x: bv64): bv64 { Rotl64(x, 31) }
  function Turn33(x: bv64): bv64 { Rotl64(x, 33) }
  function Turn27(x: bv64): bv64 { Rotl64(x, 27) }
  function Turn37(x: bv64): bv64 { Rotl64(x, 37) }
  function ScaleFirst(x: bv64): bv64 { x * 5 + 0x52dce729 }
  function UnscaleFirst(x: bv64): bv64 { (x - 0x52dce729) * 0xcccccccccccccccd }
  function ScaleSecond(x: bv64): bv64 { x * 5 + 0x38495ab5 }
  function UnscaleSecond(x: bv64): bv64 { (x - 0x38495ab5) * 0xcccccccccccccccd }

  // Each step is undone first on its value spelled out, then as a function.

  lemma FoldValues64(x: bv64)
    ensures Fold33(x ^ (x >> 33)) == x
  {
  }

  lemma FoldInverses64()
    ensures Inverse(Fold33, Fold33)
  {
    forall x: bv64
      ensures Fold33(Fold33(x)) == x
    {
      FoldValues64(x);
    }
  }

  lemma TimesValues64(x: bv64)
    ensures OverE(x * 0xff51afd7ed558ccd) == x
    ensures TimesE(x * 0x4f74430c22a54005) == x
    ensures OverF(x * 0xc4ceb9fe1a85ec53) == x
    ensures TimesF(x * 0x9cb4b2f8129337db) == x
    ensures OverG(x * 0x87c37b91114253d5) == x
    ensures TimesG(x * 0xa98409e882ce4d7d) == x
    ensures OverH(x * 0x4cf5ad432745937f) == x
    ensures TimesH(x * 0xa81e14edd9de2c7f) == x
  {
  }

  lemma TimesInverses64()
    ensures Inverse(TimesE, OverE)
    ensures Inverse(TimesF, OverF)
    ensures Inverse(TimesG, OverG)
    ensures Inverse(TimesH, OverH)
  {
    forall x: bv64
      ensures OverE(TimesE(x)) == x && TimesE(OverE(x)) == x
      ensures OverF(TimesF(x)) == x && TimesF(OverF(x)) == x
      ensures OverG(TimesG(x)) == x && TimesG(OverG(x)) == x
      ensures OverH(TimesH(x)) == x && TimesH(OverH(x)) == x
    {
      TimesValues64(x);
    }
  }

  lemma Turn31Values(x: bv64)
    ensures Turn33(Rotl64(x, 31)) == x
    ensures Turn31(Rotl64(x, 33)) == x
  {
  }

  lemma Turn27Values(x: bv64)
    ensures Turn37(Rotl64(x, 27)) == x
    ensures Turn27(Rotl64(x, 37)) == x
  {
  }

  lemma TurnInverses64()
    ensures Inverse(Turn31, Turn33)
    ensures Inverse(Turn27, Turn37)
  {
    forall x: bv64
      ensures Turn33(Turn31(x)) == x && Turn31(Turn33(x)) == x
      ensures Turn37(Turn27(x)) == x && Turn27(Turn37(x)) == x
    {
      Turn31Values(x);
      Turn27Values(x);
    }
  }

  lemma ScaleValues64(x: bv64)
    ensures UnscaleFirst(x * 5 + 0x52dce729) == x
    ensures ScaleFirst((x - 0x52dce729) * 0xcccccccccccccccd) == x
    ensures UnscaleSecond(x * 5 + 0x38495ab5) == x
    ensures ScaleSecond((x - 0x38495ab5) * 0xcccccccccccccccd) == x
  {
  }

  lemma ScaleInverses64()
    ensures Inverse(ScaleFirst, UnscaleFirst)
    ensures Inverse(ScaleSecond, UnscaleSecond)
  {
    forall x: bv64
      ensures UnscaleFirst(ScaleFirst(x)) == x && ScaleFirst(UnscaleFirst(x)) == x
      ensures UnscaleSecond(ScaleSecond(x)) == x && ScaleSecond(UnscaleSecond(x)) == x
    {
      ScaleValues64(x);
    }
  }
}

/** The hash functions of src/global/murmurhash3.c over keys of any length. */
module Murmur3 {
  import opened BlockHash
  import opened MurmurSteps

  // Words of bytes, lowest first

  function ByteAt(b: Bytes, i: nat): bv8 {
    if i < |b| then b[i] else 0
  }

  function Join32(a: bv8, b: bv8, c: bv8, d: bv8): bv32 {
    (a as bv32) ^ ((b as bv32) << 8) ^ ((c as bv32) << 16) ^ ((d as bv32) << 24)
  }

  lemma Join32Injective(a: bv8, b: bv8, c: bv8, d: bv8, a1: bv8, b1: bv8, c1: bv8, d1: bv8)
    requires Join32(a, b, c, d) == Join32(a1, b1, c1, d1)
    ensures a == a1 && b == b1 && c == c1 && d == d1
  {
  }

  function Word32(b: Bytes): bv32 {
    Join32(ByteAt(b, 0), ByteAt(b, 1), ByteAt(b, 2), ByteAt(b, 3))
  }

  function Halves(lo: bv32, hi: bv32): bv64 {
    (lo as bv64) ^ ((hi as bv64) << 32)
  }

  lemma HalvesInjective(a: bv32, b: bv32, a1: bv32, b1: bv32)
    requires Halves(a, b) == Halves(a1, b1)
    ensures a == a1 && b == b1
  {
  }

  function Word64(b: Bytes): bv64 {
    Halves(Word32(Front(b, 4)), Word32(Rest(b, 4)))
  }

  lemma SameBytes(a: Bytes, b: Bytes)
    requires |a| == |b| && forall i :: 0 <= i < |a| ==> ByteAt(a, i) == ByteAt(b, i)
    ensures a == b
  {
    forall i | 0 <= i < |a|
      ensures a[i] == b[i]
    {
      assert ByteAt(a, i) == ByteAt(b, i);
    }
  }

  lemma Word32Injective(a: Bytes, b: Bytes)
    requires |a| == |b| <= 4 && Word32(a) == Word32(b)
    ensures a == b
  {
    Join32Injective(ByteAt(a, 0), ByteAt(a, 1), ByteAt(a, 2), ByteAt(a, 3),
                    ByteAt(b, 0), ByteAt(b, 1), ByteAt(b, 2), ByteAt(b, 3));
    SameBytes(a, b);
  }

  lemma Word64Injective(a: Bytes, b: Bytes)
    requires |a| == |b| <= 8 && Word64(a) == Word64(b)
    ensures a == b
  {
    HalvesInjective(Word32(Front(a, 4)), Word32(Rest(a, 4)), Word32(Front(b, 4)), Word32(Rest(b, 4)));
    Word32Injective(Front(a, 4), Front(b, 4));
    Word32Injective(Rest(a, 4), Rest(b, 4));
    FrontAndRest(a, 4);
    FrontAndRest(b, 4);
  }

  // 32 bits

  function Xor32(x: bv32, y: bv32): bv32 { x ^ y }

  lemma Xor32Twice(x: bv32, m: bv32)
    ensures Xor32(x ^ m, m) == x && Xor32(m, m ^ x) == x
  {
  }

  lemma Xor32Cancels()
    ensures Cancels(Xor32)
  {
    forall x, y, m | Xor32(x, m) == Xor32(y, m)
      ensures x == y
    {
      Xor32Twice(x, m);
      Xor32Twice(y, m);
    }
    forall x, y, m | Xor32(m, x) == Xor32(m, y)
      ensures x == y
    {
      Xor32Twice(x, m);
      Xor32Twice(y, m);
    }
  }

  function Mix32(k: bv32): bv32 {
    TimesD(Turn15(TimesC(k)))
  }

  lemma Mix32Inverse() returns (g: bv32 -> bv32)
    ensures Inverse(Mix32, g)
  {
    TimesInverses32();
    TurnInverses32();
    Chain(TimesC, OverC, Turn15, Turn17);
    var f1, g1 := (x: bv32) => Turn15(TimesC(x)), (x: bv32) => OverC(Turn17(x));
    Chain(f1, g1, TimesD, OverD);
    g := x => g1(OverD(x));
  }

  function After32(x: bv32): bv32 {
    Scale(Turn13(x))
  }

  lemma After32Inverse() returns (g: bv32 -> bv32)
    ensures Inverse(After32, g)
  {
    TurnInverses32();
    ScaleInverses32();
    Chain(Turn13, Turn19, Scale, Unscale);
    g := x => Turn19(Unscale(x));
  }

  function Fmix32(h: bv32): bv32 {
    Fold16(TimesB(Fold13(TimesA(Fold16(h)))))
  }

  /** fmix32 is a permutation. */
  lemma Fmix32Inverse() returns (g: bv32 -> bv32)
    ensures Inverse(Fmix32, g)
  {
    FoldInverses32();
    TimesInverses32();
    Chain(Fold16, Fold16, TimesA, OverA);
    var f1, g1 := (x: bv32) => TimesA(Fold16(x)), (x: bv32) => Fold16(OverA(x));
    Chain(f1, g1, Fold13, Unfold13);
    var f2, g2 := (x: bv32) => Fold13(f1(x)), (x: bv32) => g1(Unfold13(x));
    Chain(f2, g2, TimesB, OverB);
    var f3, g3 := (x: bv32) => TimesB(f2(x)), (x: bv32) => g2(OverB(x));
    Chain(f3, g3, Fold16, Fold16);
    g := x => g3(Fold16(x));
  }

  lemma Word32Spells()
    ensures Spells(Word32, 4) && Spells(Word32, 3)
  {
    forall a, b | Word32(a) == Word32(b) && |a| == |b| <= 4
      ensures a == b
    {
      Word32Injective(a, b);
    }
  }

  // Keys

  function Blocks(key: Bytes, size: nat): seq<Bytes>
    requires size > 0
    decreases |key|
  {
    if |key| < size then [] else [key[..size]] + Blocks(key[size..], size)
  }

  function Tail(key: Bytes, size: nat): Bytes
    requires size > 0
    decreases |key|
  {
    if |key| < size then key else Tail(key[size..], size)
  }

  lemma {:induction false} PartSizes(a: Bytes, b: Bytes, size: nat)
    requires size > 0 && |a| == |b|
    ensures |Blocks(a, size)| == |Blocks(b, size)| && |Tail(a, size)| == |Tail(b, size)| < size
    ensures forall i :: 0 <= i < |Blocks(a, size)| ==> |Blocks(a, size)[i]| == size
    decreases |a|
  {
    if |a| >= size {
      PartSizes(a[size..], b[size..], size);
    }
  }

  /** Blocks and tail make the key. */
  lemma {:induction false} SameParts(a: Bytes, b: Bytes, size: nat)
    requires size > 0 && |a| == |b| && Blocks(a, size) == Blocks(b, size) && Tail(a, size) == Tail(b, size)
    ensures a == b
    decreases |a|
  {
    if |a| >= size {
      assert Blocks(a, size)[1..] == Blocks(a[size..], size) && Blocks(b, size)[1..] == Blocks(b[size..], size);
      assert Blocks(a, size)[0] == a[..size] && Blocks(b, size)[0] == b[..size];
      SameParts(a[size..], b[size..], size);
      assert a == a[..size] + a[size..] && b == b[..size] + b[size..];
    }
  }

  /** Keys of one length that differ in block `j` only or, if there is no such block, in the tail only. */
  ghost predicate DifferAt(a: Bytes, b: Bytes, size: nat, j: nat)
    requires size > 0 && |a| == |b|
  {
    PartSizes(a, b, size);
    && a != b
    && (forall i :: 0 <= i < |Blocks(a, size)| && i != j ==> Blocks(a, size)[i] == Blocks(b, size)[i])
    && (j < |Blocks(a, size)| ==> Tail(a, size) == Tail(b, size))
  }

  function Words<T>(word: Bytes -> T, bs: seq<Bytes>): (ks: seq<T>)
    ensures |ks| == |bs| && forall i :: 0 <= i < |bs| ==> ks[i] == word(bs[i])
  {
    seq(|bs|, i requires 0 <= i < |bs| => word(bs[i]))
  }

  /** Of a hash over words of `size` bytes, in which nothing is lost on the way. */
  lemma KeysDiffer<S(!new), K(!new), D(!new)>(
    round: (S, K) -> S, finish: (S, Bytes) -> D, word: Bytes -> K, size: nat, seed: S, a: Bytes, b: Bytes, j: nat)
    requires size > 0 && Lossless(round) && LosslessEnd(finish, size - 1) && Spells(word, size)
    requires |a| == |b| && DifferAt(a, b, size, j)
    ensures Digest(round, finish, seed, Words(word, Blocks(a, size)), Tail(a, size)) !=
      Digest(round, finish, seed, Words(word, Blocks(b, size)), Tail(b, size))
  {
    PartSizes(a, b, size);
    var p, q := Blocks(a, size), Blocks(b, size);
    if j < |p| && p[j] == q[j] {
      assert p == q;
      SameParts(a, b, size);
    } else if j >= |p| && Tail(a, size) == Tail(b, size) {
      assert p == q;
      SameParts(a, b, size);
    }
    PartSizes(b, a, size);
    DigestsDiffer(round, finish, size - 1, seed, Words(word, p), Words(word, q), Tail(a, size), Tail(b, size), j);
  }

  lemma NextBlock<S, K>(round: (S, K) -> S, h: S, word: Bytes -> K, key: Bytes, size: nat, p: nat)
    requires size > 0 && p + size <= |key|
    ensures Absorb(round, h, Words(word, Blocks(key[p..], size))) ==
      Absorb(round, round(h, word(key[p..p + size])), Words(word, Blocks(key[p + size..], size)))
    ensures Tail(key[p..], size) == Tail(key[p + size..], size)
  {
    var rest := key[p..];
    assert rest[size..] == key[p + size..] && rest[..size] == key[p..p + size];
    var ks := Words(word, Blocks(rest, size));
    assert ks[1..] == Words(word, Blocks(rest[size..], size));
  }

  function Hash32(key: Bytes, seed: bv32): bv32
    requires |key| < 0x8000_0000
  {
    Digest(Round(After32, Xor32, Mix32), Finish(Fmix32, Xor32, Mix32, Word32, |key| as bv32), seed,
           Words(Word32, Blocks(key, 4)), Tail(key, 4))
  }

  /** Two keys of one length that differ in one block only, or in the tail only, never have the same 32-bit hash. */
  lemma Hash32Differs(a: Bytes, b: Bytes, seed: bv32, j: nat)
    requires |a| == |b| < 0x8000_0000 && DifferAt(a, b, 4, j)
    ensures Hash32(a, seed) != Hash32(b, seed)
  {
    var before := After32Inverse();
    var unmix := Mix32Inverse();
    var unfmix := Fmix32Inverse();
    Xor32Cancels();
    Word32Spells();
    RoundLossless(After32, before, Xor32, Mix32, unmix);
    FinishLossless(Fmix32, unfmix, Xor32, Mix32, unmix, Word32, |a| as bv32, 3);
    KeysDiffer(Round(After32, Xor32, Mix32), Finish(Fmix32, Xor32, Mix32, Word32, |a| as bv32), Word32, 4, seed, a, b, j);
  }

  method Step32(h: bv32, k: bv32) returns (h1: bv32)
    ensures h1 == Round(After32, Xor32, Mix32)(h, k)
  {
    var k1 := TimesC(k);
    k1 := Turn15(k1);
    k1 := TimesD(k1);
    h1 := Xor32(h, k1);
    h1 := Turn13(h1);
    h1 := Scale(h1);
    assert h1 == After32(Xor32(h, Mix32(k)));
  }

  method End32(h: bv32, tail: Bytes, len: bv32) returns (h1: bv32)
    ensures h1 == Finish(Fmix32, Xor32, Mix32, Word32, len)(h, tail)
  {
    h1 := h;
    if tail != [] {
      var k1 := TimesC(Word32(tail));
      k1 := Turn15(k1);
      k1 := TimesD(k1);
      h1 := Xor32(h1, k1);
    }
    assert h1 == Enter(Xor32, Mix32, Word32, h, tail);
    h1 := Xor32(h1, len);
    h1 := Fmix32(h1);
  }

  method Loop32(key: Bytes, seed: bv32) returns (h: bv32, tail: Bytes)
    ensures h == Absorb(Round(After32, Xor32, Mix32), seed, Words(Word32, Blocks(key, 4))) && tail == Tail(key, 4)
  {
    ghost var round := Round(After32, Xor32, Mix32);
    ghost var goal := Absorb(round, seed, Words(Word32, Blocks(key, 4)));
    var nblocks := |key| / 4;
    var i := 0;
    h := seed;
    while i < nblocks
      invariant 0 <= i <= nblocks
      invariant goal == Absorb(round, h, Words(Word32, Blocks(key[4 * i..], 4))) && Tail(key, 4) == Tail(key[4 * i..], 4)
    {
      NextBlock(round, h, Word32, key, 4, 4 * i);
      h := Step32(h, Word32(key[4 * i..4 * i + 4]));
      i := i + 1;
    }
    tail := key[4 * nblocks..];
  }

  /** murmurhash3_x86_32 */
  method X86_32(key: Bytes, seed: bv32) returns (out: bv32)
    requires |key| < 0x8000_0000
    ensures out == Hash32(key, seed)
  {
    var h, tail := Loop32(key, seed);
    out := End32(h, tail, |key| as bv32);
  }

  // 128 bits, in two words of 64

  function Xor64(x: bv64, y: bv64): bv64 { x ^ y }
  function Add64(x: bv64, y: bv64): bv64 { x + y }

  lemma Xor64Twice(x: bv64, m: bv64)
    ensures Xor64(x ^ m, m) == x && Xor64(m, m ^ x) == x
  {
  }

  lemma Xor64Cancels()
    ensures Cancels(Xor64)
  {
    forall x, y, m | Xor64(x, m) == Xor64(y, m)
      ensures x == y
    {
      Xor64Twice(x, m);
      Xor64Twice(y, m);
    }
    forall x, y, m | Xor64(m, x) == Xor64(m, y)
      ensures x == y
    {
      Xor64Twice(x, m);
      Xor64Twice(y, m);
    }
  }

  function Minus64(x: bv64, y: bv64): bv64 { x - y }

  lemma Minus64Undoes(x: bv64, m: bv64)
    ensures Minus64(x + m, m) == x && Minus64(m + x, m) == x
  {
  }

  lemma Add64Cancels()
    ensures Cancels(Add64)
  {
    forall x, y, m | Add64(x, m) == Add64(y, m)
      ensures x == y
    {
      Minus64Undoes(x, m);
      Minus64Undoes(y, m);
    }
    forall x, y, m | Add64(m, x) == Add64(m, y)
      ensures x == y
    {
      Minus64Undoes(x, m);
      Minus64Undoes(y, m);
    }
  }

  function MixFirst(k: bv64): bv64 {
    TimesH(Turn31(TimesG(k)))
  }

  function MixSecond(k: bv64): bv64 {
    TimesG(Turn33(TimesH(k)))
  }

  lemma MixFirstInverse() returns (g: bv64 -> bv64)
    ensures Inverse(MixFirst, g)
  {
    TimesInverses64();
    TurnInverses64();
    Chain(TimesG, OverG, Turn31, Turn33);
    var f1, g1 := (x: bv64) => Turn31(TimesG(x)), (x: bv64) => OverG(Turn33(x));
    Chain(f1, g1, TimesH, OverH);
    g := x => g1(OverH(x));
  }

  lemma MixSecondInverse() returns (g: bv64 -> bv64)
    ensures Inverse(MixSecond, g)
  {
    TimesInverses64();
    TurnInverses64();
    Chain(TimesH, OverH, Turn33, Turn31);
    var f1, g1 := (x: bv64) => Turn33(TimesH(x)), (x: bv64) => OverH(Turn31(x));
    Chain(f1, g1, TimesG, OverG);
    g := x => g1(OverG(x));
  }

  function Fmix64(k: bv64): bv64 {
    Fold33(TimesF(Fold33(TimesE(Fold33(k)))))
  }

  /** fmix64 is a permutation. */
  lemma Fmix64Inverse() returns (g: bv64 -> bv64)
    ensures Inverse(Fmix64, g)
  {
    FoldInverses64();
    TimesInverses64();
    Chain(Fold33, Fold33, TimesE, OverE);
    var f1, g1 := (x: bv64) => TimesE(Fold33(x)), (x: bv64) => Fold33(OverE(x));
    Chain(f1, g1, Fold33, Fold33);
    var f2, g2 := (x: bv64) => Fold33(f1(x)), (x: bv64) => g1(Fold33(x));
    Chain(f2, g2, TimesF, OverF);
    var f3, g3 := (x: bv64) => TimesF(f2(x)), (x: bv64) => g2(OverF(x));
    Chain(f3, g3, Fold33, Fold33);
    g := x => g3(Fold33(x));
  }

  function X64(): Kit<bv64> {
    Kit(Xor64, Add64, MixFirst, Turn27, ScaleFirst, MixSecond, Turn31, ScaleSecond, Fmix64)
  }

  lemma X64Sound() returns (un: Kit<bv64>)
    ensures Sound(X64(), un)
  {
    Xor64Cancels();
    Add64Cancels();
    TurnInverses64();
    ScaleInverses64();
    var g1 := MixFirstInverse();
    var g2 := MixSecondInverse();
    var g3 := Fmix64Inverse();
    un := Kit(Xor64, Add64, g1, Turn37, UnscaleFirst, g2, Turn33, UnscaleSecond, g3);
  }

  /** A block of sixteen bytes as two words. */
  function WordPair(b: Bytes): (bv64, bv64) {
    (Word64(Front(b, 8)), Word64(Rest(b, 8)))
  }

  lemma Word64Spells()
    ensures Spells(Word64, 8)
  {
    forall a, b | Word64(a) == Word64(b) && |a| == |b| <= 8
      ensures a == b
    {
      Word64Injective(a, b);
    }
  }

  lemma WordPairSpells()
    ensures Spells(WordPair, 16)
  {
    forall a, b | WordPair(a) == WordPair(b) && |a| == |b| <= 16
      ensures a == b
    {
      Word64Injective(Front(a, 8), Front(b, 8));
      Word64Injective(Rest(a, 8), Rest(b, 8));
      FrontAndRest(a, 8);
      FrontAndRest(b, 8);
    }
  }

  function Hash128(key: Bytes, seed: bv32): (bv64, bv64)
    requires |key| < 0x8000_0000
  {
    Digest(PairRound(X64()), PairFinish(X64(), Word64, |key| as bv64), (seed as bv64, seed as bv64),
           Words(WordPair, Blocks(key, 16)), Tail(key, 16))
  }

  /** Two keys of one length that differ in one block only, or in the tail only, never have the same 128-bit hash. */
  lemma Hash128Differs(a: Bytes, b: Bytes, seed: bv32, j: nat)
    requires |a| == |b| < 0x8000_0000 && DifferAt(a, b, 16, j)
    ensures Hash128(a, seed) != Hash128(b, seed)
  {
    var un := X64Sound();
    Word64Spells();
    WordPairSpells();
    PairRoundLossless(X64(), un);
    PairFinishLossless(X64(), un, Word64, |a| as bv64);
    KeysDiffer(PairRound(X64()), PairFinish(X64(), Word64, |a| as bv64), WordPair, 16,
               (seed as bv64, seed as bv64), a, b, j);
  }

  method Step64(s: (bv64, bv64), k: (bv64, bv64)) returns (t: (bv64, bv64))
    ensures t == PairRound(X64())(s, k)
  {
    var k1 := TimesG(k.0);
    k1 := Turn31(k1);
    k1 := TimesH(k1);
    var h1 := Xor64(s.0, k1);
    h1 := Turn27(h1);
    h1 := Add64(h1, s.1);
    h1 := ScaleFirst(h1);
    assert h1 == First(X64(), s, k.0) by {
      assert k1 == MixFirst(k.0);
    }
    var k2 := TimesH(k.1);
    k2 := Turn33(k2);
    k2 := TimesG(k2);
    var h2 := Xor64(s.1, k2);
    h2 := Turn31(h2);
    h2 := Add64(h2, h1);
    h2 := ScaleSecond(h2);
    assert h2 == Second(X64(), s.1, h1, k.1) by {
      assert k2 == MixSecond(k.1);
    }
    t := (h1, h2);
  }

  method End64(s: (bv64, bv64), tail: Bytes, len: bv64) returns (out: (bv64, bv64))
    ensures out == PairFinish(X64(), Word64, len)(s, tail)
  {
    var h1, h2 := s.0, s.1;
    if |tail| > 8 {
      var k2 := TimesH(Word64(tail[8..]));
      k2 := Turn33(k2);
      k2 := TimesG(k2);
      h2 := Xor64(h2, k2);
    }
    assert h2 == Enter(Xor64, MixSecond, Word64, s.1, Rest(tail, 8));
    if |tail| > 0 {
      var k1 := TimesG(Word64(Front(tail, 8)));
      k1 := Turn31(k1);
      k1 := TimesH(k1);
      h1 := Xor64(h1, k1);
    }
    assert h1 == Enter(Xor64, MixFirst, Word64, s.0, Front(tail, 8));
    out := Mixed64(h1, h2, len);
  }

  method Mixed64(a: bv64, b: bv64, len: bv64) returns (out: (bv64, bv64))
    ensures out == PairMix(X64(), (a, b), len)
  {
    var h1, h2 := Xor64(a, len), Xor64(b, len);
    h1 := Add64(h1, h2);
    h2 := Add64(h2, h1);
    h1 := Fmix64(h1);
    h2 := Fmix64(h2);
    h1 := Add64(h1, h2);
    h2 := Add64(h2, h1);
    out := (h1, h2);
  }

  type Pair = (bv64, bv64)

  ghost function Next64(s: Pair, b: Bytes): Pair {
    PairRound(X64())(s, WordPair(b))
  }

  /** `round` and `word` are those of the hash. */
  ghost predicate Of64(round: (Pair, Pair) -> Pair, word: Bytes -> Pair) {
    forall s, b {:trigger Next64(s, b)} :: round(s, word(b)) == Next64(s, b)
  }

  method Turn64(s: Pair, b: Bytes, ghost round: (Pair, Pair) -> Pair, ghost word: Bytes -> Pair) returns (t: Pair)
    requires Of64(round, word)
    ensures t == round(s, word(b))
  {
    assert round(s, word(b)) == Next64(s, b);
    t := Step64(s, WordPair(b));
  }

  /** The loop over the blocks. */
  method Loop64(key: Bytes, seed: Pair, ghost round: (Pair, Pair) -> Pair, ghost word: Bytes -> Pair)
    returns (s: Pair, tail: Bytes)
    requires Of64(round, word)
    ensures s == Absorb(round, seed, Words(word, Blocks(key, 16))) && tail == Tail(key, 16)
  {
    ghost var goal := Absorb(round, seed, Words(word, Blocks(key, 16)));
    var nblocks := |key| / 16;
    var i := 0;
    s := seed;
    while i < nblocks
      invariant 0 <= i <= nblocks
      invariant goal == Absorb(round, s, Words(word, Blocks(key[16 * i..], 16))) && Tail(key, 16) == Tail(key[16 * i..], 16)
    {
      NextBlock(round, s, word, key, 16, 16 * i);
      s := Turn64(s, key[16 * i..16 * i + 16], round, word);
      i := i + 1;
    }
    tail := key[16 * nblocks..];
  }

  /** murmurhash3_x64_128 */
  method X64_128(key: Bytes, seed: bv32) returns (out: (bv64, bv64))
    requires |key| < 0x8000_0000
    ensures out == Hash128(key, seed)
  {
    var s, tail := Loop64(key, (seed as bv64, seed as bv64), PairRound(X64()), WordPair);
    out := End64(s, tail, |key| as bv64);
  }
}
