/** `cobalt.vortex.function`: infix composition `then`, the fixed-arity
    `pipe` overloads, and the `componentN` projections that let tuples be
    destructured. */
module FunctionExtensions {
  import opened Kotlin
  import opened Reactor

  // ---------------- then ----------------

  /** `f then g`: the function that applies `f` and then `g`. */
  function Then<A, B, C>(f: A -> B, g: B -> C): (r: A -> C) {
    x => g(f(x))
  }

  /** The identity function, the unit of `then`. */
  function Identity<A>(): (r: A -> A) { x => x }

  /** Composition applies the left operand first. */
  lemma ThenAppliesLeftFirst<A, B, C>(f: A -> B, g: B -> C, x: A)
    ensures Then(f, g)(x) == g(f(x))
  {
  }

  /** `then` is associative, pointwise. */
  lemma ThenAssociative<A, B, C, D>(f: A -> B, g: B -> C, h: C -> D, x: A)
    ensures Then(Then(f, g), h)(x) == Then(f, Then(g, h))(x)
    ensures Then(Then(f, g), h)(x) == h(g(f(x)))
  {
  }

  /** The identity is a left and a right unit of `then`, pointwise. */
  lemma ThenIdentity<A, B>(f: A -> B, x: A)
    ensures Then(Identity(), f)(x) == f(x)
    ensures Then(f, Identity())(x) == f(x)
  {
  }

  // ---------------- pipe: the overloads as written ----------------
  // One overload per arity 0..6 and 9..12; there are none taking seven or
  // eight functions.

  function Pipe0<R>(a: R): (r: R) { a }
  function Pipe1<T1, R>(
    a: T1, f1: T1 -> R): (r: R)
  {
    f1(a)
  }
  function Pipe2<T1, T2, R>(
    a: T1, f1: T1 -> T2, f2: T2 -> R): (r: R)
  {
    f2(f1(a))
  }
  function Pipe3<T1, T2, T3, R>(
    a: T1, f1: T1 -> T2, f2: T2 -> T3, f3: T3 -> R): (r: R)
  {
    f3(f2(f1(a)))
  }
  function Pipe4<T1, T2, T3, T4, R>(
    a: T1, f1: T1 -> T2, f2: T2 -> T3, f3: T3 -> T4, f4: T4 -> R): (r: R)
  {
    f4(f3(f2(f1(a))))
  }
  function Pipe5<T1, T2, T3, T4, T5, R>(
    a: T1, f1: T1 -> T2, f2: T2 -> T3, f3: T3 -> T4, f4: T4 -> T5, f5: T5 -> R): (r: R)
  {
    f5(f4(f3(f2(f1(a)))))
  }
  function Pipe6<T1, T2, T3, T4, T5, T6, R>(
    a: T1, f1: T1 -> T2, f2: T2 -> T3, f3: T3 -> T4, f4: T4 -> T5, f5: T5 -> T6, f6: T6 -> R): (r: R)
  {
    f6(f5(f4(f3(f2(f1(a))))))
  }
  function Pipe9<T1, T2, T3, T4, T5, T6, T7, T8, T9, R>(
    a: T1, f1: T1 -> T2, f2: T2 -> T3, f3: T3 -> T4, f4: T4 -> T5, f5: T5 -> T6, f6: T6 -> T7, f7: T7 -> T8, f8: T8 -> T9, f9: T9 -> R): (r: R)
  {
    f9(f8(f7(f6(f5(f4(f3(f2(f1(a)))))))))
  }
  function Pipe10<T1, T2, T3, T4, T5, T6, T7, T8, T9, T10, R>(
    a: T1, f1: T1 -> T2, f2: T2 -> T3, f3: T3 -> T4, f4: T4 -> T5, f5: T5 -> T6, f6: T6 -> T7, f7: T7 -> T8, f8: T8 -> T9, f9: T9 -> T10, f10: T10 -> R): (r: R)
  {
    f10(f9(f8(f7(f6(f5(f4(f3(f2(f1(a))))))))))
  }
  function Pipe11<T1, T2, T3, T4, T5, T6, T7, T8, T9, T10, T11, R>(
    a: T1, f1: T1 -> T2, f2: T2 -> T3, f3: T3 -> T4, f4: T4 -> T5, f5: T5 -> T6, f6: T6 -> T7, f7: T7 -> T8, f8: T8 -> T9, f9: T9 -> T10, f10: T10 -> T11, f11: T11 -> R): (r: R)
  {
    f11(f10(f9(f8(f7(f6(f5(f4(f3(f2(f1(a)))))))))))
  }
  function Pipe12<T1, T2, T3, T4, T5, T6, T7, T8, T9, T10, T11, T12, R>(
    a: T1, f1: T1 -> T2, f2: T2 -> T3, f3: T3 -> T4, f4: T4 -> T5, f5: T5 -> T6, f6: T6 -> T7, f7: T7 -> T8, f8: T8 -> T9, f9: T9 -> T10, f10: T10 -> T11, f11: T11 -> T12, f12: T12 -> R): (r: R)
  {
    f12(f11(f10(f9(f8(f7(f6(f5(f4(f3(f2(f1(a))))))))))))
  }

  /** Each overload applies one more function, last, to the result of the
      overload with one function fewer; the nine-function overload extends
      the six-function one by three applications. */
  lemma PipeArityStep<T1, T2, T3, T4, T5, T6, T7, T8, T9, T10, T11, T12, R>(
    a: T1, f1: T1 -> T2, f2: T2 -> T3, f3: T3 -> T4, f4: T4 -> T5, f5: T5 -> T6,
    f6: T6 -> T7, f7: T7 -> T8, f8: T8 -> T9, f9: T9 -> T10, f10: T10 -> T11,
    f11: T11 -> T12, f12: T12 -> R)
    ensures Pipe0(a) == a
    ensures Pipe1(a, f1) == f1(Pipe0(a))
    ensures Pipe2(a, f1, f2) == f2(Pipe1(a, f1))
    ensures Pipe3(a, f1, f2, f3) == f3(Pipe2(a, f1, f2))
    ensures Pipe4(a, f1, f2, f3, f4) == f4(Pipe3(a, f1, f2, f3))
    ensures Pipe5(a, f1, f2, f3, f4, f5) == f5(Pipe4(a, f1, f2, f3, f4))
    ensures Pipe6(a, f1, f2, f3, f4, f5, f6) == f6(Pipe5(a, f1, f2, f3, f4, f5))
    ensures Pipe9(a, f1, f2, f3, f4, f5, f6, f7, f8, f9) == f9(f8(f7(Pipe6(a, f1, f2, f3, f4, f5, f6))))
    ensures Pipe10(a, f1, f2, f3, f4, f5, f6, f7, f8, f9, f10)
         == f10(Pipe9(a, f1, f2, f3, f4, f5, f6, f7, f8, f9))
    ensures Pipe11(a, f1, f2, f3, f4, f5, f6, f7, f8, f9, f10, f11)
         == f11(Pipe10(a, f1, f2, f3, f4, f5, f6, f7, f8, f9, f10))
    ensures Pipe12(a, f1, f2, f3, f4, f5, f6, f7, f8, f9, f10, f11, f12)
         == f12(Pipe11(a, f1, f2, f3, f4, f5, f6, f7, f8, f9, f10, f11))
  {
  }

  /** Piping through two functions is piping through their composition, as
      in `pipe(x, inc then intToString)`. */
  lemma PipeTwoIsThen<A, B, C>(a: A, f: A -> B, g: B -> C)
    ensures Pipe2(a, f, g) == Pipe1(a, Then(f, g))
  {
  }

  // ---------------- pipe over a chain of any length ----------------

  /** Applies the functions of `fs` to `a`, strictly from the first to the last. */
  function PipeSeq<T>(a: T, fs: seq<T -> T>): (r: T)
    decreases |fs|
  {
    if |fs| == 0 then a else PipeSeq(fs[0](a), fs[1..])
  }

  /** The whole chain folded into a single function with `then`. */
  function ComposeAll<T>(fs: seq<T -> T>): (r: T -> T)
    decreases |fs|
  {
    if |fs| == 0 then Identity() else Then(fs[0], ComposeAll(fs[1..]))
  }

  /** Piping through a concatenation pipes through the first part, then
      through the second. */
  lemma {:induction false} PipeSeqAppend<T>(a: T, fs: seq<T -> T>, gs: seq<T -> T>)
    ensures PipeSeq(a, fs + gs) == PipeSeq(PipeSeq(a, fs), gs)
    decreases |fs|
  {
    if |fs| == 0 {
      assert fs + gs == gs;
    } else {
      assert (fs + gs)[1..] == fs[1..] + gs;
      PipeSeqAppend(fs[0](a), fs[1..], gs);
    }
  }

  /** Adding one function at the end applies it to the previous result. */
  lemma PipeSeqSnoc<T>(a: T, fs: seq<T -> T>, f: T -> T)
    ensures PipeSeq(a, fs + [f]) == f(PipeSeq(a, fs))
  {
    PipeSeqAppend(a, fs, [f]);
  }

  /** The prefix of length k + 1 extends the prefix of length k by `fs[k]`. */
  lemma PipeSeqPrefixStep<T>(a: T, fs: seq<T -> T>, k: nat)
    requires k < |fs|
    ensures PipeSeq(a, fs[..k + 1]) == fs[k](PipeSeq(a, fs[..k]))
  {
    assert fs[..k + 1] == fs[..k] + [fs[k]];
    PipeSeqSnoc(a, fs[..k], fs[k]);
  }

  /** Folding the chain with `then` and applying the result is piping. */
  lemma {:induction false} ComposeAllIsPipeSeq<T>(a: T, fs: seq<T -> T>)
    ensures ComposeAll(fs)(a) == PipeSeq(a, fs)
    decreases |fs|
  {
    if |fs| > 0 {
      ComposeAllIsPipeSeq(fs[0](a), fs[1..]);
    }
  }

  /** Fusing two adjacent stages with `then` never changes the result. */
  lemma PipeSeqFuseThen<T>(a: T, fs: seq<T -> T>, f: T -> T, g: T -> T, gs: seq<T -> T>)
    ensures PipeSeq(a, fs + [f, g] + gs) == PipeSeq(a, fs + [Then(f, g)] + gs)
  {
    PipeSeqAppend(a, fs + [f, g], gs);
    PipeSeqAppend(a, fs + [Then(f, g)], gs);
    PipeSeqAppend(a, fs, [f, g]);
    PipeSeqAppend(a, fs, [Then(f, g)]);
    var x := PipeSeq(a, fs);
    assert PipeSeq(x, [f, g]) == PipeSeq(g(f(x)), []) by { assert [f, g][1..][1..] == []; }
    assert PipeSeq(x, [Then(f, g)]) == PipeSeq(g(f(x)), []);
  }

  /** Every overload agrees with `PipeSeq` on the prefix of the same length
      of a homogeneous chain of twelve functions. */
  lemma PipeOverloadsAgreeWithPipeSeq<T>(a: T, fs: seq<T -> T>)
    requires |fs| == 12
    ensures Pipe0(a) == PipeSeq(a, fs[..0])
    ensures Pipe1(a, fs[0]) == PipeSeq(a, fs[..1])
    ensures Pipe2(a, fs[0], fs[1]) == PipeSeq(a, fs[..2])
    ensures Pipe3(a, fs[0], fs[1], fs[2]) == PipeSeq(a, fs[..3])
    ensures Pipe4(a, fs[0], fs[1], fs[2], fs[3]) == PipeSeq(a, fs[..4])
    ensures Pipe5(a, fs[0], fs[1], fs[2], fs[3], fs[4]) == PipeSeq(a, fs[..5])
    ensures Pipe6(a, fs[0], fs[1], fs[2], fs[3], fs[4], fs[5]) == PipeSeq(a, fs[..6])
    ensures Pipe9(a, fs[0], fs[1], fs[2], fs[3], fs[4], fs[5], fs[6], fs[7], fs[8]) == PipeSeq(a, fs[..9])
    ensures Pipe10(a, fs[0], fs[1], fs[2], fs[3], fs[4], fs[5], fs[6], fs[7], fs[8], fs[9]) == PipeSeq(a, fs[..10])
    ensures Pipe11(a, fs[0], fs[1], fs[2], fs[3], fs[4], fs[5], fs[6], fs[7], fs[8], fs[9], fs[10]) == PipeSeq(a, fs[..11])
    ensures Pipe12(a, fs[0], fs[1], fs[2], fs[3], fs[4], fs[5], fs[6], fs[7], fs[8], fs[9], fs[10], fs[11]) == PipeSeq(a, fs[..12])
  {
    PipeSeqPrefixStep(a, fs, 0);
    PipeSeqPrefixStep(a, fs, 1);
    PipeSeqPrefixStep(a, fs, 2);
    PipeSeqPrefixStep(a, fs, 3);
    PipeSeqPrefixStep(a, fs, 4);
    PipeSeqPrefixStep(a, fs, 5);
    PipeSeqPrefixStep(a, fs, 6);
    PipeSeqPrefixStep(a, fs, 7);
    PipeSeqPrefixStep(a, fs, 8);
    PipeSeqPrefixStep(a, fs, 9);
    PipeSeqPrefixStep(a, fs, 10);
    PipeSeqPrefixStep(a, fs, 11);
  }

  // ---------------- componentN ----------------
  // Kotlin destructuring declarations `val (x, y) = t` call these.

  /** `Tuple2.component1()`. */
  function Tuple2Component1<T1, T2>(t: Tuple2<T1, T2>): (r: T1) { t.t1 }

  /** `Tuple2.component2()`. */
  function Tuple2Component2<T1, T2>(t: Tuple2<T1, T2>): (r: T2) { t.t2 }

  /** `Tuple3.component3()`. */
  function Tuple3Component3<T1, T2, T3>(t: Tuple3<T1, T2, T3>): (r: T3) { t.t3 }

  /** `Tuple4.component4()`. */
  function Tuple4Component4<T1, T2, T3, T4>(t: Tuple4<T1, T2, T3, T4>): (r: T4) { t.t4 }

  /** `Tuple5.component5()`. */
  function Tuple5Component5<T1, T2, T3, T4, T5>(t: Tuple5<T1, T2, T3, T4, T5>): (r: T5) { t.t5 }

  /** `Tuple6.component6()`. */
  function Tuple6Component6<T1, T2, T3, T4, T5, T6>(t: Tuple6<T1, T2, T3, T4, T5, T6>): (r: T6) { t.t6 }

  /** `Tuple7.component7()`. */
  function Tuple7Component7<T1, T2, T3, T4, T5, T6, T7>(t: Tuple7<T1, T2, T3, T4, T5, T6, T7>): (r: T7) { t.t7 }

  /** `Tuple8.component8()`. */
  function Tuple8Component8<T1, T2, T3, T4, T5, T6, T7, T8>(t: Tuple8<T1, T2, T3, T4, T5, T6, T7, T8>): (r: T8) { t.t8 }

  /** `Pair.component1()` and `Pair.component2()`. */
  function PairComponent1<A, B>(p: Pair<A, B>): (r: A) { p.first }
  function PairComponent2<A, B>(p: Pair<A, B>): (r: B) { p.second }

  /** `Triple.component1()` .. `Triple.component3()`. */
  function TripleComponent1<A, B, C>(t: Triple<A, B, C>): (r: A) { t.first }
  function TripleComponent2<A, B, C>(t: Triple<A, B, C>): (r: B) { t.second }
  function TripleComponent3<A, B, C>(t: Triple<A, B, C>): (r: C) { t.third }

  /** Each projection returns the argument given in that position when the
      tuple was built. */
  lemma ComponentsReturnConstructorArguments<T1, T2, T3, T4, T5, T6, T7, T8>(
    x1: T1, x2: T2, x3: T3, x4: T4, x5: T5, x6: T6, x7: T7, x8: T8)
    ensures Tuple2Component1(Tuple2(x1, x2)) == x1
    ensures Tuple2Component2(Tuple2(x1, x2)) == x2
    ensures Tuple3Component3(Tuple3(x1, x2, x3)) == x3
    ensures Tuple4Component4(Tuple4(x1, x2, x3, x4)) == x4
    ensures Tuple5Component5(Tuple5(x1, x2, x3, x4, x5)) == x5
    ensures Tuple6Component6(Tuple6(x1, x2, x3, x4, x5, x6)) == x6
    ensures Tuple7Component7(Tuple7(x1, x2, x3, x4, x5, x6, x7)) == x7
    ensures Tuple8Component8(Tuple8(x1, x2, x3, x4, x5, x6, x7, x8)) == x8
    ensures PairComponent1(Pair(x1, x2)) == x1 && PairComponent2(Pair(x1, x2)) == x2
    ensures TripleComponent1(Triple(x1, x2, x3)) == x1
    ensures TripleComponent2(Triple(x1, x2, x3)) == x2
    ensures TripleComponent3(Triple(x1, x2, x3)) == x3
  {
  }

  /** Destructuring loses nothing: rebuilding from the components gives the
      same pair, triple or two-tuple back. */
  lemma DestructuringRebuilds<A, B, C>(t: Tuple2<A, B>, p: Pair<A, B>, q: Triple<A, B, C>)
    ensures Tuple2(Tuple2Component1(t), Tuple2Component2(t)) == t
    ensures Pair(PairComponent1(p), PairComponent2(p)) == p
    ensures Triple(TripleComponent1(q), TripleComponent2(q), TripleComponent3(q)) == q
  {
  }
}
