/** `cobalt.vortex.reactor.publisher.FluxExt`: the helpers over a Flux whose
    decision logic is written in the repository, each as the receiver form
    (`p.any(f)`) and, where the source has one, the curried form
    (`any(f)(p)`) that composes with `pipe`. */
module FluxExt {
  import opened Kotlin
  import opened Reactor
  import opened EitherType
  import F = FunctionExtensions

  // ---------------- switchIf ----------------

  /** `p.switchIf(a, f)`: each value becomes `Right(a)` when it satisfies `f`
      and stays, as `Left`, otherwise; length and order are kept. */
  function SwitchIf<L, R>(p: Flux<L>, a: R, f: L -> bool): (r: Flux<Either<L, R>>)
    ensures |r.items| == |p.items|
    ensures forall i :: 0 <= i < |p.items| ==>
              if f(p.items[i]) then r.items[i].Right? && r.items[i].right == a
              else r.items[i].Left? && r.items[i].left == p.items[i]
  {
    p.Map((x: L) => if f(x) then Right(a) else Left(x))
  }

  /** `switchIf(a)(f)(p)`. */
  function SwitchIfCurried<L, R>(a: R): (r: (L -> bool) -> Flux<L> -> Flux<Either<L, R>>) {
    f => p => SwitchIf(p, a, f)
  }

  /** With no value satisfying `f`, the stream is only relabelled as `Left`. */
  lemma SwitchIfWithoutMatchKeepsValues<L, R>(p: Flux<L>, a: R, f: L -> bool)
    requires forall i :: 0 <= i < |p.items| ==> !f(p.items[i])
    ensures var r := SwitchIf(p, a, f);
      forall i :: 0 <= i < |r.items| ==> r.items[i].Left? && r.items[i].left == p.items[i]
  {
  }

  // ---------------- any / all ----------------

  /** `p.any(f)`: whether the filtered count is positive, i.e. some value
      satisfies `f`; false on an empty stream. */
  function Any<T>(p: Flux<T>, f: T -> bool): (r: Mono<bool>)
    ensures r.Value?
    ensures r.value <==> exists i :: 0 <= i < |p.items| && f(p.items[i])
    ensures |p.items| == 0 ==> !r.value
  {
    FilterNonEmptyIff(p.items, f);
    p.Filter(f).Count().Map((n: int) => n > 0)
  }

  /** `any(f)(p)`. */
  function AnyCurried<T>(f: T -> bool): (r: Flux<T> -> Mono<bool>) {
    p => Any(p, f)
  }

  /** `p.all(f)`: whether the count equals the filtered count, i.e. every
      value satisfies `f`; vacuously true on an empty stream. */
  function All<T>(p: Flux<T>, f: T -> bool): (r: Mono<bool>)
    ensures r.Value?
    ensures r.value <==> forall i :: 0 <= i < |p.items| ==> f(p.items[i])
    ensures |p.items| == 0 ==> r.value
  {
    FilterFullIff(p.items, f);
    Zip(p.Count(), p.Filter(f).Count()).Map((t: Tuple2<int, int>) => t.t1 == t.t2)
  }

  /** `all(f)(p)`. */
  function AllCurried<T>(f: T -> bool): (r: Flux<T> -> Mono<bool>) {
    p => All(p, f)
  }

  /** `all` and `any` are dual: every value satisfies `f` exactly when no
      value satisfies its negation. */
  lemma AllIsNotAnyNot<T>(p: Flux<T>, f: T -> bool)
    ensures All(p, f).value == !Any(p, Not(f)).value
  {
    var _ := All(p, f);
    var _ := Any(p, Not(f));
    assert forall x :: Not(f)(x) == !f(x);
  }

  // ---------------- findFirst ----------------

  /** `p.findFirst(f)` as written: `filter(f).singleOrEmpty()`. Empty when no
      value matches, the match when exactly one does, and the
      IndexOutOfBoundsException signal when two or more do. */
  function FindFirst<T>(p: Flux<T>, f: T -> bool): (r: Mono<T>)
    ensures r.Empty? <==> forall i :: 0 <= i < |p.items| ==> !f(p.items[i])
    ensures r.Error? <==> exists i, j :: 0 <= i < j < |p.items| && f(p.items[i]) && f(p.items[j])
    ensures r.Error? ==> r.error == SourceEmittedMoreThanOneItem
    ensures r.Value? ==> exists i :: 0 <= i < |p.items| && p.items[i] == r.value && f(r.value)
                                     && forall j :: 0 <= j < |p.items| && j != i ==> !f(p.items[j])
  {
    var s := p.items;
    FilterNonEmptyIff(s, f);
    FilterAtLeastTwoIff(s, f);
    FilterSingle(s, f);
    p.Filter(f).SingleOrEmpty()
  }

  /** `findFirst(f)(p)`. */
  function FindFirstCurried<T>(f: T -> bool): (r: Flux<T> -> Mono<T>) {
    p => FindFirst(p, f)
  }

  /** `findFirst(value)(p)` as written: `filter { it == value }.singleOrEmpty()`.
      Empty when `value` does not occur, `value` when it occurs once, and the
      IndexOutOfBoundsException signal when it occurs more often. */
  function FindFirstValue<T(==)>(p: Flux<T>, value: T): (r: Mono<T>)
    ensures r.Empty? <==> value !in p.items
    ensures r.Value? <==> multiset(p.items)[value] == 1
    ensures r.Value? ==> r.value == value
    ensures r.Error? <==> multiset(p.items)[value] >= 2
    ensures r.Error? ==> r.error == SourceEmittedMoreThanOneItem
  {
    FilterEqualToCount(p.items, value);
    var matches := FilterSeq(p.items, EqualTo(value));
    assert |matches| > 0 ==> matches[0] in matches && EqualTo(value)(matches[0]);
    p.Filter(EqualTo(value)).SingleOrEmpty()
  }

  /** `findFirst(value)` as the curried stage. */
  function FindFirstValueCurried<T(==)>(value: T): (r: Flux<T> -> Mono<T>) {
    p => FindFirstValue(p, value)
  }

  /** The stage named findFirst as it was evidently meant: the first matching
      value, `filter(f).next()`. Empty exactly when nothing matches; never an
      error. */
  function FindFirstCorrected<T>(p: Flux<T>, f: T -> bool): (r: Mono<T>)
    ensures !r.Error?
    ensures r.Empty? <==> forall i :: 0 <= i < |p.items| ==> !f(p.items[i])
    ensures r.Value? ==> exists i :: 0 <= i < |p.items| && p.items[i] == r.value && f(r.value)
                                     && forall j :: 0 <= j < i ==> !f(p.items[j])
  {
    FilterNonEmptyIff(p.items, f);
    FilterFirst(p.items, f);
    p.Filter(f).Next()
  }

  /** Where the two versions part: with a value matched twice, the stage as
      written signals an error while the corrected one returns the match. */
  lemma FindFirstRejectsRepeatedMatch()
    ensures FindFirstValue(Flux([1, 1]), 1).Error?
    ensures FindFirstCorrected(Flux([1, 1]), EqualTo(1)) == Value(1)
  {
  }

  /** Whenever at most one value matches, the two versions agree. */
  lemma FindFirstAgreesWhenMatchIsUnique<T>(p: Flux<T>, f: T -> bool)
    requires !exists i, j :: 0 <= i < j < |p.items| && f(p.items[i]) && f(p.items[j])
    ensures FindFirst(p, f) == FindFirstCorrected(p, f)
  {
    FilterAtLeastTwoIff(p.items, f);
  }

  // ---------------- mapTo ----------------

  /** `p.mapTo(value)`: as many values as `p` emits, each one `value`. */
  function MapTo<T, R>(p: Flux<T>, value: R): (r: Flux<R>)
    ensures |r.items| == |p.items|
    ensures forall i :: 0 <= i < |r.items| ==> r.items[i] == value
  {
    p.Map((_: T) => value)
  }

  /** `mapTo(value)(p)`: the curried form keeps the element type. */
  function MapToCurried<T>(value: T): (r: Flux<T> -> Flux<T>) {
    p => MapTo(p, value)
  }

  /** Mapping to a constant twice keeps only the second constant. */
  lemma MapToTwice<T, R, S>(p: Flux<T>, a: R, b: S)
    ensures MapTo(MapTo(p, a), b) == MapTo(p, b)
  {
  }

  // ---------------- partition ----------------

  /** `partition(f)(p)`: `zip(p.filter(f), p.filter { !f(it) })`. The i-th pair
      holds the i-th value satisfying `f` and the i-th value not satisfying
      it; the zip stops at the shorter side, so the length is the smaller of
      the two counts. */
  function Partition<T>(p: Flux<T>, f: T -> bool): (r: Flux<Tuple2<T, T>>)
    ensures var c := |FilterSeq(p.items, f)|;
      |r.items| == if c <= |p.items| - c then c else |p.items| - c
    ensures |r.items| <= |FilterSeq(p.items, f)| && |r.items| <= |FilterSeq(p.items, Not(f))|
    ensures forall i :: 0 <= i < |r.items| ==> f(r.items[i].t1) && !f(r.items[i].t2)
    ensures forall i :: 0 <= i < |r.items| ==>
              r.items[i].t1 == FilterSeq(p.items, f)[i] && r.items[i].t2 == FilterSeq(p.items, Not(f))[i]
  {
    FilterSplits(p.items, f);
    var r := FluxZip(p.Filter(f), p.Filter(Not(f)));
    assert forall i :: 0 <= i < |r.items| ==> r.items[i].t2 in FilterSeq(p.items, Not(f));
    r
  }

  /** `partition(f)` as the curried stage. */
  function PartitionCurried<T>(f: T -> bool): (r: Flux<T> -> Flux<Tuple2<T, T>>) {
    p => Partition(p, f)
  }

  /** When as many values satisfy `f` as do not, no value is lost: the pairs
      hold exactly the values of `p`. */
  lemma PartitionBalancedKeepsEverything<T>(p: Flux<T>, f: T -> bool)
    requires 2 * |FilterSeq(p.items, f)| == |p.items|
    ensures var r := Partition(p, f);
      multiset(seq(|r.items|, i requires 0 <= i < |r.items| => r.items[i].t1))
      + multiset(seq(|r.items|, i requires 0 <= i < |r.items| => r.items[i].t2))
      == multiset(p.items)
  {
    FilterSplits(p.items, f);
    var r := Partition(p, f);
    var firsts := seq(|r.items|, i requires 0 <= i < |r.items| => r.items[i].t1);
    var seconds := seq(|r.items|, i requires 0 <= i < |r.items| => r.items[i].t2);
    assert firsts == FilterSeq(p.items, f);
    assert seconds == FilterSeq(p.items, Not(f));
  }

  /** The curried forms are the receiver forms with their arguments reordered. */
  lemma CurriedFormsAgree<T, R>(p: Flux<T>, a: R, f: T -> bool, value: T)
    ensures SwitchIfCurried(a)(f)(p) == SwitchIf(p, a, f)
    ensures AnyCurried(f)(p) == Any(p, f)
    ensures AllCurried(f)(p) == All(p, f)
    ensures FindFirstCurried(f)(p) == FindFirst(p, f)
    ensures MapToCurried(value)(p) == MapTo(p, value)
    ensures PartitionCurried(f)(p) == Partition(p, f)
  {
  }

  /** `map(f)(p)`: a pass-through to `Flux.map`, used by the scenarios. */
  function MapCurried<T, R>(f: T -> R): (r: Flux<T> -> Flux<R>) {
    (p: Flux<T>) => p.Map(f)
  }

  // ---------------- receiver pipe: `p.pipe(f1, .., fk)` for k = 1..12 ----------------

  function Pipe1<T1, R>(
    p: Flux<T1>, f1: Flux<T1> -> R): (r: R)
  {
    f1(p)
  }
  function Pipe2<T1, T2, R>(
    p: Flux<T1>, f1: Flux<T1> -> T2, f2: T2 -> R): (r: R)
  {
    f2(f1(p))
  }
  function Pipe3<T1, T2, T3, R>(
    p: Flux<T1>, f1: Flux<T1> -> T2, f2: T2 -> T3, f3: T3 -> R): (r: R)
  {
    f3(f2(f1(p)))
  }
  function Pipe4<T1, T2, T3, T4, R>(
    p: Flux<T1>, f1: Flux<T1> -> T2, f2: T2 -> T3, f3: T3 -> T4, f4: T4 -> R): (r: R)
  {
    f4(f3(f2(f1(p))))
  }
  function Pipe5<T1, T2, T3, T4, T5, R>(
    p: Flux<T1>, f1: Flux<T1> -> T2, f2: T2 -> T3, f3: T3 -> T4, f4: T4 -> T5, f5: T5 -> R): (r: R)
  {
    f5(f4(f3(f2(f1(p)))))
  }
  function Pipe6<T1, T2, T3, T4, T5, T6, R>(
    p: Flux<T1>, f1: Flux<T1> -> T2, f2: T2 -> T3, f3: T3 -> T4, f4: T4 -> T5, f5: T5 -> T6, f6: T6 -> R): (r: R)
  {
    f6(f5(f4(f3(f2(f1(p))))))
  }
  function Pipe7<T1, T2, T3, T4, T5, T6, T7, R>(
    p: Flux<T1>, f1: Flux<T1> -> T2, f2: T2 -> T3, f3: T3 -> T4, f4: T4 -> T5, f5: T5 -> T6, f6: T6 -> T7, f7: T7 -> R): (r: R)
  {
    f7(f6(f5(f4(f3(f2(f1(p)))))))
  }
  function Pipe8<T1, T2, T3, T4, T5, T6, T7, T8, R>(
    p: Flux<T1>, f1: Flux<T1> -> T2, f2: T2 -> T3, f3: T3 -> T4, f4: T4 -> T5, f5: T5 -> T6, f6: T6 -> T7, f7: T7 -> T8, f8: T8 -> R): (r: R)
  {
    f8(f7(f6(f5(f4(f3(f2(f1(p))))))))
  }
  function Pipe9<T1, T2, T3, T4, T5, T6, T7, T8, T9, R>(
    p: Flux<T1>, f1: Flux<T1> -> T2, f2: T2 -> T3, f3: T3 -> T4, f4: T4 -> T5, f5: T5 -> T6, f6: T6 -> T7, f7: T7 -> T8, f8: T8 -> T9, f9: T9 -> R): (r: R)
  {
    f9(f8(f7(f6(f5(f4(f3(f2(f1(p)))))))))
  }
  function Pipe10<T1, T2, T3, T4, T5, T6, T7, T8, T9, T10, R>(
    p: Flux<T1>, f1: Flux<T1> -> T2, f2: T2 -> T3, f3: T3 -> T4, f4: T4 -> T5, f5: T5 -> T6, f6: T6 -> T7, f7: T7 -> T8, f8: T8 -> T9, f9: T9 -> T10, f10: T10 -> R): (r: R)
  {
    f10(f9(f8(f7(f6(f5(f4(f3(f2(f1(p))))))))))
  }
  function Pipe11<T1, T2, T3, T4, T5, T6, T7, T8, T9, T10, T11, R>(
    p: Flux<T1>, f1: Flux<T1> -> T2, f2: T2 -> T3, f3: T3 -> T4, f4: T4 -> T5, f5: T5 -> T6, f6: T6 -> T7, f7: T7 -> T8, f8: T8 -> T9, f9: T9 -> T10, f10: T10 -> T11, f11: T11 -> R): (r: R)
  {
    f11(f10(f9(f8(f7(f6(f5(f4(f3(f2(f1(p)))))))))))
  }
  function Pipe12<T1, T2, T3, T4, T5, T6, T7, T8, T9, T10, T11, T12, R>(
    p: Flux<T1>, f1: Flux<T1> -> T2, f2: T2 -> T3, f3: T3 -> T4, f4: T4 -> T5, f5: T5 -> T6, f6: T6 -> T7, f7: T7 -> T8, f8: T8 -> T9, f9: T9 -> T10, f10: T10 -> T11, f11: T11 -> T12, f12: T12 -> R): (r: R)
  {
    f12(f11(f10(f9(f8(f7(f6(f5(f4(f3(f2(f1(p))))))))))))
  }

  /** On a homogeneous chain of twelve stages, every receiver overload agrees
      with `PipeSeq` on the prefix of the same length. */
  lemma ReceiverPipesAgreeWithPipeSeq<T>(p: Flux<T>, fs: seq<Flux<T> -> Flux<T>>)
    requires |fs| == 12
    ensures Pipe1(p, fs[0]) == F.PipeSeq(p, fs[..1])
    ensures Pipe2(p, fs[0], fs[1]) == F.PipeSeq(p, fs[..2])
    ensures Pipe3(p, fs[0], fs[1], fs[2]) == F.PipeSeq(p, fs[..3])
    ensures Pipe4(p, fs[0], fs[1], fs[2], fs[3]) == F.PipeSeq(p, fs[..4])
    ensures Pipe5(p, fs[0], fs[1], fs[2], fs[3], fs[4]) == F.PipeSeq(p, fs[..5])
    ensures Pipe6(p, fs[0], fs[1], fs[2], fs[3], fs[4], fs[5]) == F.PipeSeq(p, fs[..6])
    ensures Pipe7(p, fs[0], fs[1], fs[2], fs[3], fs[4], fs[5], fs[6]) == F.PipeSeq(p, fs[..7])
    ensures Pipe8(p, fs[0], fs[1], fs[2], fs[3], fs[4], fs[5], fs[6], fs[7]) == F.PipeSeq(p, fs[..8])
    ensures Pipe9(p, fs[0], fs[1], fs[2], fs[3], fs[4], fs[5], fs[6], fs[7], fs[8]) == F.PipeSeq(p, fs[..9])
    ensures Pipe10(p, fs[0], fs[1], fs[2], fs[3], fs[4], fs[5], fs[6], fs[7], fs[8], fs[9]) == F.PipeSeq(p, fs[..10])
    ensures Pipe11(p, fs[0], fs[1], fs[2], fs[3], fs[4], fs[5], fs[6], fs[7], fs[8], fs[9], fs[10]) == F.PipeSeq(p, fs[..11])
    ensures Pipe12(p, fs[0], fs[1], fs[2], fs[3], fs[4], fs[5], fs[6], fs[7], fs[8], fs[9], fs[10], fs[11]) == F.PipeSeq(p, fs[..12])
  {
    F.PipeSeqPrefixStep(p, fs, 0);
    F.PipeSeqPrefixStep(p, fs, 1);
    F.PipeSeqPrefixStep(p, fs, 2);
    F.PipeSeqPrefixStep(p, fs, 3);
    F.PipeSeqPrefixStep(p, fs, 4);
    F.PipeSeqPrefixStep(p, fs, 5);
    F.PipeSeqPrefixStep(p, fs, 6);
    F.PipeSeqPrefixStep(p, fs, 7);
    F.PipeSeqPrefixStep(p, fs, 8);
    F.PipeSeqPrefixStep(p, fs, 9);
    F.PipeSeqPrefixStep(p, fs, 10);
    F.PipeSeqPrefixStep(p, fs, 11);
  }

  /** `p.pipe(f1, .., fk)` is the free `pipe(p, f1, .., fk)` wherever that
      overload exists; the two arities it lacks, seven and eight, apply their
      extra stages to the six-function result. */
  lemma ReceiverPipeIsFreePipe<T1, T2, T3, T4, T5, T6, T7, T8, T9, T10, T11, T12, R>(
    p: Flux<T1>, f1: Flux<T1> -> T2, f2: T2 -> T3, f3: T3 -> T4, f4: T4 -> T5, f5: T5 -> T6, f6: T6 -> T7, f7: T7 -> T8, f8: T8 -> T9, f9: T9 -> T10, f10: T10 -> T11, f11: T11 -> T12, f12: T12 -> R)
    ensures Pipe1(p, f1) == F.Pipe1(p, f1)
    ensures Pipe2(p, f1, f2) == F.Pipe2(p, f1, f2)
    ensures Pipe3(p, f1, f2, f3) == F.Pipe3(p, f1, f2, f3)
    ensures Pipe4(p, f1, f2, f3, f4) == F.Pipe4(p, f1, f2, f3, f4)
    ensures Pipe5(p, f1, f2, f3, f4, f5) == F.Pipe5(p, f1, f2, f3, f4, f5)
    ensures Pipe6(p, f1, f2, f3, f4, f5, f6) == F.Pipe6(p, f1, f2, f3, f4, f5, f6)
    ensures Pipe9(p, f1, f2, f3, f4, f5, f6, f7, f8, f9) == F.Pipe9(p, f1, f2, f3, f4, f5, f6, f7, f8, f9)
    ensures Pipe10(p, f1, f2, f3, f4, f5, f6, f7, f8, f9, f10) == F.Pipe10(p, f1, f2, f3, f4, f5, f6, f7, f8, f9, f10)
    ensures Pipe11(p, f1, f2, f3, f4, f5, f6, f7, f8, f9, f10, f11) == F.Pipe11(p, f1, f2, f3, f4, f5, f6, f7, f8, f9, f10, f11)
    ensures Pipe12(p, f1, f2, f3, f4, f5, f6, f7, f8, f9, f10, f11, f12) == F.Pipe12(p, f1, f2, f3, f4, f5, f6, f7, f8, f9, f10, f11, f12)
    ensures Pipe7(p, f1, f2, f3, f4, f5, f6, f7) == f7(F.Pipe6(p, f1, f2, f3, f4, f5, f6))
    ensures Pipe8(p, f1, f2, f3, f4, f5, f6, f7, f8) == f8(f7(F.Pipe6(p, f1, f2, f3, f4, f5, f6)))
  {
  }
}
