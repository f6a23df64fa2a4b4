/** `cobalt.vortex.reactor.publisher.MonoExt`: the helpers over a Mono whose
    decision logic is written in the repository, each as the receiver form
    (`p.iif(a, b, f)`) and, where the source has one, the curried form
    (`iif(a, b)(f)(p)`) that composes with `pipe`. */
module MonoExt {
  import opened Kotlin
  import opened Reactor
  import opened EitherType
  import F = FunctionExtensions

  // ---------------- throwIf ----------------

  /** `p.throwIf(e, f)`: `flatMap { if (f(it)) Mono.error(e) else p }`. A
      value satisfying `f` becomes the error `e`; otherwise the result is `p`
      again, so a value that fails `f`, an empty Mono and an error all come out
      as they went in. */
  function ThrowIf<T>(p: Mono<T>, e: Throwable, f: T -> bool): (r: Mono<T>)
    ensures p.Value? && f(p.value) ==> r.Error? && r.error == e
    ensures p.Value? && !f(p.value) ==> r == p
    ensures !p.Value? ==> r == p
    ensures r.Value? ==> !f(r.value)
  {
    p.FlatMap((x: T) => if f(x) then Error(e) else p)
  }

  /** `throwIf(e)(f)(p)`. */
  function ThrowIfCurried<T>(e: Throwable): (r: (T -> bool) -> Mono<T> -> Mono<T>) {
    f => p => ThrowIf(p, e, f)
  }

  /** Throwing twice on the same condition is throwing once. */
  lemma ThrowIfIdempotent<T>(p: Mono<T>, e: Throwable, f: T -> bool)
    ensures ThrowIf(ThrowIf(p, e, f), e, f) == ThrowIf(p, e, f)
  {
  }

  // ---------------- switchIf ----------------

  /** `p.switchIf(a, f)`: a value becomes `Right(a)` when it satisfies `f` and
      stays, as `Left`, otherwise; empty and error signals pass through. */
  function SwitchIf<L, R>(p: Mono<L>, a: R, f: L -> bool): (r: Mono<Either<L, R>>)
    ensures r.Value? <==> p.Value?
    ensures p.Value? && f(p.value) ==> r.value.Right? && r.value.right == a
    ensures p.Value? && !f(p.value) ==> r.value.Left? && r.value.left == p.value
    ensures p.Empty? ==> r.Empty?
    ensures p.Error? ==> r.Error? && r.error == p.error
  {
    p.Map((x: L) => if f(x) then Right(a) else Left(x))
  }

  /** `switchIf(a)(f)(p)`. */
  function SwitchIfCurried<L, R>(a: R): (r: (L -> bool) -> Mono<L> -> Mono<Either<L, R>>) {
    f => p => SwitchIf(p, a, f)
  }

  // ---------------- iif ----------------

  /** `p.iif(a, b, f)`: a value selects `a` when it satisfies `f` and `b`
      otherwise; empty and error signals pass through and select neither. */
  function Iif<T, R>(p: Mono<T>, a: Mono<R>, b: Mono<R>, f: T -> bool): (r: Mono<R>)
    ensures p.Value? && f(p.value) ==> r == a
    ensures p.Value? && !f(p.value) ==> r == b
    ensures p.Empty? ==> r.Empty?
    ensures p.Error? ==> r.Error? && r.error == p.error
  {
    p.FlatMap((x: T) => if f(x) then a else b)
  }

  /** `iif(a, b)(f)(p)`. */
  function IifCurried<T, R>(a: Mono<R>, b: Mono<R>): (r: (T -> bool) -> Mono<T> -> Mono<R>) {
    f => p => Iif(p, a, b, f)
  }

  /** `p.iif(a, b, f)` with functions for branches: the chosen branch is
      called with the same value the condition saw. */
  function IifWith<T, R>(p: Mono<T>, a: T -> Mono<R>, b: T -> Mono<R>, f: T -> bool): (r: Mono<R>)
    ensures p.Value? && f(p.value) ==> r == a(p.value)
    ensures p.Value? && !f(p.value) ==> r == b(p.value)
    ensures p.Empty? ==> r.Empty?
    ensures p.Error? ==> r.Error? && r.error == p.error
  {
    p.FlatMap((x: T) => if f(x) then a(x) else b(x))
  }

  /** `iif(a, b)(f)(p)` with functions for branches. */
  function IifWithCurried<T, R>(a: T -> Mono<R>, b: T -> Mono<R>): (r: (T -> bool) -> Mono<T> -> Mono<R>) {
    f => p => IifWith(p, a, b, f)
  }

  /** The two variants agree when the branch functions ignore their argument. */
  lemma IifWithConstantBranchesIsIif<T, R>(p: Mono<T>, a: Mono<R>, b: Mono<R>, f: T -> bool)
    ensures IifWith(p, (_: T) => a, (_: T) => b, f) == Iif(p, a, b, f)
  {
  }

  /** Swapping the branches is testing the negated condition. */
  lemma IifSwapBranches<T, R>(p: Mono<T>, a: Mono<R>, b: Mono<R>, f: T -> bool)
    ensures Iif(p, b, a, Not(f)) == Iif(p, a, b, f)
  {
  }

  // ---------------- mapTo ----------------

  /** `p.mapTo(value)`: a value is replaced by `value`; empty and error
      signals pass through. */
  function MapTo<T, R>(p: Mono<T>, value: R): (r: Mono<R>)
    ensures r.Value? <==> p.Value?
    ensures r.Value? ==> r.value == value
    ensures p.Empty? ==> r.Empty?
    ensures p.Error? ==> r.Error? && r.error == p.error
  {
    p.Map((_: T) => value)
  }

  /** `mapTo(value)(p)`: the curried form keeps the value type. */
  function MapToCurried<T>(value: T): (r: Mono<T> -> Mono<T>) {
    p => MapTo(p, value)
  }

  /** The curried forms are the receiver forms with their arguments reordered. */
  lemma CurriedFormsAgree<T, R>(p: Mono<T>, e: Throwable, a: Mono<R>, b: Mono<R>,
                                ga: T -> Mono<R>, gb: T -> Mono<R>, x: R, f: T -> bool, value: T)
    ensures ThrowIfCurried(e)(f)(p) == ThrowIf(p, e, f)
    ensures SwitchIfCurried(x)(f)(p) == SwitchIf(p, x, f)
    ensures IifCurried(a, b)(f)(p) == Iif(p, a, b, f)
    ensures IifWithCurried(ga, gb)(f)(p) == IifWith(p, ga, gb, f)
    ensures MapToCurried(value)(p) == MapTo(p, value)
  {
  }

  /** `map(f)(p)`: a pass-through to `Mono.map`, used by the scenarios. */
  function MapCurried<T, R>(f: T -> R): (r: Mono<T> -> Mono<R>) {
    (p: Mono<T>) => p.Map(f)
  }

  // ---------------- receiver pipe: `p.pipe(f1, .., fk)` for k = 1..12 ----------------

  function Pipe1<T1, R>(
    p: Mono<T1>, f1: Mono<T1> -> R): (r: R)
  {
    f1(p)
  }
  function Pipe2<T1, T2, R>(
    p: Mono<T1>, f1: Mono<T1> -> T2, f2: T2 -> R): (r: R)
  {
    f2(f1(p))
  }
  function Pipe3<T1, T2, T3, R>(
    p: Mono<T1>, f1: Mono<T1> -> T2, f2: T2 -> T3, f3: T3 -> R): (r: R)
  {
    f3(f2(f1(p)))
  }
  function Pipe4<T1, T2, T3, T4, R>(
    p: Mono<T1>, f1: Mono<T1> -> T2, f2: T2 -> T3, f3: T3 -> T4, f4: T4 -> R): (r: R)
  {
    f4(f3(f2(f1(p))))
  }
  function Pipe5<T1, T2, T3, T4, T5, R>(
    p: Mono<T1>, f1: Mono<T1> -> T2, f2: T2 -> T3, f3: T3 -> T4, f4: T4 -> T5, f5: T5 -> R): (r: R)
  {
    f5(f4(f3(f2(f1(p)))))
  }
  function Pipe6<T1, T2, T3, T4, T5, T6, R>(
    p: Mono<T1>, f1: Mono<T1> -> T2, f2: T2 -> T3, f3: T3 -> T4, f4: T4 -> T5, f5: T5 -> T6, f6: T6 -> R): (r: R)
  {
    f6(f5(f4(f3(f2(f1(p))))))
  }
  function Pipe7<T1, T2, T3, T4, T5, T6, T7, R>(
    p: Mono<T1>, f1: Mono<T1> -> T2, f2: T2 -> T3, f3: T3 -> T4, f4: T4 -> T5, f5: T5 -> T6, f6: T6 -> T7, f7: T7 -> R): (r: R)
  {
    f7(f6(f5(f4(f3(f2(f1(p)))))))
  }
  function Pipe8<T1, T2, T3, T4, T5, T6, T7, T8, R>(
    p: Mono<T1>, f1: Mono<T1> -> T2, f2: T2 -> T3, f3: T3 -> T4, f4: T4 -> T5, f5: T5 -> T6, f6: T6 -> T7, f7: T7 -> T8, f8: T8 -> R): (r: R)
  {
    f8(f7(f6(f5(f4(f3(f2(f1(p))))))))
  }
  function Pipe9<T1, T2, T3, T4, T5, T6, T7, T8, T9, R>(
    p: Mono<T1>, f1: Mono<T1> -> T2, f2: T2 -> T3, f3: T3 -> T4, f4: T4 -> T5, f5: T5 -> T6, f6: T6 -> T7, f7: T7 -> T8, f8: T8 -> T9, f9: T9 -> R): (r: R)
  {
    f9(f8(f7(f6(f5(f4(f3(f2(f1(p)))))))))
  }
  function Pipe10<T1, T2, T3, T4, T5, T6, T7, T8, T9, T10, R>(
    p: Mono<T1>, f1: Mono<T1> -> T2, f2: T2 -> T3, f3: T3 -> T4, f4: T4 -> T5, f5: T5 -> T6, f6: T6 -> T7, f7: T7 -> T8, f8: T8 -> T9, f9: T9 -> T10, f10: T10 -> R): (r: R)
  {
    f10(f9(f8(f7(f6(f5(f4(f3(f2(f1(p))))))))))
  }
  function Pipe11<T1, T2, T3, T4, T5, T6, T7, T8, T9, T10, T11, R>(
    p: Mono<T1>, f1: Mono<T1> -> T2, f2: T2 -> T3, f3: T3 -> T4, f4: T4 -> T5, f5: T5 -> T6, f6: T6 -> T7, f7: T7 -> T8, f8: T8 -> T9, f9: T9 -> T10, f10: T10 -> T11, f11: T11 -> R): (r: R)
  {
    f11(f10(f9(f8(f7(f6(f5(f4(f3(f2(f1(p)))))))))))
  }
  function Pipe12<T1, T2, T3, T4, T5, T6, T7, T8, T9, T10, T11, T12, R>(
    p: Mono<T1>, f1: Mono<T1> -> T2, f2: T2 -> T3, f3: T3 -> T4, f4: T4 -> T5, f5: T5 -> T6, f6: T6 -> T7, f7: T7 -> T8, f8: T8 -> T9, f9: T9 -> T10, f10: T10 -> T11, f11: T11 -> T12, f12: T12 -> R): (r: R)
  {
    f12(f11(f10(f9(f8(f7(f6(f5(f4(f3(f2(f1(p))))))))))))
  }

  /** On a homogeneous chain of twelve stages, every receiver overload agrees
      with `PipeSeq` on the prefix of the same length. */
  lemma ReceiverPipesAgreeWithPipeSeq<T>(p: Mono<T>, fs: seq<Mono<T> -> Mono<T>>)
    requires |fs| == 12
    ensures Pipe1(p, fs[0]) == F.PipeSeq(p, fs[..1])
    ensures Pipe2(p, fs[0], fs[1]) == F.PipeSeq(p, fs[..2])
    ensures Pipe3(p, fs[0], fs[1], fs[2]) == F.PipeSeq(p, fs[..3])
    ensures Pipe4(p, fs[0], fs[1], fs[2], fs[3]) == F.PipeSeq(p, fs[..4])
    ensures Pipe5(p, fs[0], fs[1], fs[2], fs[3], fs[4]) == F.PipeSeq(p, fs[..5])
    ensures Pipe6(p, fs[0], fs[1], fs[2], fs[3], fs[4], fs[5]) == F.PipeSeq(p, fs[..6])
    ensures Pipe7(p, fs[0], fs[1], fs[2], fs[3], fs[4], fs[5], fs[6]) == F.PipeSeq(p, fs[..7])
    ensures Pipe8(p, fs[0], fs[1], fs[2], fs[3], fs[4], fs[5], fs[6], fs[7]) == F.PipeSeq(p, fs[..8])
    ensures Pipe9(p, fs[0], fs[1], fs[2], fs[3], fs[4], fs[5], fs[6], fs[7], fs[8]) == F.PipeSeq(p, fs[..9])
    ensures Pipe10(p, fs[0], fs[1], fs[2], fs[3], fs[4], fs[5], fs[6], fs[7], fs[8], fs[9]) == F.PipeSeq(p, fs[..10])
    ensures Pipe11(p, fs[0], fs[1], fs[2], fs[3], fs[4], fs[5], fs[6], fs[7], fs[8], fs[9], fs[10]) == F.PipeSeq(p, fs[..11])
    ensures Pipe12(p, fs[0], fs[1], fs[2], fs[3], fs[4], fs[5], fs[6], fs[7], fs[8], fs[9], fs[10], fs[11]) == F.PipeSeq(p, fs[..12])
  {
    F.PipeSeqPrefixStep(p, fs, 0);
    F.PipeSeqPrefixStep(p, fs, 1);
    F.PipeSeqPrefixStep(p, fs, 2);
    F.PipeSeqPrefixStep(p, fs, 3);
    F.PipeSeqPrefixStep(p, fs, 4);
    F.PipeSeqPrefixStep(p, fs, 5);
    F.PipeSeqPrefixStep(p, fs, 6);
    F.PipeSeqPrefixStep(p, fs, 7);
    F.PipeSeqPrefixStep(p, fs, 8);
    F.PipeSeqPrefixStep(p, fs, 9);
    F.PipeSeqPrefixStep(p, fs, 10);
    F.PipeSeqPrefixStep(p, fs, 11);
  }

  /** `p.pipe(f1, .., fk)` is the free `pipe(p, f1, .., fk)` wherever that
      overload exists; the two arities it lacks, seven and eight, apply their
      extra stages to the six-function result. */
  lemma ReceiverPipeIsFreePipe<T1, T2, T3, T4, T5, T6, T7, T8, T9, T10, T11, T12, R>(
    p: Mono<T1>, f1: Mono<T1> -> T2, f2: T2 -> T3, f3: T3 -> T4, f4: T4 -> T5, f5: T5 -> T6, f6: T6 -> T7, f7: T7 -> T8, f8: T8 -> T9, f9: T9 -> T10, f10: T10 -> T11, f11: T11 -> T12, f12: T12 -> R)
    ensures Pipe1(p, f1) == F.Pipe1(p, f1)
    ensures Pipe2(p, f1, f2) == F.Pipe2(p, f1, f2)
    ensures Pipe3(p, f1, f2, f3) == F.Pipe3(p, f1, f2, f3)
    ensures Pipe4(p, f1, f2, f3, f4) == F.Pipe4(p, f1, f2, f3, f4)
    ensures Pipe5(p, f1, f2, f3, f4, f5) == F.Pipe5(p, f1, f2, f3, f4, f5)
    ensures Pipe6(p, f1, f2, f3, f4, f5, f6) == F.Pipe6(p, f1, f2, f3, f4, f5, f6)
    ensures Pipe9(p, f1, f2, f3, f4, f5, f6, f7, f8, f9) == F.Pipe9(p, f1, f2, f3, f4, f5, f6, f7, f8, f9)
    ensures Pipe10(p, f1, f2, f3, f4, f5, f6, f7, f8, f9, f10) == F.Pipe10(p, f1, f2, f3, f4, f5, f6, f7, f8, f9, f10)
    ensures Pipe11(p, f1, f2, f3, f4, f5, f6, f7, f8, f9, f10, f11) == F.Pipe11(p, f1, f2, f3, f4, f5, f6, f7, f8, f9, f10, f11)
    ensures Pipe12(p, f1, f2, f3, f4, f5, f6, f7, f8, f9, f10, f11, f12) == F.Pipe12(p, f1, f2, f3, f4, f5, f6, f7, f8, f9, f10, f11, f12)
    ensures Pipe7(p, f1, f2, f3, f4, f5, f6, f7) == f7(F.Pipe6(p, f1, f2, f3, f4, f5, f6))
    ensures Pipe8(p, f1, f2, f3, f4, f5, f6, f7, f8) == f8(f7(F.Pipe6(p, f1, f2, f3, f4, f5, f6)))
  {
  }
}
