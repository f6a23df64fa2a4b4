/** Concrete runs of the helpers, stated as lemmas: the repository's own test
    cases and a few worked examples of `pipe` and `Result`. */
module Scenarios {
  import opened Kotlin
  import opened Reactor
  import opened EitherType
  import F = FunctionExtensions
  import FluxExt
  import MonoExt

  /** `pipe(Mono.just(10), MonoExt.map { it.toString() })` emits "10" and
      completes. */
  lemma MonoPipeMapEmitsTen()
    ensures F.Pipe1(Just(10 as Int), MonoExt.MapCurried(IntToString)) == Value("10")
  {
    assert NatToString(1) == "1";
    assert IntToString(10) == "10";
    assert MonoExt.MapCurried(IntToString)(Just(10 as Int)) == Just(10 as Int).Map(IntToString);
  }

  /** `pipe(Mono.just(10), inc then intToString)` emits "11" and completes. */
  lemma MonoPipeComposedEmitsEleven()
    ensures var incAndToString := F.Then(MonoExt.MapCurried(Inc), MonoExt.MapCurried(IntToString));
      F.Pipe1(Just(10 as Int), incAndToString) == Value("11")
  {
    var inc := MonoExt.MapCurried(Inc);
    var toString := MonoExt.MapCurried(IntToString);
    assert inc(Just(10 as Int)) == Just(10 as Int).Map(Inc) == Value(11);
    assert NatToString(1) == "1";
    assert IntToString(11) == "11";
    assert toString(Value(11 as Int)) == Value(11 as Int).Map(IntToString) == Value("11");
  }

  /** `pipe(Flux.just(1, 2, 3, 4, 5), FluxExt.map { it.inc() })` emits 2, 3,
      4, 5, 6 and completes. */
  lemma FluxPipeMapIncrements()
    ensures F.Pipe1(FluxJust<Int>([1, 2, 3, 4, 5]), FluxExt.MapCurried(Inc)).items == [2, 3, 4, 5, 6]
  {
  }

  /** `pipe(10, { it + 1 }, { it.toString() })` is "11", and `pipe(5)` is 5. */
  lemma PipeIncThenToString()
    ensures F.Pipe2(10 as Int, Inc, IntToString) == "11"
    ensures F.Pipe0(5) == 5
  {
    assert NatToString(1) == "1";
  }

  /** An exhaustive two-arm match over a Result. */
  function Describe(r: Result<Int>): (s: string) {
    match r
    case Left(_) => "err"
    case Right(v) => "ok:" + IntToString(v)
  }

  /** `Success(42)` matches the right arm and `Failure(err)` the left one. */
  lemma MatchingResults(err: Exception)
    ensures Describe(Success(42)) == "ok:42"
    ensures Describe(Failure(err)) == "err"
  {
  }
}
