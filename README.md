# vortex: function composition, Either/Result and Reactor helpers in Dafny

This project models the functional-style helper layer of the Kotlin library
`cobalt.vortex`, a thin layer over Project Reactor:

- `function/Extensions.kt`: infix composition `f then g`, the fixed-arity
  `pipe(a, f1, .., fn)` overloads (for 0–6 and 9–12 functions; there are none
  for 7 or 8), and the `componentN` projections that let Reactor tuples and
  Kotlin pairs and triples be destructured.
- `type/Either.kt`: the sealed `Either<A, B>` with its `Left` and `Right`
  cases, the `Result<V>` alias whose left side is an exception, and the
  `Success` and `Failure` constructors.
- `reactor/publisher/FluxExtensions.kt` and `MonoExtensions.kt`: the helpers
  whose decision logic is written in the repository: `switchIf`, `any`, `all`,
  `findFirst`, `mapTo` and `partition` on Flux; `throwIf`, `switchIf`, both
  `iif` variants and `mapTo` on Mono; and the receiver `p.pipe(f1, .., fk)`
  overloads for k = 1..12 on both.

Everything is pure, so the model is made of datatypes, functions and lemmas.

## Layout

| file | module | models |
|---|---|---|
| `kotlin.dfy` | `Kotlin` | platform types: `Throwable`, the `Exception` subset of it, `Pair`, `Triple`, the 32-bit `Int` with a wrapping `inc` and `toString` |
| `reactor.dfy` | `Reactor` | Reactor's `Tuple2`..`Tuple8`. A Mono is an outcome `Empty \| Value(v) \| Error(e)`. A Flux is the finite sequence it emits. The module also holds `map`, `flatMap`, `filter`, `count`, `zip`, `singleOrEmpty` and `next`, plus lemmas about filtering |
| `function_extensions.dfy` | `FunctionExtensions` | `Extensions.kt` |
| `either.dfy` | `EitherType` | `Either.kt` |
| `flux_extensions.dfy` | `FluxExt` | `FluxExtensions.kt` |
| `mono_extensions.dfy` | `MonoExt` | `MonoExtensions.kt` |
| `scenarios.dfy` | `Scenarios` | the repository's test cases and worked examples of `pipe` and `Result` |

`Kotlin` and `Reactor` describe code that is not in the repository. Their
definitions follow the documented behaviour of the Kotlin standard library and
of Reactor's operators; they are assumptions, not derived code. Each helper is
defined the way the source defines it: for example `Any(p, f)` is
`p.Filter(f).Count().Map(n => n > 0)`. Its contract then states what the
result means.

Each Kotlin helper that has both a receiver form and a curried form is modelled
once, by the receiver form (`SwitchIf(p, a, f)`). The curried form
(`SwitchIfCurried(a)(f)(p)`) is a lambda over it. The free `pipe` overloads are
`Pipe0`..`Pipe6` and `Pipe9`..`Pipe12`. The receiver overloads are
`FluxExt.Pipe1`..`Pipe12` and `MonoExt.Pipe1`..`Pipe12`. `PipeSeq` is a pipe
over a chain of any length, and the overloads are proved to agree with it.

The model follows the code in three choices:
- The free `pipe` has fixed arities with a gap at 7 and 8, and no general form.
  `PipeSeq` is added as the reference that the overloads are proved against.
- The payload fields of `Left` and `Right` are `left` and `right`.
- `Left` and `Right` are plain classes, not data classes, so Kotlin `==` on
  them compares references. The contracts therefore state the case and the
  payload (`r.Right? && r.right == v`) and never compare `Either` values.

## Model

| member | source | states |
|---|---|---|
| `EitherType.Success` | src/main/kotlin/cobalt/vortex/type/Either.kt:9 | `Success(v)` is a `Right`, never a `Left`, and its payload is `v` |
| `EitherType.Failure` | src/main/kotlin/cobalt/vortex/type/Either.kt:10 | `Failure(e)` is a `Left`, never a `Right`, and its payload is `e` |
| `EitherType.ExactlyOneCase` | src/main/kotlin/cobalt/vortex/type/Either.kt:3-6 | the sealed class is closed: every value is exactly one of `Left` and `Right` |
| `FunctionExtensions.ThenAppliesLeftFirst` | src/main/kotlin/cobalt/vortex/function/Extensions.kt:5 | `(f then g)(x)` is `g(f(x))` |
| `FunctionExtensions.ThenAssociative` | src/main/kotlin/cobalt/vortex/function/Extensions.kt:5 | `(f then g) then h` and `f then (g then h)` agree on every argument, both being `h(g(f(x)))` |
| `FunctionExtensions.ThenIdentity` | src/main/kotlin/cobalt/vortex/function/Extensions.kt:5 | the identity function is a left and a right unit of `then` |
| `FunctionExtensions.PipeArityStep` | src/main/kotlin/cobalt/vortex/function/Extensions.kt:7-17 | `pipe(a)` is `a`. Each overload applies its last function to the result of the overload with one function fewer. The nine-function overload applies three functions to the six-function result |
| `FunctionExtensions.PipeTwoIsThen` | src/main/kotlin/cobalt/vortex/function/Extensions.kt:9 | `pipe(a, f, g)` equals `pipe(a, f then g)` |
| `FunctionExtensions.PipeSeqAppend` | src/main/kotlin/cobalt/vortex/function/Extensions.kt:7-17 | piping through `fs + gs` is piping through `fs` and then through `gs`: application is strictly left to right |
| `FunctionExtensions.PipeSeqSnoc` | src/main/kotlin/cobalt/vortex/function/Extensions.kt:7-17 | adding a function at the end of a chain applies it to the previous result |
| `FunctionExtensions.PipeSeqPrefixStep` | src/main/kotlin/cobalt/vortex/function/Extensions.kt:7-17 | the pipe through the first k + 1 functions is the (k + 1)-th function applied to the pipe through the first k |
| `FunctionExtensions.ComposeAllIsPipeSeq` | src/main/kotlin/cobalt/vortex/function/Extensions.kt:5 | folding a whole chain with `then` and applying the result is the same as piping through the chain |
| `FunctionExtensions.PipeSeqFuseThen` | src/main/kotlin/cobalt/vortex/function/Extensions.kt:5 | replacing two adjacent stages `f, g` anywhere in a chain by `f then g` never changes the result |
| `FunctionExtensions.PipeOverloadsAgreeWithPipeSeq` | src/main/kotlin/cobalt/vortex/function/Extensions.kt:7-17 | on a homogeneous chain, every overload for 0–6 and 9–12 functions equals `PipeSeq` on the prefix of the same length |
| `FunctionExtensions.ComponentsReturnConstructorArguments` | src/main/kotlin/cobalt/vortex/function/Extensions.kt:19-33 | `componentK` of a `TupleN`, `Pair` or `Triple` returns the argument given in position K when it was built |
| `FunctionExtensions.DestructuringRebuilds` | src/main/kotlin/cobalt/vortex/function/Extensions.kt:19-33 | rebuilding a `Tuple2`, `Pair` or `Triple` from its components gives the same value back |
| `FluxExt.SwitchIf` | src/main/kotlin/cobalt/vortex/reactor/publisher/FluxExtensions.kt:35-36 | length and order are kept. Element i becomes `Right(a)` when `f` holds of it, and otherwise `Left` carrying the original value |
| `FluxExt.SwitchIfWithoutMatchKeepsValues` | src/main/kotlin/cobalt/vortex/reactor/publisher/FluxExtensions.kt:36 | when no value satisfies `f`, every output is a `Left` holding the input at the same position |
| `FluxExt.Any` | src/main/kotlin/cobalt/vortex/reactor/publisher/FluxExtensions.kt:53-54 | the result is a value that is true iff some element satisfies `f`; it is false on an empty stream |
| `FluxExt.All` | src/main/kotlin/cobalt/vortex/reactor/publisher/FluxExtensions.kt:57-58 | the result is a value that is true iff every element satisfies `f`; it is true on an empty stream |
| `FluxExt.AllIsNotAnyNot` | src/main/kotlin/cobalt/vortex/reactor/publisher/FluxExtensions.kt:53-58 | `all(f)` is the negation of `any` over the negated predicate |
| `FluxExt.FindFirst` | src/main/kotlin/cobalt/vortex/reactor/publisher/FluxExtensions.kt:66-67 | the result is empty iff nothing matches. It is the match, at a position no other match shares, when exactly one element matches. It is the IndexOutOfBoundsException signal iff two positions match |
| `FluxExt.FindFirstValue` | src/main/kotlin/cobalt/vortex/reactor/publisher/FluxExtensions.kt:65 | the result is empty iff `value` does not occur. It is `value` iff `value` occurs once. It is the IndexOutOfBoundsException signal iff `value` occurs two or more times |
| `FluxExt.FindFirstCorrected` | src/main/kotlin/cobalt/vortex/reactor/publisher/FluxExtensions.kt:66-67 | the intended stage is never an error. It is empty iff nothing matches, and otherwise returns the match at the least position |
| `FluxExt.FindFirstRejectsRepeatedMatch` | src/main/kotlin/cobalt/vortex/reactor/publisher/FluxExtensions.kt:65 | on `Flux.just(1, 1)`, `findFirst(1)` as written is an error, while the corrected stage gives `1` |
| `FluxExt.FindFirstAgreesWhenMatchIsUnique` | src/main/kotlin/cobalt/vortex/reactor/publisher/FluxExtensions.kt:66-67 | when at most one element matches, the as-written and corrected stages agree |
| `FluxExt.MapTo` | src/main/kotlin/cobalt/vortex/reactor/publisher/FluxExtensions.kt:91-92 | the output has the input's length and every element is `value` |
| `FluxExt.MapToTwice` | src/main/kotlin/cobalt/vortex/reactor/publisher/FluxExtensions.kt:92 | mapping to `a` and then to `b` is mapping to `b` |
| `FluxExt.Partition` | src/main/kotlin/cobalt/vortex/reactor/publisher/FluxExtensions.kt:127 | pair i holds the i-th value satisfying `f` and the i-th value not satisfying it. The length is the smaller of the two counts, because zip stops at the shorter side |
| `FluxExt.PartitionBalancedKeepsEverything` | src/main/kotlin/cobalt/vortex/reactor/publisher/FluxExtensions.kt:127 | when the two counts are equal, the pairs hold exactly the input's values, with multiplicity |
| `FluxExt.CurriedFormsAgree` | src/main/kotlin/cobalt/vortex/reactor/publisher/FluxExtensions.kt:35-127 | each curried stage (`switchIf(a)(f)`, `any(f)`, `all(f)`, `findFirst(f)`, `mapTo(v)`, `partition(f)`) applied to `p` is its definition over `p` |
| `FluxExt.ReceiverPipesAgreeWithPipeSeq` | src/main/kotlin/cobalt/vortex/reactor/publisher/FluxExtensions.kt:144-155 | on a homogeneous chain, `p.pipe(f1, .., fk)` for k = 1..12 equals `PipeSeq` on the first k stages |
| `FluxExt.ReceiverPipeIsFreePipe` | src/main/kotlin/cobalt/vortex/reactor/publisher/FluxExtensions.kt:144-155 | `p.pipe(f1, .., fk)` is the free `pipe(p, f1, .., fk)` for every arity that has one. For k = 7 and 8 it applies the extra stages to the six-function result |
| `MonoExt.ThrowIf` | src/main/kotlin/cobalt/vortex/reactor/publisher/MonoExtensions.kt:31-32 | a value satisfying `f` becomes `Error(e)`. A value failing `f`, an empty Mono and an error come out unchanged. A resulting value never satisfies `f` |
| `MonoExt.ThrowIfIdempotent` | src/main/kotlin/cobalt/vortex/reactor/publisher/MonoExtensions.kt:32 | applying `throwIf(e, f)` twice is the same as applying it once |
| `MonoExt.SwitchIf` | src/main/kotlin/cobalt/vortex/reactor/publisher/MonoExtensions.kt:35-36 | `Value(x)` becomes a value holding `Right(a)` if `f(x)`, and otherwise `Left` holding `x`. Empty and error pass through |
| `MonoExt.Iif` | src/main/kotlin/cobalt/vortex/reactor/publisher/MonoExtensions.kt:44 | `Value(x)` becomes `a` if `f(x)` and `b` otherwise. Empty and error pass through |
| `MonoExt.IifWith` | src/main/kotlin/cobalt/vortex/reactor/publisher/MonoExtensions.kt:45 | `Value(x)` becomes `a(x)` if `f(x)` and `b(x)` otherwise: the chosen branch receives the same value the condition saw. Empty and error pass through |
| `MonoExt.IifWithConstantBranchesIsIif` | src/main/kotlin/cobalt/vortex/reactor/publisher/MonoExtensions.kt:42-45 | the function variant with branches that ignore their argument is the value variant |
| `MonoExt.IifSwapBranches` | src/main/kotlin/cobalt/vortex/reactor/publisher/MonoExtensions.kt:44 | swapping the branches is the same as negating the condition |
| `MonoExt.MapTo` | src/main/kotlin/cobalt/vortex/reactor/publisher/MonoExtensions.kt:62-63 | `Value(x)` becomes `Value(value)`. Empty and error pass through |
| `MonoExt.CurriedFormsAgree` | src/main/kotlin/cobalt/vortex/reactor/publisher/MonoExtensions.kt:31-63 | each curried stage (`throwIf(e)(f)`, `switchIf(a)(f)`, both `iif(a, b)(f)`, `mapTo(v)`) applied to `p` is its definition over `p` |
| `MonoExt.ReceiverPipesAgreeWithPipeSeq` | src/main/kotlin/cobalt/vortex/reactor/publisher/MonoExtensions.kt:106-117 | on a homogeneous chain, `p.pipe(f1, .., fk)` for k = 1..12 equals `PipeSeq` on the first k stages |
| `MonoExt.ReceiverPipeIsFreePipe` | src/main/kotlin/cobalt/vortex/reactor/publisher/MonoExtensions.kt:106-117 | `p.pipe(f1, .., fk)` is the free `pipe(p, f1, .., fk)` for every arity that has one. For k = 7 and 8 it applies the extra stages to the six-function result |
| `Scenarios.MonoPipeMapEmitsTen` | src/test/kotlin/cobalt/vortex/reactor/publisher/mono/MonoExtMapTest.kt:13-21 | `pipe(Mono.just(10), map { it.toString() })` emits "10" and completes |
| `Scenarios.MonoPipeComposedEmitsEleven` | src/test/kotlin/cobalt/vortex/reactor/publisher/mono/MonoExtMapTest.kt:24-37 | `pipe(Mono.just(10), map(inc) then map(toString))` emits "11" and completes |
| `Scenarios.FluxPipeMapIncrements` | src/test/kotlin/cobalt/vortex/reactor/publisher/flux/FluxExtMapTest.kt:12-24 | `pipe(Flux.just(1, 2, 3, 4, 5), map { it.inc() })` emits 2, 3, 4, 5, 6 |
| `Scenarios.PipeIncThenToString` | src/main/kotlin/cobalt/vortex/function/Extensions.kt:7-9 | `pipe(10, inc, toString)` is "11" and `pipe(5)` is 5 |
| `Scenarios.MatchingResults` | src/main/kotlin/cobalt/vortex/type/Either.kt:8-10 | a two-arm match sends `Success(42)` to the right arm, giving "ok:42", and `Failure(err)` to the left arm, giving "err" |

## Findings

| source | as written | input that shows it | evidently intended | confidence | as-written member | corrected member |
|---|---|---|---|---|---|---|
| src/main/kotlin/cobalt/vortex/reactor/publisher/FluxExtensions.kt:65-67 | `findFirst` is `filter(..).singleOrEmpty()`, which signals IndexOutOfBoundsException as soon as a second element matches | `findFirst(1)` on `Flux.just(1, 1)` | the first matching element (`filter(..).next()`), here `1` | medium (the name promises the first match), not executed | `FluxExt.FindFirstValue`, `FluxExt.FindFirst`, shown by `FluxExt.FindFirstRejectsRepeatedMatch` | `FluxExt.FindFirstCorrected` |

## Left out

- Flux `throwIf`, `iif` and `flatMapTo` (FluxExtensions.kt:31-32, 42-43, 98-99): they go through `Flux.flatMap`, which merges the inner publishers concurrently. The order of their output therefore depends on timing, not on this code.
- `retry` and `retryWhen` on both Flux and Mono: the retry policy and resubscription belong to Reactor.
- The pure pass-throughs to Reactor: `zipWith`, `zipWithIterable`, `zipWhen`, `concat`, `filter`, `distinct`, `last`, `skip`, `single`, `singleOrEmpty`, `map`, `flatMap`, `flatMapMany`, `flatMapManyTo`, `flatMapIterable`, `flatMapArray`, `flatMapTo` (Mono), `then`/`thenMany`, `count`, `collectList`, `reduce`, `groupBy`, `switchIfEmpty` and `tap`. Each one only calls a Reactor operator whose code is not in the repository. `map` alone appears, as `FluxExt.MapCurried` and `MonoExt.MapCurried`, because the test scenarios use it.
- Asynchrony, scheduling, backpressure, subscription, cancellation and infinite streams. A Flux is a finished, finite sequence of values, and a Flux that ends in an error is not represented. A Mono is the outcome one subscriber observes.
- Exceptions thrown by the lambdas passed to `then`, `pipe` or the helpers. Dafny arrows are total, so whether later stages run after a throw is not modelled.
- `MonoExt.ThrowIf`, `FluxExt.All` and `FluxExt.Partition` subscribe to `p` more than once: `throwIf`'s `else p` or `else this` (MonoExtensions.kt:31-32), `all`'s `p.count()` beside `p.filter(f).count()` (FluxExtensions.kt:57-58), and `partition`'s two filters of `p` (FluxExtensions.kt:127-128). The model treats `p` as one fixed outcome or sequence, so a publisher that emits differently on each subscription is not captured.
- Reactor's `TupleN` extends `Tuple(N-1)`, so in Kotlin `component1` also applies to a `Tuple5`. Here each `componentK` accepts exactly the tuple type its receiver names, and a destructuring of a `TupleN` with N > 2 is not stated.
- Kotlin's `Pair` and `Triple` already declare `component1`..`component3` as members, which take precedence over the extensions in Extensions.kt:28-33. Both return the same field, so the model has one projection per component.
- `Reactor.Zip`: `Mono.zip` ends with whichever non-value terminal signal (empty or error) arrives first, which depends on timing. The model takes the sources as completing in order, left first: a left side that is empty or fails decides the outcome, and the right side decides it only when the left one has a value. `FluxExt.All` only zips two counts, which are always values.
- `count` returns a 64-bit `Long`. The model uses an unbounded integer, since a finite model stream cannot overflow it.
- `FluxExt.FindFirstValue` compares with Dafny equality, standing for Kotlin's `equals`; a user-defined `equals` is not modelled.
- Object identity of `Either` instances: `Left` and `Right` are not data classes, so Kotlin `==` compares references. The model's datatypes have structural equality, and the contracts do not rely on it.
