/** The part of Project Reactor the extension helpers delegate to, as finished
    values: a Mono is the outcome a subscriber observes (nothing, one value, or
    an error signal) and a Flux is the finite sequence of values it emits before
    completing. Timing, subscription, backpressure and infinite streams are not
    modelled. The operator definitions below are the documented semantics of
    Reactor's operators, assumed rather than derived from code in the
    repository. */
module Reactor {
  import opened Kotlin

  /** `reactor.util.function.Tuple2` .. `Tuple8`. */
  datatype Tuple2<+T1, +T2> = Tuple2(t1: T1, t2: T2)
  datatype Tuple3<+T1, +T2, +T3> = Tuple3(t1: T1, t2: T2, t3: T3)
  datatype Tuple4<+T1, +T2, +T3, +T4> = Tuple4(t1: T1, t2: T2, t3: T3, t4: T4)
  datatype Tuple5<+T1, +T2, +T3, +T4, +T5> = Tuple5(t1: T1, t2: T2, t3: T3, t4: T4, t5: T5)
  datatype Tuple6<+T1, +T2, +T3, +T4, +T5, +T6> =
    Tuple6(t1: T1, t2: T2, t3: T3, t4: T4, t5: T5, t6: T6)
  datatype Tuple7<+T1, +T2, +T3, +T4, +T5, +T6, +T7> =
    Tuple7(t1: T1, t2: T2, t3: T3, t4: T4, t5: T5, t6: T6, t7: T7)
  datatype Tuple8<+T1, +T2, +T3, +T4, +T5, +T6, +T7, +T8> =
    Tuple8(t1: T1, t2: T2, t3: T3, t4: T4, t5: T5, t6: T6, t7: T7, t8: T8)

  /** What `singleOrEmpty` signals when its source emits a second item. */
  const SourceEmittedMoreThanOneItem: Throwable :=
    ExceptionThrowable("java.lang.IndexOutOfBoundsException", "Source emitted more than one item")

  /** A Mono as the outcome it delivers to a subscriber. */
  datatype Mono<+T> = Empty | Value(value: T) | Error(error: Throwable)
  {
    /** `Mono.map`: transforms the value; empty and error signals pass through. */
    function Map<R>(f: T -> R): (r: Mono<R>)
      ensures Value? <==> r.Value?
      ensures Value? ==> r.value == f(value)
      ensures Empty? ==> r.Empty?
      ensures Error? ==> r.Error? && r.error == error
    {
      match this
      case Empty => Empty
      case Value(x) => Value(f(x))
      case Error(e) => Error(e)
    }

    /** `Mono.flatMap`: the value selects the next Mono; empty and error signals
        pass through without calling `f`. */
    function FlatMap<R>(f: T -> Mono<R>): (r: Mono<R>)
      ensures Value? ==> r == f(value)
      ensures Empty? ==> r.Empty?
      ensures Error? ==> r.Error? && r.error == error
    {
      match this
      case Empty => Empty
      case Value(x) => f(x)
      case Error(e) => Error(e)
    }
  }

  /** `Mono.just`. */
  function Just<T>(x: T): (r: Mono<T>) { Value(x) }

  /** `Mono.zip(a, b)` over sources that complete in order, left first: a
      tuple of both values, otherwise the first terminal signal that is not a
      value, the left side's before the right side's. */
  function Zip<A, B>(a: Mono<A>, b: Mono<B>): (r: Mono<Tuple2<A, B>>)
    ensures r.Value? <==> a.Value? && b.Value?
    ensures r.Value? ==> r.value.t1 == a.value && r.value.t2 == b.value
    ensures !a.Value? ==> r.Error? == a.Error? && (r.Error? ==> r.error == a.error)
    ensures a.Value? && !b.Value? ==> r.Error? == b.Error? && (r.Error? ==> r.error == b.error)
  {
    if a.Error? then Error(a.error)
    else if a.Empty? then Empty
    else if b.Error? then Error(b.error)
    else if b.Empty? then Empty
    else Value(Tuple2(a.value, b.value))
  }

  /** The elements of `s` that satisfy `f`, in their original order. */
  function FilterSeq<T>(s: seq<T>, f: T -> bool): (r: seq<T>)
    ensures |r| <= |s|
    ensures forall x :: x in r ==> x in s && f(x)
  {
    if |s| == 0 then []
    else if f(s[0]) then [s[0]] + FilterSeq(s[1..], f)
    else FilterSeq(s[1..], f)
  }

  /** A Flux as the finite sequence of values it emits before completing. */
  datatype Flux<+T> = Flux(items: seq<T>)
  {
    /** `Flux.map`: one output per input, in order. */
    function Map<R>(f: T -> R): (r: Flux<R>)
      ensures |r.items| == |items|
      ensures forall i :: 0 <= i < |items| ==> r.items[i] == f(items[i])
    {
      Flux(seq(|items|, i requires 0 <= i < |items| => f(items[i])))
    }

    /** `Flux.filter`. */
    function Filter(f: T -> bool): (r: Flux<T>) {
      Flux(FilterSeq(items, f))
    }

    /** `Flux.count`: a Mono of the number of emitted values. */
    function Count(): (r: Mono<int>)
      ensures r.Value? && r.value == |items|
    {
      Value(|items|)
    }

    /** `Flux.singleOrEmpty`: empty for no item, the item for exactly one, and
        an IndexOutOfBoundsException signal for more than one. */
    function SingleOrEmpty(): (r: Mono<T>)
      ensures r.Empty? <==> |items| == 0
      ensures r.Value? <==> |items| == 1
      ensures r.Value? ==> r.value == items[0]
      ensures r.Error? ==> r.error == SourceEmittedMoreThanOneItem
    {
      if |items| == 0 then Empty
      else if |items| == 1 then Value(items[0])
      else Error(SourceEmittedMoreThanOneItem)
    }

    /** `Flux.next()`: the first emitted value, or empty when there is none. */
    function Next(): (r: Mono<T>)
      ensures r.Empty? <==> |items| == 0
      ensures r.Value? ==> r.value == items[0]
      ensures !r.Error?
    {
      if |items| == 0 then Empty else Value(items[0])
    }
  }

  /** `Flux.just(...)`. */
  function FluxJust<T>(xs: seq<T>): (r: Flux<T>) { Flux(xs) }

  /** `Flux.zip(a, b)`: pairs the i-th values of both sides and completes when
      the shorter side does. */
  function FluxZip<A, B>(a: Flux<A>, b: Flux<B>): (r: Flux<Tuple2<A, B>>)
    ensures |r.items| == if |a.items| <= |b.items| then |a.items| else |b.items|
    ensures forall i :: 0 <= i < |r.items| ==> r.items[i].t1 == a.items[i] && r.items[i].t2 == b.items[i]
  {
    var n := if |a.items| <= |b.items| then |a.items| else |b.items|;
    Flux(seq(n, i requires 0 <= i < n => Tuple2(a.items[i], b.items[i])))
  }

  // ---------- Facts about filtering, used by the helpers' contracts ----------

  /** Negation of a predicate, the `{ !f(it) }` lambda. */
  function Not<T>(f: T -> bool): (r: T -> bool) { x => !f(x) }

  /** Some element passes the filter iff the filtered sequence is non-empty. */
  lemma {:induction false} FilterNonEmptyIff<T>(s: seq<T>, f: T -> bool)
    ensures |FilterSeq(s, f)| > 0 <==> exists i :: 0 <= i < |s| && f(s[i])
  {
    if |s| > 0 {
      FilterNonEmptyIff(s[1..], f);
      if !f(s[0]) && exists i :: 0 <= i < |s| && f(s[i]) {
        var i :| 0 <= i < |s| && f(s[i]);
        assert s[1..][i - 1] == s[i];
      }
    }
  }

  /** Nothing is dropped by the filter iff every element passes it. */
  lemma {:induction false} FilterFullIff<T>(s: seq<T>, f: T -> bool)
    ensures |FilterSeq(s, f)| == |s| <==> forall i :: 0 <= i < |s| ==> f(s[i])
  {
    if |s| > 0 {
      FilterFullIff(s[1..], f);
      if forall i :: 0 <= i < |s| ==> f(s[i]) {
        assert forall i :: 0 <= i < |s[1..]| ==> f(s[1..][i]) by {
          forall i | 0 <= i < |s[1..]| ensures f(s[1..][i]) { assert s[1..][i] == s[i + 1]; }
        }
      }
      if |FilterSeq(s, f)| == |s| {
        forall i | 0 <= i < |s| ensures f(s[i]) {
          if i > 0 { assert s[i] == s[1..][i - 1]; }
        }
      }
    }
  }

  /** At least two elements pass the filter iff two distinct positions do. */
  lemma {:induction false} FilterAtLeastTwoIff<T>(s: seq<T>, f: T -> bool)
    ensures |FilterSeq(s, f)| >= 2 <==> exists i, j :: 0 <= i < j < |s| && f(s[i]) && f(s[j])
  {
    if |s| > 0 {
      var t := s[1..];
      FilterAtLeastTwoIff(t, f);
      FilterNonEmptyIff(t, f);
      if exists i, j :: 0 <= i < j < |s| && f(s[i]) && f(s[j]) {
        var i, j :| 0 <= i < j < |s| && f(s[i]) && f(s[j]);
        assert t[j - 1] == s[j];
        if i > 0 { assert t[i - 1] == s[i]; }
      }
      if |FilterSeq(s, f)| >= 2 {
        if f(s[0]) {
          var j :| 0 <= j < |t| && f(t[j]);
          assert 0 < j + 1 < |s| && f(s[0]) && f(s[j + 1]);
        } else {
          var i, j :| 0 <= i < j < |t| && f(t[i]) && f(t[j]);
          assert 0 <= i + 1 < j + 1 < |s| && f(s[i + 1]) && f(s[j + 1]);
        }
      }
    }
  }

  /** When exactly one element passes, it sits at a position no other passing
      element shares. */
  lemma {:induction false} FilterSingle<T>(s: seq<T>, f: T -> bool)
    ensures |FilterSeq(s, f)| == 1 ==>
              exists i :: 0 <= i < |s| && s[i] == FilterSeq(s, f)[0] && f(s[i])
                          && forall j :: 0 <= j < |s| && j != i ==> !f(s[j])
  {
    if |FilterSeq(s, f)| == 1 {
      var t := s[1..];
      if f(s[0]) {
        FilterNonEmptyIff(t, f);
        forall j | 0 < j < |s| ensures !f(s[j]) { assert s[j] == t[j - 1]; }
      } else {
        FilterSingle(t, f);
        var i :| 0 <= i < |t| && t[i] == FilterSeq(t, f)[0] && f(t[i])
                 && forall j :: 0 <= j < |t| && j != i ==> !f(t[j]);
        forall j | 0 <= j < |s| && j != i + 1 ensures !f(s[j]) {
          if j > 0 { assert s[j] == t[j - 1]; }
        }
        assert s[i + 1] == t[i];
      }
    }
  }

  /** The first element that passes the filter is the passing element at the
      least position. */
  lemma {:induction false} FilterFirst<T>(s: seq<T>, f: T -> bool)
    ensures |FilterSeq(s, f)| > 0 ==>
              exists i :: 0 <= i < |s| && s[i] == FilterSeq(s, f)[0] && f(s[i])
                          && forall j :: 0 <= j < i ==> !f(s[j])
  {
    if |FilterSeq(s, f)| > 0 && !f(s[0]) {
      var t := s[1..];
      FilterFirst(t, f);
      var i :| 0 <= i < |t| && t[i] == FilterSeq(t, f)[0] && f(t[i])
               && forall j :: 0 <= j < i ==> !f(t[j]);
      forall j | 0 <= j < i + 1 ensures !f(s[j]) {
        if j > 0 { assert s[j] == t[j - 1]; }
      }
      assert s[i + 1] == t[i];
    }
  }

  /** Filtering by `f` and by its negation splits `s` without loss. */
  lemma {:induction false} FilterSplits<T>(s: seq<T>, f: T -> bool)
    ensures multiset(FilterSeq(s, f)) + multiset(FilterSeq(s, Not(f))) == multiset(s)
    ensures |FilterSeq(s, f)| + |FilterSeq(s, Not(f))| == |s|
  {
    if |s| > 0 {
      FilterSplits(s[1..], f);
      assert s == [s[0]] + s[1..];
    }
  }

  /** A value-equality predicate, the `{ it == value }` lambda. */
  function EqualTo<T(==)>(v: T): (r: T -> bool) { x => x == v }

  /** Filtering by equality with `v` keeps exactly the occurrences of `v`. */
  lemma {:induction false} FilterEqualToCount<T>(s: seq<T>, v: T)
    ensures |FilterSeq(s, EqualTo(v))| == multiset(s)[v]
  {
    if |s| > 0 {
      FilterEqualToCount(s[1..], v);
      assert s == [s[0]] + s[1..];
    }
  }
}
