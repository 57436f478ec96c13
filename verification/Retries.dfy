/** The retry bound: how often each queued item is handled, and when a queue with no arrivals is done. */
module Retries {
  import opened Sums

  const MAX_RETRIES := 5

  /** The part of a work queue that decides what is still to be done. */
  datatype Backlog<!T> = Backlog(ready: seq<T>, delayed: set<T>, failures: map<T, nat>)

  function Requeues<T>(b: Backlog<T>, x: T): nat
  {
    if x in b.failures then b.failures[x] else 0
  }

  /** A worker takes the first item, handles it, and retries or forgets it. */
  function Handle<T>(b: Backlog<T>, fails: T -> bool): Backlog<T>
    requires b.ready != []
  {
    var x := b.ready[0];
    if fails(x) && Requeues(b, x) < MAX_RETRIES
    then Backlog(b.ready[1..], b.delayed + {x}, b.failures[x := Requeues(b, x) + 1])
    else Backlog(b.ready[1..], b.delayed, b.failures - {x})
  }

  function Due<T>(b: Backlog<T>, x: T): Backlog<T>
    requires x in b.delayed
  {
    Backlog(b.ready + [x], b.delayed - {x}, b.failures)
  }

  datatype Move<T> = Handled | CameDue(x: T)

  predicate CanMove<T>(b: Backlog<T>, m: Move<T>)
  {
    if m.Handled? then b.ready != [] else m.x in b.delayed
  }

  function After<T>(b: Backlog<T>, m: Move<T>, fails: T -> bool): Backlog<T>
    requires CanMove(b, m)
  {
    if m.Handled? then Handle(b, fails) else Due(b, m.x)
  }

  ghost predicate RunFrom<T>(bs: seq<Backlog<T>>, ms: seq<Move<T>>, fails: T -> bool)
  {
    && |bs| == |ms| + 1
    && forall i :: 0 <= i < |ms| ==> MoveAt(bs, ms, i, fails)
  }

  ghost predicate MoveAt<T>(bs: seq<Backlog<T>>, ms: seq<Move<T>>, i: nat, fails: T -> bool)
  {
    i < |ms| && i + 1 < |bs| && CanMove(bs[i], ms[i]) && bs[i + 1] == After(bs[i], ms[i], fails)
  }

  /** What keeps the account exact: nothing twice in line, and failures only of items still around. */
  ghost predicate Fit<T>(b: Backlog<T>, fails: T -> bool)
  {
    && (forall i, j :: 0 <= i < j < |b.ready| ==> b.ready[i] != b.ready[j])
    && (forall x :: x in b.ready ==> x !in b.delayed)
    && (forall x :: x in b.delayed ==> fails(x) && x in b.failures)
    && (forall x :: x in b.failures ==> 1 <= b.failures[x] <= MAX_RETRIES && (x in b.ready || x in b.delayed))
  }

  /** n distinct items in line, none of them handled before. */
  ghost predicate Fresh<T>(b: Backlog<T>)
  {
    && (forall i, j :: 0 <= i < j < |b.ready| ==> b.ready[i] != b.ready[j])
    && b.delayed == {} && b.failures == map[]
  }

  predicate Around<T(==)>(b: Backlog<T>, x: T) { x in b.ready || x in b.delayed }

  /** How often `x` is still going to be handled. */
  function HandlingsLeft<T(==)>(b: Backlog<T>, x: T, fails: T -> bool): int
  {
    if !Around(b, x) then 0 else if fails(x) then MAX_RETRIES + 1 - Requeues(b, x) else 1
  }

  /** How many moves `x` is still going to take: its handlings and the delays between them. */
  function MovesLeft<T(==)>(b: Backlog<T>, x: T, fails: T -> bool): int
  {
    if !Around(b, x) then 0
    else 2 * HandlingsLeft(b, x, fails) - (if x in b.delayed then 0 else 1)
  }

  function HandledNow<T(==)>(b: Backlog<T>, m: Move<T>, x: T): int
  {
    if m.Handled? && b.ready != [] && b.ready[0] == x then 1 else 0
  }

  /** The item a move is about. */
  function Subject<T>(b: Backlog<T>, m: Move<T>): T
    requires CanMove(b, m)
  {
    if m.Handled? then b.ready[0] else m.x
  }

  /** One move uses up exactly one move of its subject, one handling if it is one, and nothing else. */
  lemma MoveAccount<T>(b: Backlog<T>, m: Move<T>, fails: T -> bool, x: T)
    requires Fit(b, fails) && CanMove(b, m)
    ensures HandlingsLeft(After(b, m, fails), x, fails) + HandledNow(b, m, x) == HandlingsLeft(b, x, fails)
    ensures MovesLeft(After(b, m, fails), x, fails) + (if x == Subject(b, m) then 1 else 0) == MovesLeft(b, x, fails)
  {}

  lemma MoveFit<T>(b: Backlog<T>, m: Move<T>, fails: T -> bool)
    requires Fit(b, fails) && CanMove(b, m)
    ensures Fit(After(b, m, fails), fails)
  {}

  lemma {:induction false} RunFit<T>(bs: seq<Backlog<T>>, ms: seq<Move<T>>, i: nat, fails: T -> bool)
    requires RunFrom(bs, ms, fails) && Fresh(bs[0]) && i < |bs|
    ensures Fit(bs[i], fails)
  {
    if i > 0 {
      RunFit(bs, ms, i - 1, fails);
      assert MoveAt(bs, ms, i - 1, fails);
      MoveFit(bs[i - 1], ms[i - 1], fails);
    }
  }

  /** How often `x` was handled in the first `n` moves. */
  function TimesHandled<T(==)>(bs: seq<Backlog<T>>, ms: seq<Move<T>>, n: nat, x: T): int
    requires n <= |ms| < |bs|
  {
    if n == 0 then 0 else TimesHandled(bs, ms, n - 1, x) + HandledNow(bs[n - 1], ms[n - 1], x)
  }

  lemma {:induction false} HandlingAccount<T>(bs: seq<Backlog<T>>, ms: seq<Move<T>>, n: nat, x: T, fails: T -> bool)
    requires RunFrom(bs, ms, fails) && Fresh(bs[0]) && n <= |ms|
    ensures TimesHandled(bs, ms, n, x) + HandlingsLeft(bs[n], x, fails) == HandlingsLeft(bs[0], x, fails)
  {
    if n > 0 {
      HandlingAccount(bs, ms, n - 1, x, fails);
      RunFit(bs, ms, n - 1, fails);
      assert MoveAt(bs, ms, n - 1, fails);
      MoveAccount(bs[n - 1], ms[n - 1], fails, x);
    }
  }

  /**
   * In a run without arrivals no item is handled more than six times; once the queue is drained an
   * item whose handler always fails has been handled exactly six times and is forgotten, any other
   * exactly once.
   */
  lemma BoundedRetries<T>(bs: seq<Backlog<T>>, ms: seq<Move<T>>, n: nat, x: T, fails: T -> bool)
    requires RunFrom(bs, ms, fails) && Fresh(bs[0]) && n <= |ms| && x in bs[0].ready
    ensures TimesHandled(bs, ms, n, x) <= if fails(x) then 6 else 1
    ensures !Around(bs[n], x) ==>
      TimesHandled(bs, ms, n, x) == (if fails(x) then 6 else 1) && x !in bs[n].failures
  {
    HandlingAccount(bs, ms, n, x, fails);
    RunFit(bs, ms, n, fails);
  }

  lemma MovesDecrease<T>(b: Backlog<T>, m: Move<T>, fails: T -> bool, items: set<T>)
    requires Fit(b, fails) && CanMove(b, m) && Subject(b, m) in items
    ensures Sum(items, (x: T) => MovesLeft(After(b, m, fails), x, fails)) + 1 == Sum(items, (x: T) => MovesLeft(b, x, fails))
  {
    var f := (x: T) => MovesLeft(b, x, fails);
    var g := (x: T) => MovesLeft(After(b, m, fails), x, fails);
    var x := Subject(b, m);
    SumPick(items, f, x);
    SumPick(items, g, x);
    forall y | y in items - {x} ensures f(y) == g(y) {
      MoveAccount(b, m, fails, y);
    }
    SumCong(items - {x}, f, g);
    MoveAccount(b, m, fails, x);
  }

  ghost function AllMovesLeft<T>(b: Backlog<T>, fails: T -> bool, items: set<T>): int
  {
    Sum(items, (x: T) => MovesLeft(b, x, fails))
  }

  lemma AllMovesLeftIsNat<T>(b: Backlog<T>, fails: T -> bool, items: set<T>)
    requires Fit(b, fails)
    ensures AllMovesLeft(b, fails, items) >= 0
  {
    SumZero(items, (x: T) => 0);
    SumMonotone(items, (x: T) => 0, (x: T) => MovesLeft(b, x, fails));
  }

  lemma {:induction false} NoArrivals<T>(bs: seq<Backlog<T>>, ms: seq<Move<T>>, n: nat, fails: T -> bool, items: set<T>)
    requires RunFrom(bs, ms, fails) && Fresh(bs[0]) && n < |bs|
    requires forall x :: x in items <==> x in bs[0].ready
    ensures forall x :: Around(bs[n], x) ==> x in items
  {
    if n > 0 {
      NoArrivals(bs, ms, n - 1, fails, items);
      assert MoveAt(bs, ms, n - 1, fails);
      forall x | Around(bs[n], x) ensures x in items {
        assert Around(bs[n - 1], x);
      }
    }
  }

  lemma {:induction false} MoveBudget<T>(bs: seq<Backlog<T>>, ms: seq<Move<T>>, n: nat, fails: T -> bool, items: set<T>)
    requires RunFrom(bs, ms, fails) && Fresh(bs[0]) && n < |bs|
    requires forall x :: x in items <==> x in bs[0].ready
    ensures n + Sum(items, (x: T) => MovesLeft(bs[n], x, fails)) == Sum(items, (x: T) => MovesLeft(bs[0], x, fails))
  {
    if n > 0 {
      MoveBudget(bs, ms, n - 1, fails, items);
      RunFit(bs, ms, n - 1, fails);
      NoArrivals(bs, ms, n - 1, fails, items);
      assert MoveAt(bs, ms, n - 1, fails);
      var s := Subject(bs[n - 1], ms[n - 1]);
      assert Around(bs[n - 1], s);
      MovesDecrease(bs[n - 1], ms[n - 1], fails, items);
    }
  }

  /**
   * Draining terminates: a run without arrivals over n items has at most 11 n moves (six handlings and
   * five delays each), and it is never stuck before the queue is empty.
   */
  lemma DrainTerminates<T>(bs: seq<Backlog<T>>, ms: seq<Move<T>>, fails: T -> bool, items: set<T>)
    requires RunFrom(bs, ms, fails) && Fresh(bs[0])
    requires forall x :: x in items <==> x in bs[0].ready
    ensures |ms| <= 11 * |items|
    ensures (exists m: Move<T> :: CanMove(bs[|ms|], m)) <==> (exists x :: Around(bs[|ms|], x))
  {
    var n := |ms|;
    MoveBudget(bs, ms, n, fails, items);
    RunFit(bs, ms, n, fails);
    var now, first := (x: T) => MovesLeft(bs[n], x, fails), (x: T) => MovesLeft(bs[0], x, fails);
    SumMonotone(items, (x: T) => 0, now);
    SumZero(items, (x: T) => 0);
    SumMonotone(items, first, (x: T) => 2 * MAX_RETRIES + 1);
    SumConstant(items, 2 * MAX_RETRIES + 1);
    if x :| Around(bs[n], x) {
      if x in bs[n].ready {
        assert CanMove(bs[n], Move<T>.Handled);
      } else {
        assert CanMove(bs[n], CameDue(x));
      }
    }
    if m: Move<T> :| CanMove(bs[n], m) {
      assert Around(bs[n], Subject(bs[n], m));
    }
  }

  lemma {:induction false} SumConstant<T>(xs: set<T>, c: int)
    ensures Sum(xs, (x: T) => c) == c * |xs|
    decreases |xs|
  {
    if xs != {} {
      var x :| x in xs;
      SumPick(xs, (y: T) => c, x);
      SumConstant(xs - {x}, c);
    }
  }

  /** How many of the first `n` moves were handlings. */
  function Handlings<T>(ms: seq<Move<T>>, n: nat): int
    requires n <= |ms|
  {
    if n == 0 then 0 else Handlings(ms, n - 1) + if ms[n - 1].Handled? then 1 else 0
  }

  lemma HandlingsDecrease<T>(b: Backlog<T>, m: Move<T>, fails: T -> bool, items: set<T>)
    requires Fit(b, fails) && CanMove(b, m) && Subject(b, m) in items
    ensures Sum(items, (x: T) => HandlingsLeft(After(b, m, fails), x, fails)) + (if m.Handled? then 1 else 0)
         == Sum(items, (x: T) => HandlingsLeft(b, x, fails))
  {
    var f := (x: T) => HandlingsLeft(b, x, fails);
    var g := (x: T) => HandlingsLeft(After(b, m, fails), x, fails);
    var x := Subject(b, m);
    SumPick(items, f, x);
    SumPick(items, g, x);
    forall y | y in items - {x} ensures f(y) == g(y) {
      MoveAccount(b, m, fails, y);
    }
    SumCong(items - {x}, f, g);
    MoveAccount(b, m, fails, x);
  }

  lemma {:induction false} HandlingBudget<T>(bs: seq<Backlog<T>>, ms: seq<Move<T>>, n: nat, fails: T -> bool,
                                             items: set<T>)
    requires RunFrom(bs, ms, fails) && Fresh(bs[0]) && n <= |ms|
    requires forall x :: x in items <==> x in bs[0].ready
    ensures Handlings(ms, n) + Sum(items, (x: T) => HandlingsLeft(bs[n], x, fails))
         == Sum(items, (x: T) => HandlingsLeft(bs[0], x, fails))
  {
    if n > 0 {
      HandlingBudget(bs, ms, n - 1, fails, items);
      RunFit(bs, ms, n - 1, fails);
      NoArrivals(bs, ms, n - 1, fails, items);
      assert MoveAt(bs, ms, n - 1, fails);
      assert Around(bs[n - 1], Subject(bs[n - 1], ms[n - 1]));
      HandlingsDecrease(bs[n - 1], ms[n - 1], fails, items);
    }
  }

  /** A drained run over n items took at most 6 n handlings: six for each failing item, one for each other. */
  lemma DrainCost<T>(bs: seq<Backlog<T>>, ms: seq<Move<T>>, fails: T -> bool, items: set<T>)
    requires RunFrom(bs, ms, fails) && Fresh(bs[0])
    requires forall x :: x in items <==> x in bs[0].ready
    requires forall x :: !Around(bs[|ms|], x)
    ensures Handlings(ms, |ms|) == Sum(items, (x: T) => if fails(x) then 6 else 1)
    ensures Handlings(ms, |ms|) <= 6 * |items|
  {
    HandlingBudget(bs, ms, |ms|, fails, items);
    SumZero(items, (x: T) => HandlingsLeft(bs[|ms|], x, fails));
    var cost := (x: T) => if fails(x) then 6 else 1;
    SumCong(items, (x: T) => HandlingsLeft(bs[0], x, fails), cost);
    SumMonotone(items, cost, (x: T) => MAX_RETRIES + 1);
    SumConstant(items, MAX_RETRIES + 1);
  }
}
