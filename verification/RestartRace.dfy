/**
 * Concurrent AddPod calls: each check-and-raise of a high-water mark is one step under the collector's
 * lock, and the counter is charged in a later step of its own. Any number of calls may interleave.
 */
module RestartRace {
  import opened Wrappers
  import opened RestartLedger
  import opened Sums

  /** A call in flight: what it has still to look at, and the charge it has decided on but not made. */
  datatype Call = Call(todo: seq<Observation>, owed: Option<Observation>)

  datatype Race = Race(
    ledger: Ledger,
    calls: map<nat, Call>,
    // History, recorded but never consulted by a step.
    order: seq<Observation>,    // every check, in the order the lock was acquired
    raised: seq<Observation>,   // the checks that raised a mark
    charged: seq<Observation>)  // the charges made, as they were made

  datatype Label =
    | Started(id: nat, os: seq<Observation>)
    | Checked(id: nat)
    | Charged(id: nat)

  function Raise(l: Ledger, o: Observation): Ledger
  {
    if o.count > Mark(l, o.key) then l.(marks := l.marks[o.key := o.count]) else l
  }

  ghost predicate Step(r: Race, l: Label, r': Race)
  {
    match l
    case Started(id, os) =>
      id !in r.calls && r' == r.(calls := r.calls[id := Call(os, None)])
    case Checked(id) =>
      && id in r.calls && r.calls[id].todo != [] && r.calls[id].owed.None?
      && var o := r.calls[id].todo[0];
         var raises := o.count > Mark(r.ledger, o.key);
         r' == Race(Raise(r.ledger, o),
                    r.calls[id := Call(r.calls[id].todo[1..], if raises && o.duration > 0 then Some(o) else None)],
                    r.order + [o], if raises then r.raised + [o] else r.raised, r.charged)
    case Charged(id) =>
      && id in r.calls && r.calls[id].owed.Some?
      && var o := r.calls[id].owed.value;
         r' == r.(ledger := r.ledger.(cpu := Charge(r.ledger.cpu, o.labels, o.duration)),
                  calls := r.calls[id := r.calls[id].(owed := None)],
                  charged := r.charged + [o])
  }

  ghost predicate StepAt(rs: seq<Race>, ls: seq<Label>, i: nat)
  {
    i < |ls| && i + 1 < |rs| && Step(rs[i], ls[i], rs[i + 1])
  }

  ghost predicate Run(rs: seq<Race>, ls: seq<Label>)
  {
    |rs| == |ls| + 1 && forall i :: 0 <= i < |ls| ==> StepAt(rs, ls, i)
  }

  ghost predicate Initial(r: Race, start: Ledger)
  {
    r == Race(start, map[], [], [], [])
  }

  // ----- the account -----

  /** What a call owes, weighed by `weigh`. */
  function Owes(c: Call, weigh: Observation -> int): int
  {
    if c.owed.Some? then weigh(c.owed.value) else 0
  }

  ghost function OwedBy(calls: map<nat, Call>, weigh: Observation -> int): nat -> int
  {
    id => if id in calls then Owes(calls[id], weigh) else 0
  }

  /** The charges decided on but not made yet. */
  ghost function Debt(calls: map<nat, Call>, weigh: Observation -> int): int
  {
    Sum(calls.Keys, OwedBy(calls, weigh))
  }

  function On(labels: CpuLabels): Observation -> int
  {
    (o: Observation) => if o.labels == labels then o.duration else 0
  }

  function Times(o: Observation): Observation -> int
  {
    (p: Observation) => if p == o then 1 else 0
  }

  lemma DebtUpdate(calls: map<nat, Call>, id: nat, c: Call, weigh: Observation -> int)
    ensures Debt(calls[id := c], weigh) ==
      Debt(calls, weigh) - (if id in calls then Owes(calls[id], weigh) else 0) + Owes(c, weigh)
  {
    var next := calls[id := c];
    var f, g := OwedBy(calls, weigh), OwedBy(next, weigh);
    SumPick(next.Keys, g, id);
    SumCong(next.Keys - {id}, f, g);
    if id in calls {
      SumPick(calls.Keys, f, id);
      assert calls.Keys - {id} == next.Keys - {id};
    } else {
      assert calls.Keys == next.Keys - {id};
    }
  }

  /** The raises that entail a charge. */
  function Paying(raised: seq<Observation>): seq<Observation>
  {
    if raised == [] then [] else
      Paying(raised[..|raised| - 1]) + if raised[|raised| - 1].duration > 0 then [raised[|raised| - 1]] else []
  }

  lemma PayingOne(raised: seq<Observation>, o: Observation)
    ensures Paying(raised + [o]) == Paying(raised) + if o.duration > 0 then [o] else []
  {
    assert (raised + [o])[..|raised|] == raised;
  }

  /** The charges made and the charges owed are, one for one, the raises with a positive duration. */
  ghost predicate ChargesMatch(r: Race)
  {
    forall o :: OneForOne(r, o)
  }

  ghost predicate OneForOne(r: Race, o: Observation)
  {
    multiset(r.charged)[o] + Debt(r.calls, Times(o)) == multiset(Paying(r.raised))[o]
  }

  /** In the order they got the lock, raises of one container go strictly up. */
  ghost predicate Ascending(raised: seq<Observation>)
  {
    forall i, j :: 0 <= i < j < |raised| && raised[i].key == raised[j].key ==> raised[i].count < raised[j].count
  }

  ghost predicate Balanced(r: Race, start: Ledger)
  {
    && r.ledger.marks == ObserveAll(start, r.order).marks
    && (forall labels :: Cpu(r.ledger, labels) + Debt(r.calls, On(labels)) == Cpu(ObserveAll(start, r.order), labels))
    && Ascending(r.raised)
    && (forall i :: 0 <= i < |r.raised| ==> r.raised[i].count <= Mark(r.ledger, r.raised[i].key))
  }

  /** A check moves what the lock order accounts for from nowhere into debt, never into the counter. */
  lemma CheckAccount(r: Race, id: nat, r': Race, start: Ledger, labels: CpuLabels)
    requires Balanced(r, start) && Step(r, Checked(id), r')
    ensures r'.ledger.marks == ObserveAll(start, r'.order).marks
    ensures Cpu(r'.ledger, labels) + Debt(r'.calls, On(labels)) == Cpu(ObserveAll(start, r'.order), labels)
  {
    var o := r.calls[id].todo[0];
    var before := ObserveAll(start, r.order);
    ObserveOne(start, r.order, o);
    assert Mark(before, o.key) == Mark(r.ledger, o.key);
    DebtUpdate(r.calls, id, r'.calls[id], On(labels));
    assert Cpu(r.ledger, labels) + Debt(r.calls, On(labels)) == Cpu(before, labels);
  }

  lemma CheckAscends(r: Race, id: nat, r': Race, start: Ledger)
    requires Balanced(r, start) && Step(r, Checked(id), r')
    ensures Ascending(r'.raised)
    ensures forall i :: 0 <= i < |r'.raised| ==> r'.raised[i].count <= Mark(r'.ledger, r'.raised[i].key)
  {}

  lemma CheckBalanced(r: Race, id: nat, r': Race, start: Ledger)
    requires Balanced(r, start) && Step(r, Checked(id), r')
    ensures Balanced(r', start)
  {
    CheckAscends(r, id, r', start);
    CheckAccount(r, id, r', start, CpuLabels("", "", "", ""));
    forall labels
      ensures Cpu(r'.ledger, labels) + Debt(r'.calls, On(labels)) == Cpu(ObserveAll(start, r'.order), labels)
    {
      CheckAccount(r, id, r', start, labels);
    }
  }

  lemma StepBalanced(r: Race, l: Label, r': Race, start: Ledger)
    requires Balanced(r, start) && Step(r, l, r')
    ensures Balanced(r', start)
  {
    match l
    case Checked(id) => CheckBalanced(r, id, r', start);
    case Started(id, os) =>
      forall labels ensures Debt(r'.calls, On(labels)) == Debt(r.calls, On(labels)) {
        DebtUpdate(r.calls, id, Call(os, None), On(labels));
      }
    case Charged(id) =>
      forall labels
        ensures Cpu(r'.ledger, labels) + Debt(r'.calls, On(labels)) == Cpu(ObserveAll(start, r.order), labels)
      {
        DebtUpdate(r.calls, id, r'.calls[id], On(labels));
      }
  }

  lemma {:induction false} RunBalanced(rs: seq<Race>, ls: seq<Label>, i: nat, start: Ledger)
    requires Run(rs, ls) && Initial(rs[0], start) && i < |rs|
    ensures Balanced(rs[i], start)
  {
    if i > 0 {
      RunBalanced(rs, ls, i - 1, start);
      assert StepAt(rs, ls, i - 1);
      StepBalanced(rs[i - 1], ls[i - 1], rs[i], start);
    }
  }

  // ----- every charge is one raise -----

  lemma CheckOneForOne(r: Race, id: nat, r': Race, o: Observation)
    requires OneForOne(r, o) && Step(r, Checked(id), r')
    ensures OneForOne(r', o)
  {
    var seen := r.calls[id].todo[0];
    DebtUpdate(r.calls, id, r'.calls[id], Times(o));
    if r'.raised != r.raised {
      PayingOne(r.raised, seen);
      assert multiset(Paying(r'.raised))[o] ==
        multiset(Paying(r.raised))[o] + if seen == o && seen.duration > 0 then 1 else 0;
    }
  }

  lemma ChargeOneForOne(r: Race, id: nat, r': Race, o: Observation)
    requires OneForOne(r, o) && Step(r, Charged(id), r')
    ensures OneForOne(r', o)
  {
    DebtUpdate(r.calls, id, r'.calls[id], Times(o));
    assert multiset(r'.charged)[o] == multiset(r.charged)[o] + if r.calls[id].owed.value == o then 1 else 0;
  }

  lemma StepChargesMatch(r: Race, l: Label, r': Race)
    requires ChargesMatch(r) && Step(r, l, r')
    ensures ChargesMatch(r')
  {
    forall o ensures OneForOne(r', o) {
      assert OneForOne(r, o);
      match l
      case Started(id, os) => DebtUpdate(r.calls, id, Call(os, None), Times(o));
      case Checked(id) => CheckOneForOne(r, id, r', o);
      case Charged(id) => ChargeOneForOne(r, id, r', o);
    }
  }

  lemma InitiallyChargesMatch(r: Race, start: Ledger)
    requires Initial(r, start)
    ensures ChargesMatch(r)
  {
    forall o ensures OneForOne(r, o) {
      SumZero(r.calls.Keys, OwedBy(r.calls, Times(o)));
    }
  }

  lemma {:induction false} RunChargesMatch(rs: seq<Race>, ls: seq<Label>, i: nat, start: Ledger)
    requires Run(rs, ls) && Initial(rs[0], start) && i < |rs|
    ensures ChargesMatch(rs[i])
  {
    if i == 0 {
      InitiallyChargesMatch(rs[0], start);
    } else {
      RunChargesMatch(rs, ls, i - 1, start);
      assert StepAt(rs, ls, i - 1);
      StepChargesMatch(rs[i - 1], ls[i - 1], rs[i]);
    }
  }

  lemma AscendingFront(raised: seq<Observation>, n: nat)
    requires Ascending(raised) && n < |raised|
    ensures Ascending(raised[..n]) && raised[n] !in raised[..n]
  {
    var front := raised[..n];
    assert forall i :: 0 <= i < n ==> front[i] == raised[i];
    forall i | 0 <= i < n ensures front[i] != raised[n] {
      assert raised[i].key != raised[n].key || raised[i].count < raised[n].count;
    }
  }

  /** That a raise is paid for, and once only. */
  ghost predicate PaidOnce(raised: seq<Observation>, o: Observation)
  {
    && multiset(Paying(raised))[o] <= 1
    && (o in Paying(raised) <==> o in raised && o.duration > 0)
  }

  lemma PaidOnceMore(raised: seq<Observation>, last: Observation, o: Observation)
    requires PaidOnce(raised, o) && last !in raised
    ensures PaidOnce(raised + [last], o)
  {
    PayingOne(raised, last);
    if last.duration <= 0 {
      assert Paying(raised + [last]) == Paying(raised);
    }
  }

  /** What is paid for was raised, and was raised once only. */
  lemma {:induction false} PayingOnce(raised: seq<Observation>, o: Observation)
    requires Ascending(raised)
    ensures PaidOnce(raised, o)
    decreases |raised|
  {
    if raised != [] {
      var n := |raised| - 1;
      AscendingFront(raised, n);
      PayingOnce(raised[..n], o);
      PaidOnceMore(raised[..n], raised[n], o);
      assert raised == raised[..n] + [raised[n]];
    }
  }

  lemma {:induction false} DebtNotNegative(calls: map<nat, Call>, o: Observation)
    ensures Debt(calls, Times(o)) >= 0
  {
    var none := (id: nat) => 0;
    SumZero(calls.Keys, none);
    SumMonotone(calls.Keys, none, OwedBy(calls, Times(o)));
  }

  lemma TwiceCounted(os: seq<Observation>, i: nat, j: nat)
    requires i < j < |os| && os[i] == os[j]
    ensures multiset(os)[os[i]] >= 2
  {
    assert os == os[..i] + [os[i]] + os[i + 1..j] + [os[j]] + os[j + 1..];
  }

  /**
   * At most once: in any interleaving of any number of calls, no two charges made are for the same
   * container and restart count, each was decided by a check that raised the mark, and these checks got
   * the lock in strictly ascending order of the counts.
   */
  lemma AtMostOnce(rs: seq<Race>, ls: seq<Label>, n: nat, start: Ledger)
    requires Run(rs, ls) && Initial(rs[0], start) && n < |rs|
    ensures var charged, raised := rs[n].charged, rs[n].raised;
      && (forall i, j :: 0 <= i < j < |charged| ==> charged[i].key != charged[j].key || charged[i].count != charged[j].count)
      && (forall i :: 0 <= i < |charged| ==> charged[i] in raised && charged[i].duration > 0)
      && (forall i, j :: 0 <= i < j < |raised| && raised[i].key == raised[j].key ==> raised[i].count < raised[j].count)
  {
    RunBalanced(rs, ls, n, start);
    RunChargesMatch(rs, ls, n, start);
    var charged, raised := rs[n].charged, rs[n].raised;
    forall i | 0 <= i < |charged| ensures charged[i] in raised && charged[i].duration > 0 {
      ChargedWasRaised(rs[n], charged[i]);
    }
    forall i, j | 0 <= i < j < |charged|
      ensures charged[i].key != charged[j].key || charged[i].count != charged[j].count
    {
      ChargedOnce(rs[n], i, j);
    }
  }

  lemma ChargedWasRaised(r: Race, o: Observation)
    requires ChargesMatch(r) && Ascending(r.raised) && o in r.charged
    ensures o in r.raised && o.duration > 0
    ensures multiset(r.charged)[o] <= 1
  {
    assert OneForOne(r, o);
    DebtNotNegative(r.calls, o);
    PayingOnce(r.raised, o);
    assert o in multiset(r.charged);
    assert o in multiset(Paying(r.raised));
  }

  lemma ChargedOnce(r: Race, i: nat, j: nat)
    requires ChargesMatch(r) && Ascending(r.raised) && i < j < |r.charged|
    ensures r.charged[i].key != r.charged[j].key || r.charged[i].count != r.charged[j].count
  {
    ChargedWasRaised(r, r.charged[i]);
    ChargedWasRaised(r, r.charged[j]);
    if r.charged[i] == r.charged[j] {
      TwiceCounted(r.charged, i, j);
    }
  }

  /** The charges made, and those still owed, are exactly the raises with a positive duration. */
  lemma ChargesAreRaises(rs: seq<Race>, ls: seq<Label>, n: nat, start: Ledger)
    requires Run(rs, ls) && Initial(rs[0], start) && n < |rs|
    ensures ChargesMatch(rs[n])
    ensures (forall id :: id in rs[n].calls ==> rs[n].calls[id].owed.None?) ==>
      multiset(rs[n].charged) == multiset(Paying(rs[n].raised))
  {
    RunChargesMatch(rs, ls, n, start);
    if forall id :: id in rs[n].calls ==> rs[n].calls[id].owed.None? {
      forall o ensures multiset(rs[n].charged)[o] == multiset(Paying(rs[n].raised))[o] {
        assert OneForOne(rs[n], o);
        SumZero(rs[n].calls.Keys, OwedBy(rs[n].calls, Times(o)));
      }
    }
  }

  /**
   * And nothing is lost: once every charge decided on has been made, marks and counters are those of
   * one caller observing everything alone, in the order the lock was acquired.
   */
  lemma RaceLinearises(rs: seq<Race>, ls: seq<Label>, n: nat, start: Ledger)
    requires Run(rs, ls) && Initial(rs[0], start) && n < |rs|
    requires forall id :: id in rs[n].calls ==> rs[n].calls[id].owed.None?
    ensures rs[n].ledger.marks == ObserveAll(start, rs[n].order).marks
    ensures forall labels :: Cpu(rs[n].ledger, labels) == Cpu(ObserveAll(start, rs[n].order), labels)
  {
    RunBalanced(rs, ls, n, start);
    forall labels ensures Cpu(rs[n].ledger, labels) == Cpu(ObserveAll(start, rs[n].order), labels) {
      SumZero(rs[n].calls.Keys, OwedBy(rs[n].calls, On(labels)));
    }
  }
}
