/** Worked examples of the balance fold and the settlement minimiser on
    concrete groups: the documented two-member dinner, a tie between two
    creditors, and three inputs that mark the limits of the minimiser's
    promises (a zero-cent transfer, a member left just beyond Eps, and a
    plan that is not the shortest). Every scenario takes its data as
    parameters pinned down by its precondition. */
module SettlementScenarios {
  import opened Base
  import opened Money
  import opened Ledger
  import opened Records
  import opened GroupBalances
  import opened SettlementCalculator
  import opened SettlementProperties

  // ---------------------------------------------------------------------
  // Evaluation steps
  // ---------------------------------------------------------------------

  /** Partitioning one more entry of the map. */
  lemma PartitionPrefix(b: seq<Entry>, k: nat)
    requires k < |b|
    ensures Debtors(b[..k + 1]) ==
      Debtors(b[..k]) + (if b[k].amount < -Eps then [Entry(b[k].user, -b[k].amount)] else [])
    ensures Creditors(b[..k + 1]) == Creditors(b[..k]) + (if b[k].amount > Eps then [b[k]] else [])
  {
    assert b[..k + 1][..k] == b[..k];
  }

  /** Sorting a list whose amounts already descend leaves it as it is. */
  lemma {:induction false} SortedAlready(s: seq<Entry>)
    requires forall i :: 0 < i < |s| ==> s[i - 1].amount >= s[i].amount
    ensures SortDesc(s) == s
  {
    if s != [] {
      var init := s[..|s| - 1];
      SortedAlready(init);
      assert s == init + [s[|s| - 1]];
    }
  }

  /** One greedy step. */
  lemma Step(ds: seq<Entry>, cs: seq<Entry>, t: real, ds': seq<Entry>, cs': seq<Entry>)
    requires ds != [] && cs != [] && t == Min(ds[0].amount, cs[0].amount) && t >= Eps
    requires Reduce(ds, t) == ds' && Reduce(cs, t) == cs'
    ensures Greedy(ds, cs) == [Transfer(ds[0].user, cs[0].user, t)] + Greedy(ds', cs')
  {
  }

  /** Rounding leaves whole-cent balances as they are. */
  lemma RoundWhole(b: seq<Entry>)
    requires forall i :: 0 <= i < |b| ==> IsCents(b[i].amount)
    ensures MapAmounts(b, Round2) == b
  {
    forall i | 0 <= i < |b| ensures MapAmounts(b, Round2)[i] == b[i] {
      RoundCents(b[i].amount);
    }
  }

  /** Rounding leaves whole-cent transfers as they are. */
  lemma RoundWholeTransfers(ts: seq<Transfer>)
    requires forall i :: 0 <= i < |ts| ==> IsCents(ts[i].amount)
    ensures RoundTransfers(ts) == ts
  {
    forall i | 0 <= i < |ts| ensures RoundTransfers(ts)[i] == ts[i] {
      RoundCents(ts[i].amount);
    }
  }

  lemma WholeAmount(n: int)
    ensures IsCents(n as real)
  {
    CentsOf(n * 100);
    assert (n * 100) as real / 100.0 == n as real;
  }

  /** What each party sends and receives under one transfer. */
  lemma OneFlow(t: Transfer, u: UserId)
    ensures SentBy([t], u) == if t.from == u then t.amount else 0.0
    ensures ReceivedBy([t], u) == if t.to == u then t.amount else 0.0
  {
    assert [t][1..] == [];
  }

  /** What each party sends and receives under three transfers. */
  lemma ThreeFlows(ts: seq<Transfer>, u: UserId)
    requires |ts| == 3
    ensures SentBy(ts, u) ==
      (if ts[0].from == u then ts[0].amount else 0.0) +
      (if ts[1].from == u then ts[1].amount else 0.0) +
      (if ts[2].from == u then ts[2].amount else 0.0)
    ensures ReceivedBy(ts, u) ==
      (if ts[0].to == u then ts[0].amount else 0.0) +
      (if ts[1].to == u then ts[1].amount else 0.0) +
      (if ts[2].to == u then ts[2].amount else 0.0)
  {
    assert ts[1..][1..] == [ts[2]];
    OneFlow(ts[2], u);
  }

  /** A whole number of cents strictly between 0 and half a cent away
      from a positive amount under half a cent is 0. */
  lemma RoundsToZero(x: real)
    requires 0.0 < x < 0.005
    ensures Round2(x) == 0.0
  {
    var r := Round2(x);
    var n := (r * 100.0).Floor;
    assert n as real == r * 100.0;
    assert -0.5 < n as real < 1.0;
  }

  // ---------------------------------------------------------------------
  // The documented scenario
  // ---------------------------------------------------------------------

  /** Two members whose balances cancel, one owed `x` above Eps and the
      other owing it: the plan is one transfer of `x` from the debtor to
      the creditor. */
  lemma PairPlan(b: seq<Entry>, u: UserId, v: UserId, x: real)
    requires x > Eps && b == [Entry(u, x), Entry(v, -x)]
    ensures Plan(b) == [Transfer(v, u, x)]
  {
    assert Debtors(b) == [Entry(v, x)] && Creditors(b) == [Entry(u, x)] by {
      PartitionPrefix(b, 0);
      PartitionPrefix(b, 1);
      assert b[..0] == [] && b[..2] == b;
    }
    assert SortDesc([Entry(v, x)]) == [Entry(v, x)] && SortDesc([Entry(u, x)]) == [Entry(u, x)] by {
      SortedAlready([Entry(v, x)]);
      SortedAlready([Entry(u, x)]);
    }
    Step([Entry(v, x)], [Entry(u, x)], x, [], []);
  }

  /** The same pair, for a whole number of cents: the reported settlement
      is that one transfer, unrounded. */
  lemma PairSettles(b: seq<Entry>, u: UserId, v: UserId, x: real)
    requires x > Eps && IsCents(x) && b == [Entry(u, x), Entry(v, -x)]
    ensures Settlements(b) == [Transfer(v, u, x)]
  {
    PairPlan(b, u, v, x);
    RoundWholeTransfers([Transfer(v, u, x)]);
  }

  /** A map read off member by member. */
  lemma TwoEntries(r: seq<Entry>, u: UserId, v: UserId)
    requires Users(r) == [u, v] && u != v
    ensures r == [Entry(u, Lookup(r, u)), Entry(v, Lookup(r, v))]
  {
    assert IndexOf(Users(r), u) == 0;
    assert IndexOf(Users(r), v) == 1;
  }

  /** Charging an expense of `h + h` paid by `u` and split equally
      between `u` and `v` to a map holding 0 for both. */
  lemma SplitEffect(init: seq<Entry>, e: Expense, u: UserId, v: UserId, h: real)
    requires u != v && Users(init) == [u, v] && Lookup(init, u) == 0.0 && Lookup(init, v) == 0.0
    requires e.payer == u && e.amount == h + h && e.splitType == "equal" && e.participants == [u, v]
    ensures ApplyExpense(init, e) == Some([Entry(u, h), Entry(v, -h)])
  {
    assert KnownParties(Users(init), e);
    var r := ApplyExpense(init, e).value;
    assert Count([u, v], u) == 1 && Count([u, v], v) == 1 by {
      assert [u, v][..1] == [u];
      assert [u, v][..1][..0] == [];
    }
    assert Lookup(r, u) == h by {
      assert Times(1, e.amount / 2 as real) == h;
      ExpenseEffect(init, e, u);
    }
    assert Lookup(r, v) == -h by {
      assert Times(1, e.amount / 2 as real) == h;
      ExpenseEffect(init, e, v);
    }
    TwoEntries(r, u, v);
  }

  /** An expense of `h + h` paid by `u` and split equally between `u` and
      `v` leaves `u` owed `h` and `v` owing `h`. */
  lemma SplitBetweenTwo(members: seq<UserId>, e: Expense, u: UserId, v: UserId, h: real)
    requires u != v && members == [u, v]
    requires e.payer == u && e.amount == h + h && e.splitType == "equal" && e.participants == [u, v]
    ensures RawBalances(members, [e], []) == Some([Entry(u, h), Entry(v, -h)])
  {
    var init := FromKeys(members, 0.0);
    assert Users(init) == [u, v] && Lookup(init, u) == 0.0 && Lookup(init, v) == 0.0 by {
      StartsAtZero(members);
    }
    SplitEffect(init, e, u, v, h);
    assert ApplyExpenses(init, [e]) == Some([Entry(u, h), Entry(v, -h)]) by {
      assert [e][..0] == [];
    }
  }

  /** The dinner of the documented example: 100 paid by member 1 and split
      equally with member 2 leaves 1 owed 50 and 2 owing 50, and the
      minimiser proposes one transfer of 50 from member 2 to member 1. */
  lemma DinnerForTwo(members: seq<UserId>, e: Expense, fifty: real)
    requires fifty == 50.0 && members == [1, 2]
    requires e == Expense(7, 1, fifty + fifty, Some("Dinner"), None, "equal", members, [])
    ensures Balances(members, [e], []) == Some([Entry(1, fifty), Entry(2, -fifty)])
    ensures Settlements(Balances(members, [e], []).value) == [Transfer(2, 1, fifty)]
  {
    SplitBetweenTwo(members, e, 1, 2, fifty);
    assert IsCents(fifty) && IsCents(-fifty) by {
      WholeAmount(50);
      WholeAmount(-50);
    }
    RoundWhole([Entry(1, fifty), Entry(2, -fifty)]);
    PairSettles([Entry(1, fifty), Entry(2, -fifty)], 1, 2, fifty);
  }

  // ---------------------------------------------------------------------
  // Ties, and the limits of the minimiser's promises
  // ---------------------------------------------------------------------

  lemma TiedPartition(b: seq<Entry>, u1: UserId, u2: UserId, w: UserId, x: real)
    requires x > Eps && b == [Entry(u1, x), Entry(u2, x), Entry(w, -(x + x))]
    ensures Debtors(b) == [Entry(w, x + x)] && Creditors(b) == [Entry(u1, x), Entry(u2, x)]
  {
    PartitionPrefix(b, 0);
    PartitionPrefix(b, 1);
    PartitionPrefix(b, 2);
    assert b[..0] == [] && b[..3] == b;
  }

  lemma TiedGreedy(ds: seq<Entry>, cs: seq<Entry>, u1: UserId, u2: UserId, w: UserId, x: real)
    requires x > Eps && ds == [Entry(w, x + x)] && cs == [Entry(u1, x), Entry(u2, x)]
    ensures Greedy(ds, cs) == [Transfer(w, u1, x), Transfer(w, u2, x)]
  {
    assert Greedy([Entry(w, x)], [Entry(u2, x)]) == [Transfer(w, u2, x)] by {
      Step([Entry(w, x)], [Entry(u2, x)], x, [], []);
    }
    Step(ds, cs, x, [Entry(w, x)], [Entry(u2, x)]);
  }

  /** Two creditors owed the same amount are paid in the balance map's
      order: the stable sort keeps the first of them ahead. */
  lemma TiedCreditors(b: seq<Entry>, u1: UserId, u2: UserId, w: UserId, x: real)
    requires x > Eps && b == [Entry(u1, x), Entry(u2, x), Entry(w, -(x + x))]
    ensures Plan(b) == [Transfer(w, u1, x), Transfer(w, u2, x)]
  {
    var ds, cs := [Entry(w, x + x)], [Entry(u1, x), Entry(u2, x)];
    TiedPartition(b, u1, u2, w, x);
    SortedAlready(ds);
    SortedAlready(cs);
    TiedGreedy(ds, cs, u1, u2, w, x);
  }

  /** A debt under half a cent (but above Eps) still produces a transfer,
      which rounding reports as 0.0: the minimiser's threshold is Eps, not
      a cent. */
  lemma ZeroCentTransfer(b: seq<Entry>, u: UserId, v: UserId, x: real)
    requires Eps < x < 0.005 && b == [Entry(u, x), Entry(v, -x)]
    ensures Settlements(b) == [Transfer(v, u, 0.0)]
  {
    PairPlan(b, u, v, x);
    RoundsToZero(x);
  }

  /** `Total` of a suffix, one item at a time. */
  lemma TotalFrom(b: seq<Entry>, k: nat)
    requires k < |b|
    ensures Total(b[k..]) == b[k].amount + Total(b[k + 1..])
  {
    assert b[k..][1..] == b[k + 1..];
  }

  /** The five balances of `LeftBeyondEps`. */
  predicate Dusty(b: seq<Entry>, s: real)
  {
    b == [Entry(1, s), Entry(2, s), Entry(3, s), Entry(4, -(1.0 + 3.0 * s)), Entry(5, 1.0)]
  }

  lemma DustyTotal(b: seq<Entry>, s: real)
    requires Dusty(b, s)
    ensures Total(b) == 0.0
  {
    assert b[5..] == [] && b[0..] == b;
    TotalFrom(b, 4);
    TotalFrom(b, 3);
    TotalFrom(b, 2);
    TotalFrom(b, 1);
    TotalFrom(b, 0);
  }

  lemma DustyPartition(b: seq<Entry>, s: real)
    requires 0.0 < s <= Eps && Dusty(b, s)
    ensures Debtors(b) == [Entry(4, 1.0 + 3.0 * s)] && Creditors(b) == [Entry(5, 1.0)]
  {
    PartitionPrefix(b, 0);
    PartitionPrefix(b, 1);
    PartitionPrefix(b, 2);
    PartitionPrefix(b, 3);
    PartitionPrefix(b, 4);
    assert b[..0] == [] && b[..5] == b;
  }

  lemma DustyPlan(b: seq<Entry>, s: real)
    requires Eps / 3.0 < s <= Eps && Dusty(b, s)
    ensures Plan(b) == [Transfer(4, 5, 1.0)]
  {
    var ds, cs := [Entry(4, 1.0 + 3.0 * s)], [Entry(5, 1.0)];
    DustyPartition(b, s);
    SortedAlready(ds);
    SortedAlready(cs);
    Step(ds, cs, 1.0, [Entry(4, 3.0 * s)], []);
  }

  /** Three members are owed `s` each, at most Eps so none of them is a
      creditor; member 4 owes 1 + 3s and member 5 is owed 1. The balances
      sum to zero and the plan is a single transfer of 1, after which
      member 4 is left owing 3s: beyond Eps as soon as s > Eps / 3 (though
      within |b| * Eps). The settle-up bound is therefore |b| * Eps and
      not Eps. */
  lemma LeftBeyondEps(b: seq<Entry>, s: real)
    requires Eps / 3.0 < s <= Eps && Dusty(b, s)
    ensures Distinct(Users(b)) && Total(b) == 0.0
    ensures Plan(b) == [Transfer(4, 5, 1.0)]
    ensures Apply(b, Plan(b))[3].amount == -3.0 * s < -Eps
  {
    assert Distinct(Users(b)) by {
      assert Users(b) == [1, 2, 3, 4, 5];
    }
    DustyTotal(b, s);
    DustyPlan(b, s);
    OneFlow(Transfer(4, 5, 1.0), 4);
  }

  /** Creditors owed c1 > c2 > c3 and debtors owing c1 + c3 and c2, where
      c3 and c2 - c3 are above Eps. */
  predicate Crossed(c1: real, c2: real, c3: real)
  {
    Eps < c3 && c3 + Eps <= c2 && c2 < c1
  }

  lemma CrossedTail(c2: real, c3: real)
    requires Eps < c3 && c3 + Eps <= c2
    ensures Greedy([Entry(2, c2)], [Entry(4, c2 - c3), Entry(5, c3)]) ==
      [Transfer(2, 4, c2 - c3), Transfer(2, 5, c3)]
  {
    assert Greedy([Entry(2, c3)], [Entry(5, c3)]) == [Transfer(2, 5, c3)] by {
      Step([Entry(2, c3)], [Entry(5, c3)], c3, [], []);
    }
    Step([Entry(2, c2)], [Entry(4, c2 - c3), Entry(5, c3)], c2 - c3, [Entry(2, c3)], [Entry(5, c3)]);
  }

  lemma CrossedMiddle(c2: real, c3: real)
    requires Eps < c3 && c3 + Eps <= c2
    ensures Greedy([Entry(1, c3), Entry(2, c2)], [Entry(4, c2), Entry(5, c3)]) ==
      [Transfer(1, 4, c3), Transfer(2, 4, c2 - c3), Transfer(2, 5, c3)]
  {
    CrossedTail(c2, c3);
    Step([Entry(1, c3), Entry(2, c2)], [Entry(4, c2), Entry(5, c3)], c3,
      [Entry(2, c2)], [Entry(4, c2 - c3), Entry(5, c3)]);
  }

  lemma CrossedFirst(ds: seq<Entry>, cs: seq<Entry>, c1: real, c2: real, c3: real)
    requires Eps < c3 && c3 < c1
    requires ds == [Entry(1, c1 + c3), Entry(2, c2)] && cs == [Entry(3, c1), Entry(4, c2), Entry(5, c3)]
    ensures Greedy(ds, cs) == [Transfer(1, 3, c1)] + Greedy([Entry(1, c3), Entry(2, c2)], [Entry(4, c2), Entry(5, c3)])
  {
    var ds', cs' := [Entry(1, c3), Entry(2, c2)], [Entry(4, c2), Entry(5, c3)];
    assert Min(ds[0].amount, cs[0].amount) == c1;
    assert Reduce(ds, c1) == ds' by {
      assert ds[0].amount - c1 == c3 && ds[1..] == [Entry(2, c2)];
    }
    assert Reduce(cs, c1) == cs' by {
      assert cs[0].amount - c1 == 0.0 && cs[1..] == cs';
    }
    Step(ds, cs, c1, ds', cs');
  }

  /** The greedy pairing of the crossed balances. */
  lemma CrossedGreedy(ds: seq<Entry>, cs: seq<Entry>, c1: real, c2: real, c3: real)
    requires Crossed(c1, c2, c3)
    requires ds == [Entry(1, c1 + c3), Entry(2, c2)]
    requires cs == [Entry(3, c1), Entry(4, c2), Entry(5, c3)]
    ensures Greedy(ds, cs) ==
      [Transfer(1, 3, c1), Transfer(1, 4, c3), Transfer(2, 4, c2 - c3), Transfer(2, 5, c3)]
  {
    var rest := [Transfer(1, 4, c3), Transfer(2, 4, c2 - c3), Transfer(2, 5, c3)];
    CrossedFirst(ds, cs, c1, c2, c3);
    CrossedMiddle(c2, c3);
    assert [Transfer(1, 3, c1)] + rest == [Transfer(1, 3, c1), Transfer(1, 4, c3), Transfer(2, 4, c2 - c3), Transfer(2, 5, c3)];
  }

  lemma CrossedPartition(b: seq<Entry>, c1: real, c2: real, c3: real)
    requires Crossed(c1, c2, c3)
    requires b == [Entry(1, -(c1 + c3)), Entry(2, -c2), Entry(3, c1), Entry(4, c2), Entry(5, c3)]
    ensures Debtors(b) == [Entry(1, c1 + c3), Entry(2, c2)]
    ensures Creditors(b) == [Entry(3, c1), Entry(4, c2), Entry(5, c3)]
  {
    PartitionPrefix(b, 0);
    PartitionPrefix(b, 1);
    PartitionPrefix(b, 2);
    PartitionPrefix(b, 3);
    PartitionPrefix(b, 4);
    assert b[..0] == [] && b[..5] == b;
  }

  /** The docstring calls the list minimal, but the greedy pairing is not
      always the shortest settlement. For balances -(c1 + c3), -c2, +c1,
      +c2, +c3 (such as -6, -3, +5, +3, +1) it proposes four transfers,
      while the three transfers of `fewer` settle every member exactly. */
  lemma NotFewest(b: seq<Entry>, fewer: seq<Transfer>, c1: real, c2: real, c3: real)
    requires Crossed(c1, c2, c3)
    requires b == [Entry(1, -(c1 + c3)), Entry(2, -c2), Entry(3, c1), Entry(4, c2), Entry(5, c3)]
    requires fewer == [Transfer(1, 3, c1), Transfer(1, 5, c3), Transfer(2, 4, c2)]
    ensures |Settlements(b)| == 4 && |fewer| == 3
    ensures forall i :: 0 <= i < |b| ==> Apply(b, fewer)[i].amount == 0.0
  {
    var ds, cs := [Entry(1, c1 + c3), Entry(2, c2)], [Entry(3, c1), Entry(4, c2), Entry(5, c3)];
    assert |Plan(b)| == 4 by {
      CrossedPartition(b, c1, c2, c3);
      SortedAlready(ds);
      SortedAlready(cs);
      CrossedGreedy(ds, cs, c1, c2, c3);
    }
    forall i | 0 <= i < |b| ensures Apply(b, fewer)[i].amount == 0.0 {
      ThreeFlows(fewer, b[i].user);
    }
  }
}
