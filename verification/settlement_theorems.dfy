/** Properties of `compute_settlements` on a balance map: who pays whom,
    how much, how many transfers, and how close to zero everybody ends up
    once the suggested transfers are paid. */
module SettlementTheorems {
  import opened Base
  import opened Money
  import opened Ledger
  import opened SettlementCalculator
  import opened SettlementProperties

  // ---------------------------------------------------------------------
  // Who takes part, and how much
  // ---------------------------------------------------------------------

  lemma {:induction false} SortDescLength(s: seq<Entry>)
    ensures |SortDesc(s)| == |s|
  {
    SortDescPerm(s);
    assert |multiset(SortDesc(s))| == |SortDesc(s)|;
  }

  /** The sorted debtor and creditor lists meet the greedy lemmas'
      preconditions. */
  lemma PlanLists(b: seq<Entry>)
    requires Distinct(Users(b))
    ensures Distinct(Users(SortDesc(Debtors(b)))) && Distinct(Users(SortDesc(Creditors(b))))
    ensures AllAtLeastEps(SortDesc(Debtors(b))) && AllAtLeastEps(SortDesc(Creditors(b)))
  {
    DebtorsDistinct(b);
    SortDescDistinct(Debtors(b));
    CreditorsDistinct(b);
    SortDescDistinct(Creditors(b));
    DebtorsMembers(b);
    AllAtLeastEpsSorted(Debtors(b));
    CreditorsMembers(b);
    AllAtLeastEpsSorted(Creditors(b));
  }

  /** Sorting keeps exactly the entries it is given. */
  lemma InSorted(s: seq<Entry>, e: Entry)
    ensures e in SortDesc(s) <==> e in s
  {
    SortDescPerm(s);
    assert e in SortDesc(s) <==> e in multiset(SortDesc(s));
  }

  /** A listed debtor is a member with a balance below -Eps, owing minus
      that balance. */
  lemma ListedDebtor(b: seq<Entry>, u: UserId)
    requires Distinct(Users(b)) && u in Users(SortDesc(Debtors(b)))
    ensures u in Users(b) && Lookup(b, u) < -Eps
    ensures AmountOf(SortDesc(Debtors(b)), u) == -Lookup(b, u)
  {
    var ds := SortDesc(Debtors(b));
    var i :| 0 <= i < |ds| && Users(ds)[i] == u;
    var e := ds[i];
    InSorted(Debtors(b), e);
    DebtorsMembers(b);
    LookupEntry(b, Entry(u, -e.amount));
    DebtorsDistinct(b);
    SortDescDistinct(Debtors(b));
    AmountOfEntry(ds, e);
  }

  /** A member with a balance below -Eps is listed as a debtor. */
  lemma DebtorListed(b: seq<Entry>, u: UserId)
    requires u in Users(b) && Lookup(b, u) < -Eps
    ensures u in Users(SortDesc(Debtors(b)))
  {
    LookupIn(b, u);
    var e := Entry(u, -Lookup(b, u));
    assert Entry(e.user, -e.amount) == Entry(u, Lookup(b, u));
    DebtorsMembers(b);
    InSorted(Debtors(b), e);
    InUsers(SortDesc(Debtors(b)), e);
  }

  /** A member is a debtor of the plan exactly when its balance is below
      -Eps, and then it owes minus its balance. */
  lemma PlanDebtor(b: seq<Entry>, u: UserId)
    requires Distinct(Users(b))
    ensures var ds := SortDesc(Debtors(b));
      && (u in Users(ds) <==> u in Users(b) && Lookup(b, u) < -Eps)
      && (u in Users(ds) ==> AmountOf(ds, u) == -Lookup(b, u))
  {
    if u in Users(SortDesc(Debtors(b))) {
      ListedDebtor(b, u);
    } else if u in Users(b) && Lookup(b, u) < -Eps {
      DebtorListed(b, u);
    }
  }

  /** A listed creditor is a member with a balance above Eps, owed that
      balance. */
  lemma ListedCreditor(b: seq<Entry>, u: UserId)
    requires Distinct(Users(b)) && u in Users(SortDesc(Creditors(b)))
    ensures u in Users(b) && Lookup(b, u) > Eps
    ensures AmountOf(SortDesc(Creditors(b)), u) == Lookup(b, u)
  {
    var cs := SortDesc(Creditors(b));
    var i :| 0 <= i < |cs| && Users(cs)[i] == u;
    var e := cs[i];
    InSorted(Creditors(b), e);
    CreditorsMembers(b);
    LookupEntry(b, e);
    CreditorsDistinct(b);
    SortDescDistinct(Creditors(b));
    AmountOfEntry(cs, e);
  }

  /** A member with a balance above Eps is listed as a creditor. */
  lemma CreditorListed(b: seq<Entry>, u: UserId)
    requires u in Users(b) && Lookup(b, u) > Eps
    ensures u in Users(SortDesc(Creditors(b)))
  {
    LookupIn(b, u);
    var e := Entry(u, Lookup(b, u));
    CreditorsMembers(b);
    InSorted(Creditors(b), e);
    InUsers(SortDesc(Creditors(b)), e);
  }

  /** A member is a creditor of the plan exactly when its balance is above
      Eps, and then it is owed its balance. */
  lemma PlanCreditor(b: seq<Entry>, u: UserId)
    requires Distinct(Users(b))
    ensures var cs := SortDesc(Creditors(b));
      && (u in Users(cs) <==> u in Users(b) && Lookup(b, u) > Eps)
      && (u in Users(cs) ==> AmountOf(cs, u) == Lookup(b, u))
  {
    if u in Users(SortDesc(Creditors(b))) {
      ListedCreditor(b, u);
    } else if u in Users(b) && Lookup(b, u) > Eps {
      CreditorListed(b, u);
    }
  }

  /** Every transfer goes from a member whose balance is below -Eps to a
      member whose balance is above Eps, and before rounding moves at
      least Eps. */
  lemma PlanParties(b: seq<Entry>)
    requires Distinct(Users(b))
    ensures forall t :: t in Plan(b) ==>
      && t.from in Users(b) && Lookup(b, t.from) < -Eps
      && t.to in Users(b) && Lookup(b, t.to) > Eps
      && t.amount >= Eps
  {
    GreedyShape(SortDesc(Debtors(b)), SortDesc(Creditors(b)));
    forall t | t in Plan(b)
      ensures t.from in Users(b) && Lookup(b, t.from) < -Eps
      ensures t.to in Users(b) && Lookup(b, t.to) > Eps
    {
      PlanDebtor(b, t.from);
      PlanCreditor(b, t.to);
    }
  }

  /** The same for the rounded transfers the source returns. */
  lemma SettlementParties(b: seq<Entry>)
    requires Distinct(Users(b))
    ensures forall t :: t in Settlements(b) ==>
      && t.from in Users(b) && Lookup(b, t.from) < -Eps
      && t.to in Users(b) && Lookup(b, t.to) > Eps
  {
    PlanParties(b);
    var p := Plan(b);
    forall t | t in Settlements(b)
      ensures t.from in Users(b) && Lookup(b, t.from) < -Eps
      ensures t.to in Users(b) && Lookup(b, t.to) > Eps
    {
      var i :| 0 <= i < |Settlements(b)| && Settlements(b)[i] == t;
      assert p[i] in p;
    }
  }

  /** A member whose balance lies within Eps of zero takes part in no
      transfer. */
  lemma SettledSkipped(b: seq<Entry>, u: UserId)
    requires Distinct(Users(b)) && u in Users(b)
    requires -Eps <= Lookup(b, u) <= Eps
    ensures forall t :: t in Settlements(b) ==> t.from != u && t.to != u
  {
    SettlementParties(b);
  }

  lemma DebtorsEmpty(b: seq<Entry>)
    ensures Debtors(b) == [] <==> forall e :: e in b ==> e.amount >= -Eps
  {
    DebtorsMembers(b);
    if Debtors(b) != [] {
      assert Debtors(b)[0] in Debtors(b);
    } else {
      forall e | e in b ensures e.amount >= -Eps {
        assert Entry(e.user, -e.amount) !in Debtors(b);
      }
    }
  }

  lemma CreditorsEmpty(b: seq<Entry>)
    ensures Creditors(b) == [] <==> forall e :: e in b ==> e.amount <= Eps
  {
    CreditorsMembers(b);
    if Creditors(b) != [] {
      assert Creditors(b)[0] in Creditors(b);
    } else {
      forall e | e in b ensures e.amount <= Eps {
        assert e !in Creditors(b);
      }
    }
  }

  /** With a debtor and a creditor the loop pays at least once. */
  lemma PlanNonEmpty(b: seq<Entry>)
    requires Debtors(b) != [] && Creditors(b) != []
    ensures Plan(b) != []
  {
    var ds, cs := SortDesc(Debtors(b)), SortDesc(Creditors(b));
    SortDescLength(Debtors(b));
    SortDescLength(Creditors(b));
    DebtorsMembers(b);
    CreditorsMembers(b);
    AllAtLeastEpsSorted(Debtors(b));
    AllAtLeastEpsSorted(Creditors(b));
    assert ds[0].amount >= Eps && cs[0].amount >= Eps;
  }

  /** No transfers exactly when nobody owes more than Eps or nobody is
      owed more than Eps; in particular for an empty or all-zero map. */
  lemma PlanEmpty(b: seq<Entry>)
    ensures Settlements(b) == [] <==>
      (forall e :: e in b ==> e.amount >= -Eps) || (forall e :: e in b ==> e.amount <= Eps)
  {
    DebtorsEmpty(b);
    CreditorsEmpty(b);
    if Debtors(b) != [] && Creditors(b) != [] {
      PlanNonEmpty(b);
    } else {
      SortDescLength(Debtors(b));
      SortDescLength(Creditors(b));
    }
  }

  lemma {:induction false} PartitionSize(b: seq<Entry>)
    ensures |Debtors(b)| + |Creditors(b)| <= |b|
  {
    if b != [] {
      PartitionSize(b[..|b| - 1]);
    }
  }

  /** There are fewer transfers than debtors and creditors together, and
      so fewer than members. */
  lemma PlanCount(b: seq<Entry>)
    requires Debtors(b) != [] && Creditors(b) != []
    ensures |Settlements(b)| <= |Debtors(b)| + |Creditors(b)| - 1 <= |b| - 1
  {
    SortDescLength(Debtors(b));
    SortDescLength(Creditors(b));
    GreedyCount(SortDesc(Debtors(b)), SortDesc(Creditors(b)));
    PartitionSize(b);
  }

  /** What each member pays and receives: a debtor pays at most its debt
      and receives nothing, a creditor receives at most its credit and
      pays nothing, anybody else does neither. */
  lemma PlanWithin(b: seq<Entry>, u: UserId)
    requires Distinct(Users(b)) && u in Users(b)
    ensures Lookup(b, u) < -Eps ==>
      0.0 <= SentBy(Plan(b), u) <= -Lookup(b, u) && ReceivedBy(Plan(b), u) == 0.0
    ensures Lookup(b, u) > Eps ==>
      0.0 <= ReceivedBy(Plan(b), u) <= Lookup(b, u) && SentBy(Plan(b), u) == 0.0
    ensures -Eps <= Lookup(b, u) <= Eps ==>
      SentBy(Plan(b), u) == 0.0 && ReceivedBy(Plan(b), u) == 0.0
  {
    var ds, cs := SortDesc(Debtors(b)), SortDesc(Creditors(b));
    PlanLists(b);
    PlanDebtor(b, u);
    PlanCreditor(b, u);
    GreedyWithin(ds, cs, u);
    GreedyShape(ds, cs);
    if u !in Users(ds) {
      SentByAbsent(Plan(b), u);
    }
    if u !in Users(cs) {
      ReceivedByAbsent(Plan(b), u);
    }
  }

  // ---------------------------------------------------------------------
  // Settling up
  // ---------------------------------------------------------------------

  /** A member's balance once the plan is paid: a debtor is left owing its
      remaining debt, a creditor is left owed its remaining credit, and a
      member within Eps of zero keeps its balance. */
  lemma FinalBalance(b: seq<Entry>, i: nat)
    requires Distinct(Users(b)) && i < |b|
    ensures var u, f := b[i].user, Apply(b, Plan(b))[i].amount;
      && (b[i].amount < -Eps ==>
            u in Users(SortDesc(Debtors(b)))
            && f == -(AmountOf(SortDesc(Debtors(b)), u) - SentBy(Plan(b), u)) && f <= 0.0)
      && (b[i].amount > Eps ==>
            u in Users(SortDesc(Creditors(b)))
            && f == AmountOf(SortDesc(Creditors(b)), u) - ReceivedBy(Plan(b), u) && f >= 0.0)
      && (-Eps <= b[i].amount <= Eps ==> f == b[i].amount)
  {
    var u := b[i].user;
    assert b[i] in b;
    LookupEntry(b, b[i]);
    PlanWithin(b, u);
    PlanDebtor(b, u);
    PlanCreditor(b, u);
  }

  /** Once every debtor has less than Eps left, nobody is left below -Eps. */
  lemma DebtorsDone(b: seq<Entry>)
    requires Distinct(Users(b))
    requires forall u :: u in Users(SortDesc(Debtors(b))) ==>
      AmountOf(SortDesc(Debtors(b)), u) - SentBy(Plan(b), u) < Eps
    ensures forall i :: 0 <= i < |b| ==> Apply(b, Plan(b))[i].amount >= -Eps
  {
    forall i | 0 <= i < |b| ensures Apply(b, Plan(b))[i].amount >= -Eps {
      FinalBalance(b, i);
    }
  }

  /** Once every creditor has less than Eps left, nobody is left above Eps. */
  lemma CreditorsDone(b: seq<Entry>)
    requires Distinct(Users(b))
    requires forall u :: u in Users(SortDesc(Creditors(b))) ==>
      AmountOf(SortDesc(Creditors(b)), u) - ReceivedBy(Plan(b), u) < Eps
    ensures forall i :: 0 <= i < |b| ==> Apply(b, Plan(b))[i].amount <= Eps
  {
    forall i | 0 <= i < |b| ensures Apply(b, Plan(b))[i].amount <= Eps {
      FinalBalance(b, i);
    }
  }

  /** Paying the plan moves money between members only: the balances keep
      their sum. */
  lemma PlanConserves(b: seq<Entry>)
    requires Distinct(Users(b))
    ensures Total(Apply(b, Plan(b))) == Total(b)
  {
    PlanParties(b);
    SumNetZero(Plan(b), Users(b));
    TotalApply(b, Plan(b));
  }

  /** The docstring's promise, for exact arithmetic: when the balances sum
      to zero, paying the plan leaves every member within |b| * Eps of
      zero (each member skipped or left over contributes at most Eps). */
  lemma SettleUp(b: seq<Entry>)
    requires Distinct(Users(b)) && Total(b) == 0.0
    ensures forall i :: 0 <= i < |b| ==> Abs(Apply(b, Plan(b))[i].amount) <= |b| as real * Eps
  {
    PlanConserves(b);
    PlanExhausts(b);
    BoundedSpread(Apply(b, Plan(b)));
  }

  /** After the plan is paid, nobody is left below -Eps or nobody is left
      above Eps. */
  lemma PlanExhausts(b: seq<Entry>)
    requires Distinct(Users(b))
    ensures OneSided(Apply(b, Plan(b)), |Apply(b, Plan(b))|)
  {
    var ds, cs := SortDesc(Debtors(b)), SortDesc(Creditors(b));
    PlanLists(b);
    GreedyExhausts(ds, cs);
    if forall u :: u in Users(ds) ==> AmountOf(ds, u) - SentBy(Plan(b), u) < Eps {
      DebtorsDone(b);
    } else {
      CreditorsDone(b);
    }
  }

}
