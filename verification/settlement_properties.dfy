/** What the settlement minimiser guarantees, proved about the functions
    that specify it (Debtors, Creditors, SortDesc, Greedy, Plan). The
    first half is about the greedy matching of any two lists; the second
    half is about `compute_settlements` on a balance map. */
module SettlementProperties {
  import opened Base
  import opened Money
  import opened Ledger
  import opened SettlementCalculator

  // ---------------------------------------------------------------------
  // Money flowing through a list of transfers
  // ---------------------------------------------------------------------

  /** Total that `u` pays in `ts`. */
  function SentBy(ts: seq<Transfer>, u: UserId): real
  {
    if ts == [] then 0.0
    else (if ts[0].from == u then ts[0].amount else 0.0) + SentBy(ts[1..], u)
  }

  /** Total that `u` is paid in `ts`. */
  function ReceivedBy(ts: seq<Transfer>, u: UserId): real
  {
    if ts == [] then 0.0
    else (if ts[0].to == u then ts[0].amount else 0.0) + ReceivedBy(ts[1..], u)
  }

  lemma {:induction false} SentByAbsent(ts: seq<Transfer>, u: UserId)
    requires forall t :: t in ts ==> t.from != u
    ensures SentBy(ts, u) == 0.0
  {
    if ts != [] {
      assert ts[0] in ts;
      assert forall t :: t in ts[1..] ==> t in ts;
      SentByAbsent(ts[1..], u);
    }
  }

  lemma {:induction false} ReceivedByAbsent(ts: seq<Transfer>, u: UserId)
    requires forall t :: t in ts ==> t.to != u
    ensures ReceivedBy(ts, u) == 0.0
  {
    if ts != [] {
      assert ts[0] in ts;
      assert forall t :: t in ts[1..] ==> t in ts;
      ReceivedByAbsent(ts[1..], u);
    }
  }

  /** The sum of the entries of `s` that belong to `u` (for a list with
      distinct users, that user's amount, or 0 when absent). */
  function AmountOf(s: seq<Entry>, u: UserId): real
  {
    if s == [] then 0.0
    else (if s[0].user == u then s[0].amount else 0.0) + AmountOf(s[1..], u)
  }

  predicate AllNonNegative(s: seq<Entry>)
  {
    forall i :: 0 <= i < |s| ==> s[i].amount >= 0.0
  }

  lemma {:induction false} AmountOfNonNegative(s: seq<Entry>, u: UserId)
    requires AllNonNegative(s)
    ensures AmountOf(s, u) >= 0.0
  {
    if s != [] {
      assert s[0].amount >= 0.0;
      AmountOfNonNegative(s[1..], u);
    }
  }

  lemma {:induction false} AmountOfAbsent(s: seq<Entry>, u: UserId)
    requires u !in Users(s)
    ensures AmountOf(s, u) == 0.0
  {
    if s != [] {
      assert Users(s) == [s[0].user] + Users(s[1..]);
      AmountOfAbsent(s[1..], u);
    }
  }

  /** With distinct users, the amount of a user is that of its one entry. */
  lemma {:induction false} AmountOfEntry(s: seq<Entry>, e: Entry)
    requires Distinct(Users(s)) && e in s
    ensures AmountOf(s, e.user) == e.amount
  {
    assert Users(s)[1..] == Users(s[1..]);
    DistinctCons(Users(s));
    if s[0] == e {
      AmountOfAbsent(s[1..], e.user);
    } else {
      assert e in s[1..];
      InUsers(s[1..], e);
      AmountOfEntry(s[1..], e);
    }
  }

  // ---------------------------------------------------------------------
  // One step of the loop
  // ---------------------------------------------------------------------

  /** Paying `t` out of the head never leaves a negative remainder and
      reduces the head user's amount by at least `t`. */
  lemma {:induction false} ReduceAmount(s: seq<Entry>, t: real, u: UserId)
    requires s != [] && AllNonNegative(s) && 0.0 <= t <= s[0].amount
    ensures AllNonNegative(Reduce(s, t))
    ensures AmountOf(Reduce(s, t), u) <= AmountOf(s, u) - (if s[0].user == u then t else 0.0)
  {
    var r := Reduce(s, t);
    if s[0].amount - t >= Eps {
      assert r[1..] == s[1..];
    }
  }

  /** Where a user of a list with distinct users stands after one step:
      still listed with its amount reduced by what it paid, or dropped as
      the head with less than Eps left. */
  lemma {:induction false} ReduceUser(s: seq<Entry>, t: real, u: UserId)
    requires s != [] && Distinct(Users(s)) && u in Users(s)
    ensures var r := Reduce(s, t);
      || (u in Users(r) && AmountOf(r, u) == AmountOf(s, u) - (if s[0].user == u then t else 0.0))
      || (u == s[0].user && u !in Users(r) && AmountOf(s, u) - t < Eps)
  {
    var r := Reduce(s, t);
    assert Users(s) == [s[0].user] + Users(s[1..]);
    if s[0].amount - t >= Eps {
      assert r[1..] == s[1..];
    } else if s[0].user == u {
      AmountOfAbsent(s[1..], u);
    }
  }

  // ---------------------------------------------------------------------
  // The greedy matching of two lists
  // ---------------------------------------------------------------------

  /** Each transfer pays from a listed debtor to a listed creditor and
      moves at least Eps. */
  lemma {:induction false} GreedyShape(ds: seq<Entry>, cs: seq<Entry>)
    ensures forall t :: t in Greedy(ds, cs) ==>
      t.from in Users(ds) && t.to in Users(cs) && t.amount >= Eps
    decreases |ds| + |cs|
  {
    if ds != [] && cs != [] {
      var t := Min(ds[0].amount, cs[0].amount);
      if t >= Eps {
        var ds', cs' := Reduce(ds, t), Reduce(cs, t);
        GreedyShape(ds', cs');
        var g := Greedy(ds, cs);
        assert g == [Transfer(ds[0].user, cs[0].user, t)] + Greedy(ds', cs');
        assert Users(ds)[0] == ds[0].user && Users(cs)[0] == cs[0].user;
        forall x | x in Greedy(ds', cs') ensures x.from in Users(ds) && x.to in Users(cs) {
          assert x.from in Users(ds') && x.to in Users(cs');
        }
      }
    }
  }

  /** Each iteration moves at least one cursor, so there are fewer
      transfers than debtors and creditors together. */
  lemma {:induction false} GreedyCount(ds: seq<Entry>, cs: seq<Entry>)
    requires ds != [] && cs != []
    ensures |Greedy(ds, cs)| <= |ds| + |cs| - 1
    decreases |ds| + |cs|
  {
    var t := Min(ds[0].amount, cs[0].amount);
    if t >= Eps {
      var ds', cs' := Reduce(ds, t), Reduce(cs, t);
      assert |ds'| + |cs'| < |ds| + |cs|;
      if ds' != [] && cs' != [] {
        GreedyCount(ds', cs');
      }
    }
  }

  /** No debtor pays more than it owes and no creditor receives more than
      it is owed. */
  lemma {:induction false} GreedyWithin(ds: seq<Entry>, cs: seq<Entry>, u: UserId)
    requires AllNonNegative(ds) && AllNonNegative(cs)
    ensures 0.0 <= SentBy(Greedy(ds, cs), u) <= AmountOf(ds, u)
    ensures 0.0 <= ReceivedBy(Greedy(ds, cs), u) <= AmountOf(cs, u)
    decreases |ds| + |cs|
  {
    var g := Greedy(ds, cs);
    if ds == [] || cs == [] || Min(ds[0].amount, cs[0].amount) < Eps {
      AmountOfNonNegative(ds, u);
      AmountOfNonNegative(cs, u);
    } else {
      var t := Min(ds[0].amount, cs[0].amount);
      var ds', cs' := Reduce(ds, t), Reduce(cs, t);
      ReduceAmount(ds, t, u);
      ReduceAmount(cs, t, u);
      GreedyWithin(ds', cs', u);
      assert g[1..] == Greedy(ds', cs');
    }
  }

  /** When the loop ends, either every debtor or every creditor has less
      than Eps left. */
  lemma {:induction false} GreedyExhausts(ds: seq<Entry>, cs: seq<Entry>)
    requires AllAtLeastEps(ds) && AllAtLeastEps(cs)
    requires Distinct(Users(ds)) && Distinct(Users(cs))
    ensures || (forall u :: u in Users(ds) ==> AmountOf(ds, u) - SentBy(Greedy(ds, cs), u) < Eps)
            || (forall u :: u in Users(cs) ==> AmountOf(cs, u) - ReceivedBy(Greedy(ds, cs), u) < Eps)
    decreases |ds| + |cs|
  {
    if ds != [] && cs != [] {
      var t := Min(ds[0].amount, cs[0].amount);
      assert ds[0].amount >= Eps && cs[0].amount >= Eps;
      var ds', cs' := Reduce(ds, t), Reduce(cs, t);
      assert AllAtLeastEps(ds[1..]) && AllAtLeastEps(cs[1..]);
      GreedyExhausts(ds', cs');
      GreedyShape(ds', cs');
      var g, g' := Greedy(ds, cs), Greedy(ds', cs');
      assert g[1..] == g' && g[0] == Transfer(ds[0].user, cs[0].user, t);
      if forall u :: u in Users(ds') ==> AmountOf(ds', u) - SentBy(g', u) < Eps {
        forall u | u in Users(ds) ensures AmountOf(ds, u) - SentBy(g, u) < Eps {
          ReduceUser(ds, t, u);
          if u !in Users(ds') {
            SentByAbsent(g', u);
          }
        }
      } else {
        forall u | u in Users(cs) ensures AmountOf(cs, u) - ReceivedBy(g, u) < Eps {
          ReduceUser(cs, t, u);
          if u !in Users(cs') {
            ReceivedByAbsent(g', u);
          }
        }
      }
    }
  }

  // ---------------------------------------------------------------------
  // Paying a list of transfers
  // ---------------------------------------------------------------------

  /** The balances after every transfer in `ts` is paid: a payer's balance
      rises by what it pays and a payee's falls by what it receives. */
  function Apply(b: seq<Entry>, ts: seq<Transfer>): seq<Entry>
  {
    seq(|b|, i requires 0 <= i < |b| =>
      Entry(b[i].user, b[i].amount + SentBy(ts, b[i].user) - ReceivedBy(ts, b[i].user)))
  }

  /** What the members of `us` gain, together, from the transfers `ts`. */
  function SumNet(ts: seq<Transfer>, us: seq<UserId>): real
  {
    if us == [] then 0.0
    else SentBy(ts, us[0]) - ReceivedBy(ts, us[0]) + SumNet(ts, us[1..])
  }

  lemma {:induction false} SumNetCons(t: Transfer, ts: seq<Transfer>, us: seq<UserId>)
    requires Distinct(us)
    ensures SumNet([t] + ts, us) == SumNet(ts, us)
      + (if t.from in us then t.amount else 0.0) - (if t.to in us then t.amount else 0.0)
  {
    assert ([t] + ts)[1..] == ts;
    if us != [] {
      assert Distinct(us[1..]);
      assert us == [us[0]] + us[1..];
      SumNetCons(t, ts, us[1..]);
    }
  }

  /** Every transfer between members moves money from one to another, so
      the members' balances keep their sum. */
  lemma {:induction false} SumNetZero(ts: seq<Transfer>, us: seq<UserId>)
    requires Distinct(us)
    requires forall t :: t in ts ==> t.from in us && t.to in us
    ensures SumNet(ts, us) == 0.0
  {
    if us != [] && ts != [] {
      assert ts == [ts[0]] + ts[1..];
      assert ts[0] in ts;
      assert forall t :: t in ts[1..] ==> t in ts;
      SumNetZero(ts[1..], us);
      SumNetCons(ts[0], ts[1..], us);
    } else if us != [] {
      SumNetZero(ts, us[1..]);
      assert Distinct(us[1..]);
    }
  }

  lemma {:induction false} TotalApply(b: seq<Entry>, ts: seq<Transfer>)
    ensures Total(Apply(b, ts)) == Total(b) + SumNet(ts, Users(b))
  {
    if b != [] {
      assert Apply(b, ts)[1..] == Apply(b[1..], ts);
      assert Users(b)[1..] == Users(b[1..]);
      TotalApply(b[1..], ts);
    }
  }

  lemma {:induction false} TotalAtLeast(s: seq<Entry>)
    requires forall e :: e in s ==> e.amount >= -Eps
    ensures Total(s) >= -(|s| as real * Eps)
  {
    if s != [] {
      assert s[0] in s;
      assert forall e :: e in s[1..] ==> e in s;
      TotalAtLeast(s[1..]);
    }
  }

  lemma {:induction false} TotalAtMost(s: seq<Entry>)
    requires forall e :: e in s ==> e.amount <= Eps
    ensures Total(s) <= |s| as real * Eps
  {
    if s != [] {
      assert s[0] in s;
      assert forall e :: e in s[1..] ==> e in s;
      TotalAtMost(s[1..]);
    }
  }

  /** The sum of a list is one entry plus the sum of the others. */
  lemma TotalSplit(s: seq<Entry>, k: nat)
    requires k < |s|
    ensures var rest := s[..k] + s[k + 1..];
      && |rest| == |s| - 1
      && (forall e :: e in rest ==> e in s)
      && Total(s) == s[k].amount + Total(rest)
  {
    assert s == s[..k] + ([s[k]] + s[k + 1..]);
    TotalAppend(s[..k], [s[k]] + s[k + 1..]);
    TotalAppend([s[k]], s[k + 1..]);
    TotalAppend(s[..k], s[k + 1..]);
    forall e | e in s[..k] + s[k + 1..] ensures e in s {
      assert e in s[..k] || e in s[k + 1..];
    }
  }

  /** In a list summing to zero with no entry below -Eps, no entry is above
      what the others can make up for. */
  lemma SpreadAbove(s: seq<Entry>, k: nat)
    requires k < |s| && Total(s) == 0.0
    requires forall i :: 0 <= i < |s| ==> s[i].amount >= -Eps
    ensures s[k].amount <= (|s| - 1) as real * Eps
  {
    TotalSplit(s, k);
    TotalAtLeast(s[..k] + s[k + 1..]);
  }

  /** The mirror image: with no entry above Eps, none is below. */
  lemma SpreadBelow(s: seq<Entry>, k: nat)
    requires k < |s| && Total(s) == 0.0
    requires forall i :: 0 <= i < |s| ==> s[i].amount <= Eps
    ensures s[k].amount >= -((|s| - 1) as real * Eps)
  {
    TotalSplit(s, k);
    TotalAtMost(s[..k] + s[k + 1..]);
  }

  /** Nobody in the first `n` entries is left owing more than Eps, or
      nobody is left owed more than Eps. */
  predicate OneSided(s: seq<Entry>, n: nat)
    requires n <= |s|
  {
    || (forall i :: 0 <= i < n ==> s[i].amount >= -Eps)
    || (forall i :: 0 <= i < n ==> s[i].amount <= Eps)
  }

  /** A list summing to zero that is one-sided has every entry within
      |s| * Eps of zero. */
  lemma BoundedSpread(s: seq<Entry>)
    requires Total(s) == 0.0 && OneSided(s, |s|)
    ensures forall i :: 0 <= i < |s| ==> Abs(s[i].amount) <= |s| as real * Eps
  {
    forall i | 0 <= i < |s| ensures Abs(s[i].amount) <= |s| as real * Eps {
      if forall i :: 0 <= i < |s| ==> s[i].amount >= -Eps {
        SpreadAbove(s, i);
      } else {
        SpreadBelow(s, i);
      }
    }
  }
}
