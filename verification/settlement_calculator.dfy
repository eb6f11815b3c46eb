/** The settlement minimiser of backend/app/services/settlement_calculator.py:
    it turns a balance map into a short list of suggested transfers by
    matching the largest debtor with the largest creditor. The functions
    Debtors, Creditors, SortDesc and Greedy specify the three phases of
    the source loop; ComputeSettlements is the imperative code itself and
    is proved equal to them. */
module SettlementCalculator {
  import opened Base
  import opened Money
  import opened Ledger

  /** A suggested payment `from` -> `to` (the source's SettlementItem). */
  datatype Transfer = Transfer(from: UserId, to: UserId, amount: real)

  // ---------------------------------------------------------------------
  // Phase 1: partition (lines 11-17)
  // ---------------------------------------------------------------------

  /** Members whose balance is below -Eps, in the map's iteration order,
      each with the positive amount they owe. */
  function Debtors(b: seq<Entry>): seq<Entry>
  {
    if b == [] then []
    else
      var init, last := b[..|b| - 1], b[|b| - 1];
      Debtors(init) + (if last.amount < -Eps then [Entry(last.user, -last.amount)] else [])
  }

  /** Members whose balance is above Eps, in the map's iteration order. */
  function Creditors(b: seq<Entry>): seq<Entry>
  {
    if b == [] then []
    else
      var init, last := b[..|b| - 1], b[|b| - 1];
      Creditors(init) + (if last.amount > Eps then [last] else [])
  }

  /** The debtors are exactly the entries below -Eps, with the sign of the
      amount flipped. */
  lemma {:induction false} DebtorsMembers(b: seq<Entry>)
    ensures forall e :: e in Debtors(b) <==> e.amount > Eps && Entry(e.user, -e.amount) in b
  {
    if b != [] {
      var init, last := b[..|b| - 1], b[|b| - 1];
      assert b == init + [last];
      DebtorsMembers(init);
    }
  }

  /** The creditors are exactly the entries above Eps. */
  lemma {:induction false} CreditorsMembers(b: seq<Entry>)
    ensures forall e :: e in Creditors(b) <==> e in b && e.amount > Eps
  {
    if b != [] {
      var init, last := b[..|b| - 1], b[|b| - 1];
      assert b == init + [last];
      CreditorsMembers(init);
    }
  }

  /** Each member is listed at most once as a debtor. */
  lemma {:induction false} DebtorsDistinct(b: seq<Entry>)
    requires Distinct(Users(b))
    ensures Distinct(Users(Debtors(b)))
  {
    if b != [] {
      var init, last := b[..|b| - 1], b[|b| - 1];
      assert b == init + [last];
      UsersConcat(init, [last]);
      DistinctSnoc(Users(init), last.user);
      DebtorsDistinct(init);
      if last.amount < -Eps {
        var d := Debtors(init);
        UsersConcat(d, [Entry(last.user, -last.amount)]);
        DistinctSnoc(Users(d), last.user);
        NotDebtor(init, last.user);
      }
    }
  }

  /** A user with no entry in the map is no debtor. */
  lemma {:induction false} NotDebtor(b: seq<Entry>, u: UserId)
    requires u !in Users(b)
    ensures u !in Users(Debtors(b))
  {
    if b != [] {
      var init, last := b[..|b| - 1], b[|b| - 1];
      assert Users(b) == Users(init) + [last.user];
      NotDebtor(init, u);
      UsersConcat(Debtors(init), if last.amount < -Eps then [Entry(last.user, -last.amount)] else []);
    }
  }

  /** Each member is listed at most once as a creditor. */
  lemma {:induction false} CreditorsDistinct(b: seq<Entry>)
    requires Distinct(Users(b))
    ensures Distinct(Users(Creditors(b)))
  {
    if b != [] {
      var init, last := b[..|b| - 1], b[|b| - 1];
      assert b == init + [last];
      UsersConcat(init, [last]);
      DistinctSnoc(Users(init), last.user);
      CreditorsDistinct(init);
      if last.amount > Eps {
        var c := Creditors(init);
        UsersConcat(c, [last]);
        DistinctSnoc(Users(c), last.user);
        CreditorsMembers(init);
        UsersSubset(c, init);
      }
    }
  }

  // ---------------------------------------------------------------------
  // Phase 2: stable sort by descending amount (lines 18-19)
  // ---------------------------------------------------------------------

  predicate SortedDesc(s: seq<Entry>)
  {
    forall i, j :: 0 <= i < j < |s| ==> s[i].amount >= s[j].amount
  }

  /** One step of insertion sort: `x` moves left past every entry with a
      strictly smaller amount, so it ends up after the entries with an
      equal amount that came before it. */
  function InsertDesc(s: seq<Entry>, x: Entry): seq<Entry>
  {
    if s == [] || s[|s| - 1].amount >= x.amount then s + [x]
    else InsertDesc(s[..|s| - 1], x) + [s[|s| - 1]]
  }

  /** Inserting adds `x` and loses nothing. */
  lemma {:induction false} InsertDescPerm(s: seq<Entry>, x: Entry)
    ensures multiset(InsertDesc(s, x)) == multiset(s) + multiset{x}
  {
    if !(s == [] || s[|s| - 1].amount >= x.amount) {
      var init, last := s[..|s| - 1], s[|s| - 1];
      assert s == init + [last];
      InsertDescPerm(init, x);
    }
  }

  lemma {:induction false} InsertDescSorted(s: seq<Entry>, x: Entry)
    requires SortedDesc(s)
    ensures SortedDesc(InsertDesc(s, x))
  {
    if !(s == [] || s[|s| - 1].amount >= x.amount) {
      var init, last := s[..|s| - 1], s[|s| - 1];
      assert s == init + [last];
      var r' := InsertDesc(init, x);
      InsertDescSorted(init, x);
      InsertDescPerm(init, x);
      forall i, j | 0 <= i < j < |r' + [last]|
        ensures (r' + [last])[i].amount >= (r' + [last])[j].amount
      {
        if j == |r'| {
          assert (r' + [last])[i] == r'[i] && r'[i] in multiset(r');
        }
      }
    }
  }

  lemma {:induction false} InsertDescDistinct(s: seq<Entry>, x: Entry)
    requires Distinct(Users(s)) && x.user !in Users(s)
    ensures Distinct(Users(InsertDesc(s, x)))
  {
    if s == [] || s[|s| - 1].amount >= x.amount {
      UsersConcat(s, [x]);
      DistinctSnoc(Users(s), x.user);
    } else {
      var init, last := s[..|s| - 1], s[|s| - 1];
      assert s == init + [last];
      UsersConcat(init, [last]);
      DistinctSnoc(Users(init), last.user);
      var r' := InsertDesc(init, x);
      InsertDescDistinct(init, x);
      InsertDescPerm(init, x);
      UsersConcat(r', [last]);
      DistinctSnoc(Users(r'), last.user);
      UsersSubmultiset(r', init + [x]);
      UsersConcat(init, [x]);
    }
  }

  /** Python's stable `list.sort(key=lambda x: -x[1])`, as insertion sort. */
  function SortDesc(s: seq<Entry>): seq<Entry>
  {
    if s == [] then []
    else InsertDesc(SortDesc(s[..|s| - 1]), s[|s| - 1])
  }

  /** The sorted list is a permutation of the input. */
  lemma {:induction false} SortDescPerm(s: seq<Entry>)
    ensures multiset(SortDesc(s)) == multiset(s)
  {
    if s != [] {
      var init, last := s[..|s| - 1], s[|s| - 1];
      assert s == init + [last];
      SortDescPerm(init);
      InsertDescPerm(SortDesc(init), last);
    }
  }

  /** The sorted list is in descending order of amount. */
  lemma {:induction false} SortDescSorted(s: seq<Entry>)
    ensures SortedDesc(SortDesc(s))
  {
    if s != [] {
      SortDescSorted(s[..|s| - 1]);
      InsertDescSorted(SortDesc(s[..|s| - 1]), s[|s| - 1]);
    }
  }

  /** Sorting a list with distinct members keeps them distinct. */
  lemma {:induction false} SortDescDistinct(s: seq<Entry>)
    requires Distinct(Users(s))
    ensures Distinct(Users(SortDesc(s)))
  {
    if s != [] {
      var init, last := s[..|s| - 1], s[|s| - 1];
      assert s == init + [last];
      UsersConcat(init, [last]);
      DistinctSnoc(Users(init), last.user);
      SortDescDistinct(init);
      SortDescPerm(init);
      UsersSubmultiset(SortDesc(init), init);
      InsertDescDistinct(SortDesc(init), last);
    }
  }

  /** The entries of `s` whose amount is exactly `v`, in order. */
  function WithAmount(s: seq<Entry>, v: real): seq<Entry>
  {
    if s == [] then []
    else WithAmount(s[..|s| - 1], v) + (if s[|s| - 1].amount == v then [s[|s| - 1]] else [])
  }

  lemma {:induction false} WithAmountConcat(a: seq<Entry>, b: seq<Entry>, v: real)
    ensures WithAmount(a + b, v) == WithAmount(a, v) + WithAmount(b, v)
  {
    if b == [] {
      assert a + b == a;
    } else {
      assert (a + b)[..|a + b| - 1] == a + b[..|b| - 1];
      WithAmountConcat(a, b[..|b| - 1], v);
    }
  }

  lemma {:induction false} InsertDescStable(s: seq<Entry>, x: Entry, v: real)
    ensures WithAmount(InsertDesc(s, x), v) == WithAmount(s, v) + WithAmount([x], v)
  {
    if s == [] || s[|s| - 1].amount >= x.amount {
      WithAmountConcat(s, [x], v);
    } else {
      var init, last := s[..|s| - 1], s[|s| - 1];
      assert s == init + [last];
      InsertDescStable(init, x, v);
      WithAmountConcat(InsertDesc(init, x), [last], v);
      WithAmountConcat(init, [last], v);
      assert WithAmount([x], v) + WithAmount([last], v) == WithAmount([last], v) + WithAmount([x], v) by {
        assert [x][..0] == [] && [last][..0] == [];
      }
    }
  }

  /** Stability: among entries with the same amount, the sort keeps the
      order of the input (the balance map's iteration order). */
  lemma {:induction false} SortDescStable(s: seq<Entry>, v: real)
    ensures WithAmount(SortDesc(s), v) == WithAmount(s, v)
  {
    if s != [] {
      var init, last := s[..|s| - 1], s[|s| - 1];
      SortDescStable(init, v);
      InsertDescStable(SortDesc(init), last, v);
    }
  }

  // ---------------------------------------------------------------------
  // Phase 3: two-cursor greedy matching (lines 21-36)
  // ---------------------------------------------------------------------

  predicate AllAtLeastEps(s: seq<Entry>)
  {
    forall i :: 0 <= i < |s| ==> s[i].amount >= Eps
  }

  /** The list after its head has paid (or received) `t`: the head stays
      with the reduced amount, or the cursor moves past it once that
      amount is below Eps. */
  function Reduce(s: seq<Entry>, t: real): (r: seq<Entry>)
    requires s != []
    ensures s[0].amount - t < Eps ==> r == s[1..] && Users(r) == Users(s)[1..]
    ensures s[0].amount - t >= Eps ==> |r| == |s| && Users(r) == Users(s)
    ensures Distinct(Users(s)) ==> Distinct(Users(r))
    ensures AllAtLeastEps(s[1..]) ==> AllAtLeastEps(r)
  {
    var left := s[0].amount - t;
    if left < Eps then s[1..]
    else
      var r := [Entry(s[0].user, left)] + s[1..];
      assert Users(r) == Users(s);
      r
  }

  /** The transfers the source's while-loop emits, before rounding, for
      the remaining debtors `ds` and creditors `cs` (each list's head is
      the entry under its cursor, with what it still owes or is owed). */
  function Greedy(ds: seq<Entry>, cs: seq<Entry>): (ts: seq<Transfer>)
    decreases |ds| + |cs|
  {
    if ds == [] || cs == [] then []
    else
      var t := Min(ds[0].amount, cs[0].amount);
      if t < Eps then []
      else [Transfer(ds[0].user, cs[0].user, t)] + Greedy(Reduce(ds, t), Reduce(cs, t))
  }

  function RoundTransfers(ts: seq<Transfer>): (r: seq<Transfer>)
    ensures |r| == |ts|
    ensures forall i :: 0 <= i < |ts| ==>
      r[i].from == ts[i].from && r[i].to == ts[i].to && r[i].amount == Round2(ts[i].amount)
  {
    if ts == [] then []
    else [Transfer(ts[0].from, ts[0].to, Round2(ts[0].amount))] + RoundTransfers(ts[1..])
  }

  /** The unrounded transfers `compute_settlements` emits for a balance map. */
  function Plan(b: seq<Entry>): seq<Transfer>
  {
    Greedy(SortDesc(Debtors(b)), SortDesc(Creditors(b)))
  }

  /** What `compute_settlements` returns: the plan with every amount rounded
      to cents. */
  function Settlements(b: seq<Entry>): seq<Transfer>
  {
    RoundTransfers(Plan(b))
  }

  // ---------------------------------------------------------------------
  // The source function
  // ---------------------------------------------------------------------

  /** The inner loop of insertion sort: moves `a[i]` left into the sorted
      prefix `a[..i]`. */
  method InsertLast(a: array<Entry>, i: nat)
    requires i < a.Length
    modifies a
    ensures a[..i + 1] == InsertDesc(old(a[..i]), old(a[i]))
    ensures a[i + 1..] == old(a[i + 1..])
  {
    ghost var s := a[..i];
    ghost var rest := a[i + 1..];
    var x := a[i];
    var j := i;
    while j > 0 && a[j - 1].amount < x.amount
      invariant 0 <= j <= i
      invariant forall k :: 0 <= k < j ==> a[k] == s[k]
      invariant forall k :: j < k <= i ==> a[k] == s[k - 1]
      invariant forall k :: j <= k < i ==> s[k].amount < x.amount
      invariant a[i + 1..] == rest
    {
      a[j] := a[j - 1];
      j := j - 1;
    }
    a[j] := x;
    assert a[..i + 1] == InsertDesc(s, x) by {
      InsertDescAt(s, j, x);
      SpliceEqual(a[..i + 1], s, j, x);
    }
  }

  /** Inserting `x` into `s` places it after the last element that is at
      least as large, which is at `j` when everything from `j` on is
      smaller. */
  lemma {:induction false} InsertDescAt(s: seq<Entry>, j: nat, x: Entry)
    requires j <= |s| && (j == 0 || s[j - 1].amount >= x.amount)
    requires forall k :: j <= k < |s| ==> s[k].amount < x.amount
    ensures InsertDesc(s, x) == s[..j] + [x] + s[j..]
  {
    if j == |s| {
      assert s[..j] == s && s[j..] == [];
    } else {
      var init, last := s[..|s| - 1], s[|s| - 1];
      assert last.amount < x.amount;
      assert InsertDesc(s, x) == InsertDesc(init, x) + [last];
      assert j == 0 || init[j - 1] == s[j - 1];
      assert forall k :: j <= k < |init| ==> init[k] == s[k];
      InsertDescAt(init, j, x);
      assert init[..j] == s[..j];
      assert s[j..] == init[j..] + [last];
    }
  }

  lemma SpliceEqual(t: seq<Entry>, s: seq<Entry>, j: nat, x: Entry)
    requires j <= |s| && |t| == |s| + 1
    requires forall k :: 0 <= k < j ==> t[k] == s[k]
    requires t[j] == x
    requires forall k :: j < k < |t| ==> t[k] == s[k - 1]
    ensures t == s[..j] + [x] + s[j..]
  {
  }

  /** The in-place `list.sort` of the debtor and creditor lists. Any stable
      sort produces the same list, so insertion sort stands for Python's. */
  method SortDescending(a: array<Entry>)
    modifies a
    ensures a[..] == SortDesc(old(a[..]))
  {
    ghost var input := a[..];
    var i := 0;
    while i < a.Length
      invariant 0 <= i <= a.Length
      invariant a[..i] == SortDesc(input[..i])
      invariant a[i..] == input[i..]
    {
      assert a[i] == a[i..][0] == input[i];
      assert a[i + 1..] == a[i..][1..] == input[i + 1..];
      ghost var sortedPrefix := a[..i];
      InsertLast(a, i);
      assert a[..i + 1] == InsertDesc(sortedPrefix, input[i]);
      assert input[..i + 1][..i] == input[..i];
      assert a[..i + 1] == SortDesc(input[..i + 1]);
      i := i + 1;
    }
    assert a[..] == a[..a.Length] && input == input[..a.Length];
  }

  /** Phase 1 of `compute_settlements`: the loop over `balances.items()`. */
  method Partition(balances: seq<Entry>) returns (debtors: seq<Entry>, creditors: seq<Entry>)
    ensures debtors == Debtors(balances) && creditors == Creditors(balances)
  {
    debtors, creditors := [], [];
    var k := 0;
    while k < |balances|
      invariant 0 <= k <= |balances|
      invariant debtors == Debtors(balances[..k])
      invariant creditors == Creditors(balances[..k])
    {
      var e := balances[k];
      PartitionSnoc(balances[..k], e);
      assert balances[..k + 1] == balances[..k] + [e];
      if e.amount < -Eps {
        debtors := debtors + [Entry(e.user, -e.amount)];
      } else if e.amount > Eps {
        creditors := creditors + [e];
      }
      k := k + 1;
    }
    assert balances[..k] == balances;
  }

  /** The partition of a map extended by one item. */
  lemma PartitionSnoc(b: seq<Entry>, e: Entry)
    ensures Debtors(b + [e]) == Debtors(b) + (if e.amount < -Eps then [Entry(e.user, -e.amount)] else [])
    ensures Creditors(b + [e]) == Creditors(b) + (if e.amount > Eps then [e] else [])
  {
    assert (b + [e])[..|b|] == b;
  }

  /** One iteration of the greedy loop, on the rounded output. */
  lemma GreedyStep(ds: seq<Entry>, cs: seq<Entry>, t: real)
    requires ds != [] && cs != [] && t == Min(ds[0].amount, cs[0].amount) && t >= Eps
    ensures RoundTransfers(Greedy(ds, cs))
            == [Transfer(ds[0].user, cs[0].user, Round2(t))] + RoundTransfers(Greedy(Reduce(ds, t), Reduce(cs, t)))
  {
    var rest := Greedy(Reduce(ds, t), Reduce(cs, t));
    assert Greedy(ds, cs) == [Transfer(ds[0].user, cs[0].user, t)] + rest;
    assert ([Transfer(ds[0].user, cs[0].user, t)] + rest)[1..] == rest;
  }

  /** Overwriting the entry under the cursor with its reduced amount and
      advancing past it once that is below Eps yields `Reduce`. */
  lemma {:induction false} ReduceInPlace(a: seq<Entry>, i: nat, t: real)
    requires i < |a|
    ensures var b := a[i := Entry(a[i].user, a[i].amount - t)];
            (if b[i].amount < Eps then b[i + 1..] else b[i..]) == Reduce(a[i..], t)
  {
    var head := Entry(a[i].user, a[i].amount - t);
    var b := a[i := head];
    assert b[i] == head;
    if head.amount < Eps {
      assert b[i + 1..] == Reduce(a[i..], t) by {
        assert a[i..][0] == a[i];
        assert b[i + 1..] == a[i..][1..];
      }
    } else {
      assert b[i..] == Reduce(a[i..], t) by {
        assert a[i..][0] == a[i];
        assert Reduce(a[i..], t) == [head] + a[i..][1..];
        assert b[i..] == [head] + a[i..][1..];
      }
    }
  }

  /** Lines 30-35 for one of the two lists: the entry under the cursor
      pays (or receives) `t`, and the cursor moves on once what is left is
      below Eps. */
  method Settle(a: array<Entry>, i: nat, t: real) returns (next: nat)
    requires i < a.Length
    modifies a
    ensures next == if old(a[i].amount) - t < Eps then i + 1 else i
    ensures a[..][next..] == Reduce(old(a[..])[i..], t)
  {
    ghost var before := a[..];
    a[i] := Entry(a[i].user, a[i].amount - t);
    assert a[..] == before[i := Entry(before[i].user, before[i].amount - t)];
    ReduceInPlace(before, i, t);
    next := i;
    if a[i].amount < Eps {
      next := i + 1;
    }
  }

  /** Phase 3 of `compute_settlements`: the two-cursor loop over the sorted
      lists, which it overwrites with the remaining amounts. */
  method MatchGreedy(da: array<Entry>, ca: array<Entry>) returns (out: seq<Transfer>)
    requires da != ca
    modifies da, ca
    ensures out == RoundTransfers(Greedy(old(da[..]), old(ca[..])))
  {
    ghost var goal := RoundTransfers(Greedy(da[..], ca[..]));
    assert da[..] == da[..][0..] && ca[..] == ca[..][0..];
    out := [];
    var i, j := 0, 0;
    while i < da.Length && j < ca.Length
      invariant 0 <= i <= da.Length && 0 <= j <= ca.Length
      invariant goal == out + RoundTransfers(Greedy(da[..][i..], ca[..][j..]))
      decreases da.Length - i + ca.Length - j
    {
      var du, dAmount := da[i].user, da[i].amount;
      var cu, cAmount := ca[j].user, ca[j].amount;
      var transfer := Min(dAmount, cAmount);
      ghost var ds, cs := da[..][i..], ca[..][j..];
      assert ds[0] == da[i] && cs[0] == ca[j];
      if transfer < Eps {
        break;
      }
      GreedyStep(ds, cs, transfer);
      out := out + [Transfer(du, cu, Round2(transfer))];
      i := Settle(da, i, transfer);
      j := Settle(ca, j, transfer);
    }
    assert Greedy(da[..][i..], ca[..][j..]) == [];
    assert out + [] == out;
  }

  /** `compute_settlements(balances)`; `balances` lists the map's items in
      iteration order. */
  method ComputeSettlements(balances: seq<Entry>) returns (out: seq<Transfer>)
    ensures out == Settlements(balances)
  {
    var debtors, creditors := Partition(balances);
    var da := new Entry[|debtors|](n requires 0 <= n < |debtors| => debtors[n]);
    var ca := new Entry[|creditors|](n requires 0 <= n < |creditors| => creditors[n]);
    assert da[..] == debtors && ca[..] == creditors;
    SortDescending(da);
    SortDescending(ca);
    out := MatchGreedy(da, ca);
  }

  /** The partition keeps only amounts above Eps, and sorting keeps them. */
  lemma AllAtLeastEpsSorted(d: seq<Entry>)
    requires forall e :: e in d ==> e.amount > Eps
    ensures AllAtLeastEps(SortDesc(d))
  {
    var r := SortDesc(d);
    SortDescPerm(d);
    forall i | 0 <= i < |r| ensures r[i].amount >= Eps {
      assert r[i] in multiset(r);
    }
  }
}
