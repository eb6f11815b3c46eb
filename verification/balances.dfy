/** `_compute_balances`: every member's net balance in a group, folded from
    the group's expenses and payments. A positive balance means the member
    is owed money, a negative one that they owe. Indexing the balance dict
    with a user who is not a member raises KeyError in the source; here
    that outcome is `None`. */
module GroupBalances {
  import opened Base
  import opened Money
  import opened Ledger
  import opened Records

  // ---------------------------------------------------------------------
  // One expense, one payment
  // ---------------------------------------------------------------------

  /** `for s in e.shares: balances[s.user_id] -= s.share_amount`. */
  function DebitShares(b: seq<Entry>, ss: seq<Share>): (r: Option<seq<Entry>>)
    ensures r.Some? <==> forall i :: 0 <= i < |ss| ==> ss[i].user in Users(b)
    ensures r.Some? ==> Users(r.value) == Users(b) && Total(r.value) == Total(b) - ShareTotal(ss)
  {
    if ss == [] then Some(b)
    else
      var init, s := ss[..|ss| - 1], ss[|ss| - 1];
      assert forall i :: 0 <= i < |init| ==> init[i] == ss[i];
      match DebitShares(b, init)
      case None => None
      case Some(b1) => if s.user in Users(b1) then Some(AddTo(b1, s.user, -s.amount)) else None
  }

  /** `for p in e.participants: balances[p.id] -= share`. */
  function DebitEach(b: seq<Entry>, ps: seq<UserId>, share: real): (r: Option<seq<Entry>>)
    ensures r.Some? <==> forall i :: 0 <= i < |ps| ==> ps[i] in Users(b)
    ensures r.Some? ==> Users(r.value) == Users(b) && Total(r.value) == Total(b) - Times(|ps|, share)
  {
    if ps == [] then Some(b)
    else
      var init, p := ps[..|ps| - 1], ps[|ps| - 1];
      assert forall i :: 0 <= i < |init| ==> init[i] == ps[i];
      match DebitEach(b, init, share)
      case None => None
      case Some(b1) => if p in Users(b1) then Some(AddTo(b1, p, -share)) else None
  }

  /** `k * x`, as `k` repeated additions of `x`: how much `k` equal
      debits of `x` take off a balance. */
  function Times(k: nat, x: real): real
  {
    if k == 0 then 0.0 else Times(k - 1, x) + x
  }

  lemma {:induction false} TimesIsProduct(k: nat, x: real)
    ensures Times(k, x) == k as real * x
  {
    if k > 0 {
      TimesIsProduct(k - 1, x);
      assert (k - 1) as real * x + x == k as real * x;
    }
  }

  /** `n` equal parts of `a / n` add back up to `a`. */
  lemma EqualParts(a: real, n: nat)
    requires n > 0
    ensures Times(n, a / n as real) == a
  {
    TimesIsProduct(n, a / n as real);
    assert n as real * (a / n as real) == a;
  }

  /** Every user an expense touches is a key of the balance dict: always
      true of an expense without participants, which is skipped. */
  predicate KnownParties(us: seq<UserId>, e: Expense)
  {
    e.participants == [] ||
    (e.payer in us &&
     if ByShares(e) then forall i :: 0 <= i < |e.shares| ==> e.shares[i].user in us
     else forall i :: 0 <= i < |e.participants| ==> e.participants[i] in us)
  }

  /** How much an expense changes the sum of all balances: what its shares
      fall short of (or exceed) its amount. Zero for an equal split and for
      a skipped expense. */
  function Drift(e: Expense): real
  {
    if e.participants != [] && ByShares(e) then e.amount - ShareTotal(e.shares) else 0.0
  }

  /** One iteration of the expense loop: skip an expense without
      participants, otherwise credit the payer the amount and debit the
      shares (custom split with shares) or an equal part per participant. */
  function ApplyExpense(b: seq<Entry>, e: Expense): (r: Option<seq<Entry>>)
    ensures e.participants == [] ==> r == Some(b)
    ensures r.Some? <==> KnownParties(Users(b), e)
    ensures r.Some? ==> Users(r.value) == Users(b) && Total(r.value) == Total(b) + Drift(e)
  {
    if e.participants == [] then Some(b)
    else if e.payer !in Users(b) then None
    else
      var credited := AddTo(b, e.payer, e.amount);
      if ByShares(e) then DebitShares(credited, e.shares)
      else
        EqualParts(e.amount, |e.participants|);
        DebitEach(credited, e.participants, e.amount / |e.participants| as real)
  }

  /** One iteration of the payment loop: the payer's balance goes up by the
      amount and the recipient's goes down by it. */
  function ApplyPayment(b: seq<Entry>, p: Payment): (r: Option<seq<Entry>>)
    ensures r.Some? <==> p.from in Users(b) && p.to in Users(b)
    ensures r.Some? ==> Users(r.value) == Users(b) && Total(r.value) == Total(b)
  {
    if p.from !in Users(b) then None
    else
      var b1 := AddTo(b, p.from, p.amount);
      if p.to !in Users(b1) then None else Some(AddTo(b1, p.to, -p.amount))
  }

  lemma {:induction false} DebitSharesEffect(b: seq<Entry>, ss: seq<Share>, u: UserId)
    requires DebitShares(b, ss).Some? && u in Users(b)
    ensures Lookup(DebitShares(b, ss).value, u) == Lookup(b, u) - ShareOf(ss, u)
  {
    if ss != [] {
      var init, s := ss[..|ss| - 1], ss[|ss| - 1];
      var b1 := DebitShares(b, init).value;
      assert DebitShares(b, ss) == Some(AddTo(b1, s.user, -s.amount));
      DebitSharesEffect(b, init, u);
      LookupAddTo(b1, s.user, -s.amount, u);
    }
  }

  lemma {:induction false} DebitEachEffect(b: seq<Entry>, ps: seq<UserId>, share: real, u: UserId)
    requires DebitEach(b, ps, share).Some? && u in Users(b)
    ensures Lookup(DebitEach(b, ps, share).value, u) == Lookup(b, u) - Times(Count(ps, u), share)
  {
    if ps == [] {
      assert Count(ps, u) == 0;
    } else {
      var init, p := ps[..|ps| - 1], ps[|ps| - 1];
      var b1 := DebitEach(b, init, share).value;
      assert DebitEach(b, ps, share) == Some(AddTo(b1, p, -share));
      assert Lookup(b1, u) == Lookup(b, u) - Times(Count(init, u), share) by {
        DebitEachEffect(b, init, share, u);
      }
      assert Lookup(AddTo(b1, p, -share), u) == Lookup(b1, u) - (if p == u then share else 0.0) by {
        LookupAddTo(b1, p, -share, u);
      }
      assert Times(Count(ps, u), share) == Times(Count(init, u), share) + (if p == u then share else 0.0) by {
        assert Count(ps, u) == Count(init, u) + (if p == u then 1 else 0);
      }
    }
  }

  /** What one expense does to one member's balance: the payer is credited
      the whole amount; a custom split with shares debits each holder their
      shares, any other split debits `amount / n` once per time the member
      is listed among the n participants. */
  lemma ExpenseEffect(b: seq<Entry>, e: Expense, u: UserId)
    requires ApplyExpense(b, e).Some? && u in Users(b) && e.participants != []
    ensures Lookup(ApplyExpense(b, e).value, u) ==
      Lookup(b, u) + (if u == e.payer then e.amount else 0.0)
      - (if ByShares(e) then ShareOf(e.shares, u)
         else Times(Count(e.participants, u), e.amount / |e.participants| as real))
  {
    var credited := AddTo(b, e.payer, e.amount);
    LookupAddTo(b, e.payer, e.amount, u);
    if ByShares(e) {
      DebitSharesEffect(credited, e.shares, u);
    } else {
      DebitEachEffect(credited, e.participants, e.amount / |e.participants| as real, u);
    }
  }

  /** What one payment does to one member's balance. */
  lemma PaymentEffect(b: seq<Entry>, p: Payment, u: UserId)
    requires ApplyPayment(b, p).Some? && u in Users(b)
    ensures Lookup(ApplyPayment(b, p).value, u) ==
      Lookup(b, u) + (if u == p.from then p.amount else 0.0) - (if u == p.to then p.amount else 0.0)
  {
    var b1 := AddTo(b, p.from, p.amount);
    LookupAddTo(b, p.from, p.amount, u);
    LookupAddTo(b1, p.to, -p.amount, u);
  }

  // ---------------------------------------------------------------------
  // The two loops and the result
  // ---------------------------------------------------------------------

  /** The expense loop, over a prefix of the expenses. */
  function ApplyExpenses(b: seq<Entry>, es: seq<Expense>): Option<seq<Entry>>
  {
    if es == [] then Some(b)
    else
      match ApplyExpenses(b, es[..|es| - 1])
      case None => None
      case Some(b1) => ApplyExpense(b1, es[|es| - 1])
  }

  /** The payment loop, over a prefix of the payments. */
  function ApplyPayments(b: seq<Entry>, ps: seq<Payment>): Option<seq<Entry>>
  {
    if ps == [] then Some(b)
    else
      match ApplyPayments(b, ps[..|ps| - 1])
      case None => None
      case Some(b1) => ApplyPayment(b1, ps[|ps| - 1])
  }

  /** The balances before rounding: one 0.0 per member, then every expense,
      then every payment. */
  function RawBalances(members: seq<UserId>, es: seq<Expense>, ps: seq<Payment>): Option<seq<Entry>>
  {
    match ApplyExpenses(FromKeys(members, 0.0), es)
    case None => None
    case Some(b) => ApplyPayments(b, ps)
  }

  /** What `_compute_balances` returns: the raw balances, each rounded to
      cents. */
  function Balances(members: seq<UserId>, es: seq<Expense>, ps: seq<Payment>): (r: Option<seq<Entry>>)
    ensures r.Some? <==> RawBalances(members, es, ps).Some?
    ensures r.Some? ==>
      var raw := RawBalances(members, es, ps).value;
      Users(r.value) == Users(raw) &&
      forall i :: 0 <= i < |raw| ==>
        IsCents(r.value[i].amount) && -0.005 <= r.value[i].amount - raw[i].amount <= 0.005
  {
    match RawBalances(members, es, ps)
    case None => None
    case Some(b) => Some(MapAmounts(b, Round2))
  }

  /** Sum of the drifts of a list of expenses. */
  function TotalDrift(es: seq<Expense>): real
  {
    if es == [] then 0.0 else TotalDrift(es[..|es| - 1]) + Drift(es[|es| - 1])
  }

  lemma {:induction false} ExpensesFold(b: seq<Entry>, es: seq<Expense>)
    ensures ApplyExpenses(b, es).Some? <==> forall i :: 0 <= i < |es| ==> KnownParties(Users(b), es[i])
    ensures ApplyExpenses(b, es).Some? ==>
      Users(ApplyExpenses(b, es).value) == Users(b) &&
      Total(ApplyExpenses(b, es).value) == Total(b) + TotalDrift(es)
  {
    if es != [] {
      var init := es[..|es| - 1];
      ExpensesFold(b, init);
      assert forall i :: 0 <= i < |init| ==> init[i] == es[i];
    }
  }

  lemma {:induction false} PaymentsFold(b: seq<Entry>, ps: seq<Payment>)
    ensures ApplyPayments(b, ps).Some? <==>
      forall i :: 0 <= i < |ps| ==> ps[i].from in Users(b) && ps[i].to in Users(b)
    ensures ApplyPayments(b, ps).Some? ==>
      Users(ApplyPayments(b, ps).value) == Users(b) && Total(ApplyPayments(b, ps).value) == Total(b)
  {
    if ps != [] {
      var init := ps[..|ps| - 1];
      PaymentsFold(b, init);
      assert forall i :: 0 <= i < |init| ==> init[i] == ps[i];
    }
  }

  lemma {:induction false} TotalZero(b: seq<Entry>)
    requires forall i :: 0 <= i < |b| ==> b[i].amount == 0.0
    ensures Total(b) == 0.0
  {
    if b != [] {
      TotalZero(b[1..]);
    }
  }

  /** The dict starts with one entry per member, each 0.0. */
  lemma StartsAtZero(members: seq<UserId>)
    requires Distinct(members)
    ensures Users(FromKeys(members, 0.0)) == members
    ensures forall u :: u in members ==> Lookup(FromKeys(members, 0.0), u) == 0.0
    ensures Total(FromKeys(members, 0.0)) == 0.0
  {
    var b := FromKeys(members, 0.0);
    forall u | u in members ensures Lookup(b, u) == 0.0 {
      assert b[IndexOf(Users(b), u)].amount == 0.0;
    }
    TotalZero(b);
  }

  /** The balance map is defined exactly when every user the expenses and
      payments name is a member; it then holds one entry per member, and
      the balances add up to the total drift of the expenses (zero when
      every custom split's shares add up to its amount). */
  lemma Conservation(members: seq<UserId>, es: seq<Expense>, ps: seq<Payment>)
    requires Distinct(members)
    ensures RawBalances(members, es, ps).Some? <==>
      (forall i :: 0 <= i < |es| ==> KnownParties(members, es[i])) &&
      (forall i :: 0 <= i < |ps| ==> ps[i].from in members && ps[i].to in members)
    ensures RawBalances(members, es, ps).Some? ==>
      Users(RawBalances(members, es, ps).value) == members &&
      Total(RawBalances(members, es, ps).value) == TotalDrift(es)
  {
    var init := FromKeys(members, 0.0);
    StartsAtZero(members);
    ExpensesFold(init, es);
    if b :| ApplyExpenses(init, es) == Some(b) {
      PaymentsFold(b, ps);
    }
  }

  /** When every custom split's shares add up to its amount, no money is
      created or lost: the balances sum to zero. */
  lemma SumsToZero(members: seq<UserId>, es: seq<Expense>, ps: seq<Payment>)
    requires Distinct(members) && RawBalances(members, es, ps).Some?
    requires forall i :: 0 <= i < |es| ==> ByShares(es[i]) ==> ShareTotal(es[i].shares) == es[i].amount
    ensures Total(RawBalances(members, es, ps).value) == 0.0
  {
    Conservation(members, es, ps);
    NoDrift(es);
  }

  lemma {:induction false} NoDrift(es: seq<Expense>)
    requires forall i :: 0 <= i < |es| ==> ByShares(es[i]) ==> ShareTotal(es[i].shares) == es[i].amount
    ensures TotalDrift(es) == 0.0
  {
    if es != [] {
      NoDrift(es[..|es| - 1]);
    }
  }

  // ---------------------------------------------------------------------
  // The source function
  // ---------------------------------------------------------------------

  /** The inner loop over a custom split's shares. */
  method SubtractShares(b: seq<Entry>, ss: seq<Share>) returns (r: Option<seq<Entry>>)
    ensures r == DebitShares(b, ss)
  {
    var bal := b;
    for q := 0 to |ss|
      invariant DebitShares(b, ss[..q]) == Some(bal)
    {
      assert ss[..q + 1][..q] == ss[..q];
      if ss[q].user !in Users(bal) {
        assert ss[..q + 1][q] == ss[q];
        assert DebitShares(b, ss).None?;
        return None;
      }
      bal := AddTo(bal, ss[q].user, -ss[q].amount);
    }
    assert ss[..|ss|] == ss;
    return Some(bal);
  }

  /** The inner loop over an equal split's participants. */
  method SubtractEach(b: seq<Entry>, ps: seq<UserId>, share: real) returns (r: Option<seq<Entry>>)
    ensures r == DebitEach(b, ps, share)
  {
    var bal := b;
    for q := 0 to |ps|
      invariant DebitEach(b, ps[..q], share) == Some(bal)
    {
      assert ps[..q + 1][..q] == ps[..q];
      if ps[q] !in Users(bal) {
        assert ps[..q + 1][q] == ps[q];
        assert DebitEach(b, ps, share).None?;
        return None;
      }
      bal := AddTo(bal, ps[q], -share);
    }
    assert ps[..|ps|] == ps;
    return Some(bal);
  }

  /** One pass of the expense loop's body. */
  method AddExpense(b: seq<Entry>, e: Expense) returns (r: Option<seq<Entry>>)
    ensures r == ApplyExpense(b, e)
  {
    if e.participants == [] {
      return Some(b);
    }
    if e.payer !in Users(b) {
      return None;
    }
    var bal := AddTo(b, e.payer, e.amount);
    if e.splitType == "custom" && e.shares != [] {
      r := SubtractShares(bal, e.shares);
    } else {
      var share := e.amount / |e.participants| as real;
      r := SubtractEach(bal, e.participants, share);
    }
  }

  /** One pass of the payment loop's body. */
  method AddPayment(b: seq<Entry>, p: Payment) returns (r: Option<seq<Entry>>)
    ensures r == ApplyPayment(b, p)
  {
    if p.from !in Users(b) {
      return None;
    }
    var bal := AddTo(b, p.from, p.amount);
    if p.to !in Users(bal) {
      return None;
    }
    return Some(AddTo(bal, p.to, -p.amount));
  }

  /** The loop over the expenses. */
  method ChargeExpenses(init: seq<Entry>, expenses: seq<Expense>) returns (r: Option<seq<Entry>>)
    ensures r == ApplyExpenses(init, expenses)
  {
    var bal := init;
    for k := 0 to |expenses|
      invariant ApplyExpenses(init, expenses[..k]) == Some(bal)
    {
      assert expenses[..k + 1][..k] == expenses[..k];
      var next := AddExpense(bal, expenses[k]);
      if next.None? {
        ExpensesStuck(init, expenses, k + 1);
        return None;
      }
      bal := next.value;
    }
    assert expenses[..|expenses|] == expenses;
    return Some(bal);
  }

  /** The loop over the payments. */
  method SettlePayments(init: seq<Entry>, payments: seq<Payment>) returns (r: Option<seq<Entry>>)
    ensures r == ApplyPayments(init, payments)
  {
    var bal := init;
    for k := 0 to |payments|
      invariant ApplyPayments(init, payments[..k]) == Some(bal)
    {
      assert payments[..k + 1][..k] == payments[..k];
      var next := AddPayment(bal, payments[k]);
      if next.None? {
        PaymentsStuck(init, payments, k + 1);
        return None;
      }
      bal := next.value;
    }
    assert payments[..|payments|] == payments;
    return Some(bal);
  }

  /** `_compute_balances(group, expenses, payments)`. */
  method ComputeBalances(members: seq<UserId>, expenses: seq<Expense>, payments: seq<Payment>)
    returns (r: Option<seq<Entry>>)
    ensures r == Balances(members, expenses, payments)
  {
    var charged := ChargeExpenses(FromKeys(members, 0.0), expenses);
    if charged.None? {
      return None;
    }
    var paid := SettlePayments(charged.value, payments);
    if paid.None? {
      return None;
    }
    return Some(MapAmounts(paid.value, Round2));
  }

  /** A KeyError in one expense aborts the whole computation. */
  lemma ExpensesStuck(b: seq<Entry>, es: seq<Expense>, k: nat)
    requires k <= |es| && ApplyExpenses(b, es[..k]) == None
    ensures ApplyExpenses(b, es) == None
  {
    ExpensesFold(b, es[..k]);
    ExpensesFold(b, es);
    var i :| 0 <= i < k && !KnownParties(Users(b), es[..k][i]);
    assert es[..k][i] == es[i];
  }

  /** A KeyError in one payment aborts the whole computation. */
  lemma PaymentsStuck(b: seq<Entry>, ps: seq<Payment>, k: nat)
    requires k <= |ps| && ApplyPayments(b, ps[..k]) == None
    ensures ApplyPayments(b, ps) == None
  {
    PaymentsFold(b, ps[..k]);
    PaymentsFold(b, ps);
    var i :| 0 <= i < k && !(ps[..k][i].from in Users(b) && ps[..k][i].to in Users(b));
    assert ps[..k][i] == ps[i];
  }
}
