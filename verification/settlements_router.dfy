/** The settlements router: the suggested settlements of a group, the
    guard on recording a payment, and the dashboard's aggregation of a
    group's expenses. */
module SettlementsRouter {
  import opened Base
  import opened Money
  import opened Ledger
  import opened Records
  import opened GroupBalances
  import opened SettlementCalculator
  import opened SettlementTheorems

  /** The refusals of the router. `UnknownUser` stands for the KeyError
      raised when an expense or payment names a user outside the group's
      member list (an unhandled server error). */
  datatype RouterError =
    | GroupNotFound       // 404
    | NotAMember          // 403: the caller is not in the group
    | RecipientNotMember  // 400
    | AmountNotPositive   // 400
    | UnknownUser

  // ---------------------------------------------------------------------
  // get_settlements
  // ---------------------------------------------------------------------

  datatype SettlementSummary = SettlementSummary(balances: seq<Entry>, settlements: seq<Transfer>)

  /** `get_settlements`: for a member of an existing group, the rounded
      balances of its members and the transfers that settle them. */
  method GetSettlements(group: Option<seq<UserId>>, caller: UserId, expenses: seq<Expense>, payments: seq<Payment>)
    returns (r: Result<SettlementSummary, RouterError>)
    ensures group.None? <==> r == Err(GroupNotFound)
    ensures group.Some? && caller !in group.value <==> r == Err(NotAMember)
    ensures r.Ok? <==> group.Some? && caller in group.value && Balances(group.value, expenses, payments).Some?
    ensures r.Ok? ==>
      var b := Balances(group.value, expenses, payments).value;
      r.value == SettlementSummary(b, Settlements(b))
  {
    if group.None? {
      return Err(GroupNotFound);
    }
    if caller !in group.value {
      return Err(NotAMember);
    }
    var balances := ComputeBalances(group.value, expenses, payments);
    if balances.None? {
      return Err(UnknownUser);
    }
    var transfers := ComputeSettlements(balances.value);
    return Ok(SettlementSummary(balances.value, transfers));
  }

  // ---------------------------------------------------------------------
  // record_payment
  // ---------------------------------------------------------------------

  /** The body of a payment request: the payer is always the caller. */
  datatype PaymentCreate = PaymentCreate(groupId: int, to: UserId, amount: real)

  /** `record_payment`'s checks, in the source's order, and the payment it
      stores. `group` is the member list of the group the request names,
      if that group exists. */
  function RecordPayment(req: PaymentCreate, caller: UserId, group: Option<seq<UserId>>): (r: Result<Payment, RouterError>)
    ensures r.Ok? <==> group.Some? && caller in group.value && req.to in group.value && req.amount > 0.0
    ensures r.Ok? ==> r.value == Payment(req.groupId, caller, req.to, req.amount)
    ensures r.Err? ==> r.error != UnknownUser
    ensures r == Err(GroupNotFound) <==> group.None?
    ensures r == Err(NotAMember) <==> group.Some? && caller !in group.value
    ensures r == Err(RecipientNotMember) <==> group.Some? && caller in group.value && req.to !in group.value
    ensures r == Err(AmountNotPositive) <==>
      group.Some? && caller in group.value && req.to in group.value && req.amount <= 0.0
  {
    if group.None? then Err(GroupNotFound)
    else if caller !in group.value then Err(NotAMember)
    else if req.to !in group.value then Err(RecipientNotMember)
    else if req.amount <= 0.0 then Err(AmountNotPositive)
    else Ok(Payment(req.groupId, caller, req.to, req.amount))
  }

  /** An accepted payment can be applied to the group's balances: the
      caller's balance goes up by the amount and the recipient's goes down
      by it, everyone else's stays, and the sum is unchanged. */
  lemma AcceptedPaymentEffect(req: PaymentCreate, caller: UserId, b: seq<Entry>, u: UserId)
    requires RecordPayment(req, caller, Some(Users(b))).Ok?
    requires u in Users(b)
    ensures var p := RecordPayment(req, caller, Some(Users(b))).value;
      ApplyPayment(b, p).Some? &&
      Total(ApplyPayment(b, p).value) == Total(b) &&
      Lookup(ApplyPayment(b, p).value, u) ==
        Lookup(b, u) + (if u == caller then req.amount else 0.0) - (if u == req.to then req.amount else 0.0)
  {
    var p := RecordPayment(req, caller, Some(Users(b))).value;
    PaymentEffect(b, p, u);
  }

  /** The router does not refuse a payment to oneself; such a payment
      leaves every balance exactly as it was. */
  lemma SelfPayment(g: int, caller: UserId, x: real, b: seq<Entry>)
    requires caller in Users(b) && x > 0.0
    ensures RecordPayment(PaymentCreate(g, caller, x), caller, Some(Users(b))) == Ok(Payment(g, caller, caller, x))
    ensures ApplyPayment(b, Payment(g, caller, caller, x)) == Some(b)
  {
    var k := IndexOf(Users(b), caller);
    var b1 := AddTo(b, caller, x);
    assert AddTo(b1, caller, -x) == b by {
      assert IndexOf(Users(b1), caller) == k;
    }
  }

  /** Every transfer `get_settlements` suggests is between two members of
      the group, and the debtor can record it as a payment unless its
      rounded amount is zero. */
  lemma SuggestedPayment(g: int, b: seq<Entry>, t: Transfer)
    requires Distinct(Users(b)) && t in Settlements(b)
    ensures t.from in Users(b) && t.to in Users(b)
    ensures RecordPayment(PaymentCreate(g, t.to, t.amount), t.from, Some(Users(b))).Ok? <==> t.amount > 0.0
  {
    SettlementParties(b);
  }

  // ---------------------------------------------------------------------
  // get_dashboard
  // ---------------------------------------------------------------------

  /** The category an expense is counted under: its own, or "other" when it
      has none (None or the empty string). */
  function CategoryOf(e: Expense): (c: string)
    ensures c != ""
    ensures e.category.Some? && e.category.value != "" ==> c == e.category.value
  {
    if e.category.Some? && e.category.value != "" then e.category.value else "other"
  }

  /** `d.get(c, 0)` on the `dict[str, float]` of category totals. */
  function Get(t: map<string, real>, c: string): real
  {
    if c in t then t[c] else 0.0
  }

  /** The category totals the dashboard's loop builds: each expense adds
      its amount to its category's total, and `round` is applied to the
      new total at every step. */
  function Tally(es: seq<Expense>, round: real -> real): map<string, real>
  {
    if es == [] then map[] else TallyStep(Tally(es[..|es| - 1], round), es[|es| - 1], round)
  }

  /** `cat_totals[cat] = round(cat_totals.get(cat, 0) + e.amount, 2)`. */
  function TallyStep(t: map<string, real>, e: Expense, round: real -> real): map<string, real>
  {
    t[CategoryOf(e) := round(Get(t, CategoryOf(e)) + e.amount)]
  }

  /** The dashboard rounds each running category total to cents. */
  function CategoryTotals(es: seq<Expense>): map<string, real>
  {
    Tally(es, Round2)
  }

  /** One more expense adds its amount to its category's total. */
  lemma TallyPrefix(es: seq<Expense>, k: nat, round: real -> real)
    requires k < |es|
    ensures Tally(es[..k + 1], round) == TallyStep(Tally(es[..k], round), es[k], round)
  {
    assert es[..k + 1][..k] == es[..k];
  }

  /** `sum(e.amount for e in expenses)`, added front to back. */
  function SumAmounts(es: seq<Expense>): real
  {
    if es == [] then 0.0 else SumAmounts(es[..|es| - 1]) + es[|es| - 1].amount
  }

  /** The exact sum of the amounts of the expenses in category `c`. */
  function SpentOn(es: seq<Expense>, c: string): real
  {
    if es == [] then 0.0
    else SpentOn(es[..|es| - 1], c) + (if CategoryOf(es[|es| - 1]) == c then es[|es| - 1].amount else 0.0)
  }

  /** The exact sum of the amounts of the expenses `u` paid. */
  function PaidBy(es: seq<Expense>, u: UserId): real
  {
    if es == [] then 0.0
    else PaidBy(es[..|es| - 1], u) + (if es[|es| - 1].payer == u then es[|es| - 1].amount else 0.0)
  }

  /** `member_paid[e.payer_id] += e.amount`, or None on a KeyError. */
  function AddPaid(p: seq<Entry>, e: Expense): (r: Option<seq<Entry>>)
    ensures r.Some? <==> e.payer in Users(p)
    ensures r.Some? ==> Users(r.value) == Users(p)
  {
    if e.payer in Users(p) then Some(AddTo(p, e.payer, e.amount)) else None
  }

  /** The `member_paid` loop: each expense adds its amount to its payer's
      entry; a payer outside the dict is a KeyError. */
  function MemberPaid(b: seq<Entry>, es: seq<Expense>): (r: Option<seq<Entry>>)
    ensures r.Some? ==> Users(r.value) == Users(b)
  {
    if es == [] then Some(b)
    else
      match MemberPaid(b, es[..|es| - 1])
      case None => None
      case Some(p) => AddPaid(p, es[|es| - 1])
  }

  /** What the dashboard shows: the rounded total, the number of
      expenses, the category totals, what each member paid (rounded) and
      the caller's balance (0 when absent). */
  datatype Dashboard = Dashboard(
    totalExpenses: real,
    expenseCount: nat,
    categoryTotals: map<string, real>,
    memberSpending: seq<Entry>,
    yourBalance: real)

  /** `balances.get(u, 0)`. */
  function BalanceOr0(b: seq<Entry>, u: UserId): real
  {
    if u in Users(b) then Lookup(b, u) else 0.0
  }

  /** The dashboard of a group with members `members` for `caller`, or
      None when a KeyError aborts it. */
  function DashboardOf(members: seq<UserId>, caller: UserId, es: seq<Expense>, ps: seq<Payment>): (r: Option<Dashboard>)
    ensures r.Some? ==> MemberPaid(FromKeys(members, 0.0), es).Some? && Balances(members, es, ps).Some?
  {
    match MemberPaid(FromKeys(members, 0.0), es)
    case None => None
    case Some(paid) =>
      match Balances(members, es, ps)
      case None => None
      case Some(b) =>
        Some(Dashboard(Round2(SumAmounts(es)), |es|, CategoryTotals(es), MapAmounts(paid, Round2), BalanceOr0(b, caller)))
  }

  /** `get_dashboard`'s outcome: the access checks, then the aggregation. */
  function DashboardResult(group: Option<seq<UserId>>, caller: UserId, es: seq<Expense>, ps: seq<Payment>): Result<Dashboard, RouterError>
  {
    if group.None? then Err(GroupNotFound)
    else if caller !in group.value then Err(NotAMember)
    else
      match DashboardOf(group.value, caller, es, ps)
      case None => Err(UnknownUser)
      case Some(d) => Ok(d)
  }

  /** An aborted `member_paid` loop stays aborted. */
  lemma {:induction false} MemberPaidStuck(b: seq<Entry>, es: seq<Expense>, k: nat)
    requires k <= |es| && MemberPaid(b, es[..k]) == None
    ensures MemberPaid(b, es) == None
  {
    if k < |es| {
      assert es[..|es| - 1][..k] == es[..k];
      MemberPaidStuck(b, es[..|es| - 1], k);
    } else {
      assert es[..k] == es;
    }
  }

  /** `sum(e.amount for e in expenses)`. */
  method SumExpenses(expenses: seq<Expense>) returns (total: real)
    ensures total == SumAmounts(expenses)
  {
    total := 0.0;
    for k := 0 to |expenses|
      invariant total == SumAmounts(expenses[..k])
    {
      assert expenses[..k + 1][..k] == expenses[..k];
      total := total + expenses[k].amount;
    }
    assert expenses[..|expenses|] == expenses;
  }

  lemma MemberPaidPrefix(b: seq<Entry>, es: seq<Expense>, k: nat)
    requires k < |es| && MemberPaid(b, es[..k]).Some?
    ensures MemberPaid(b, es[..k + 1]) == AddPaid(MemberPaid(b, es[..k]).value, es[k])
  {
    assert es[..k + 1][..k] == es[..k];
  }

  /** The `member_paid` step of the dashboard's loop. */
  method RecordPaid(paid: seq<Entry>, e: Expense) returns (r: Option<seq<Entry>>)
    ensures r == AddPaid(paid, e)
  {
    if e.payer !in Users(paid) {
      return None;
    }
    return Some(AddTo(paid, e.payer, e.amount));
  }

  /** The dashboard's loop over the expenses: the category totals and what
      each member paid, or None on a KeyError. */
  method Aggregate(members: seq<UserId>, expenses: seq<Expense>)
    returns (r: Option<(map<string, real>, seq<Entry>)>)
    ensures r.None? <==> MemberPaid(FromKeys(members, 0.0), expenses).None?
    ensures r.Some? ==>
      r.value.0 == CategoryTotals(expenses) && r.value.1 == MemberPaid(FromKeys(members, 0.0), expenses).value
  {
    var cats: map<string, real> := map[];
    var paid := FromKeys(members, 0.0);
    for k := 0 to |expenses|
      invariant cats == CategoryTotals(expenses[..k])
      invariant MemberPaid(FromKeys(members, 0.0), expenses[..k]) == Some(paid)
    {
      var e := expenses[k];
      TallyPrefix(expenses, k, Round2);
      MemberPaidPrefix(FromKeys(members, 0.0), expenses, k);
      cats := TallyStep(cats, e, Round2);
      var next := RecordPaid(paid, e);
      if next.None? {
        MemberPaidStuck(FromKeys(members, 0.0), expenses, k + 1);
        return None;
      }
      paid := next.value;
    }
    assert expenses[..|expenses|] == expenses;
    return Some((cats, paid));
  }

  /** `get_dashboard`. */
  method GetDashboard(group: Option<seq<UserId>>, caller: UserId, expenses: seq<Expense>, payments: seq<Payment>)
    returns (r: Result<Dashboard, RouterError>)
    ensures r == DashboardResult(group, caller, expenses, payments)
  {
    if group.None? {
      return Err(GroupNotFound);
    }
    var members := group.value;
    if caller !in members {
      return Err(NotAMember);
    }
    var total := SumExpenses(expenses);
    var aggregated := Aggregate(members, expenses);
    if aggregated.None? {
      return Err(UnknownUser);
    }
    var (cats, paid) := aggregated.value;
    var balances := ComputeBalances(members, expenses, payments);
    if balances.None? {
      return Err(UnknownUser);
    }
    var mine := if caller in Users(balances.value) then Lookup(balances.value, caller) else 0.0;
    return Ok(Dashboard(Round2(total), |expenses|, cats, MapAmounts(paid, Round2), mine));
  }

  // ---------------------------------------------------------------------
  // What the dashboard's figures mean
  // ---------------------------------------------------------------------

  /** The `member_paid` loop fails exactly when some expense's payer is
      not a key of the dict. */
  lemma {:induction false} MemberPaidDefined(b: seq<Entry>, es: seq<Expense>)
    ensures MemberPaid(b, es).Some? <==> forall i :: 0 <= i < |es| ==> es[i].payer in Users(b)
  {
    if es != [] {
      var init := es[..|es| - 1];
      MemberPaidDefined(b, init);
      assert forall i :: 0 <= i < |init| ==> init[i] == es[i];
    }
  }

  /** After the `member_paid` loop each member's entry grew by exactly what
      that member paid, and the entries grew in all by the sum of the
      amounts. */
  lemma {:induction false} MemberPaidSums(b: seq<Entry>, es: seq<Expense>, u: UserId)
    requires Distinct(Users(b)) && MemberPaid(b, es).Some? && u in Users(b)
    ensures Lookup(MemberPaid(b, es).value, u) == Lookup(b, u) + PaidBy(es, u)
    ensures Total(MemberPaid(b, es).value) == Total(b) + SumAmounts(es)
  {
    if es != [] {
      var init, e := es[..|es| - 1], es[|es| - 1];
      MemberPaidSums(b, init, u);
      var p := MemberPaid(b, init).value;
      LookupAddTo(p, e.payer, e.amount, u);
    }
  }

  /** The categories listed are exactly those of the expenses. */
  lemma {:induction false} TallyKeys(es: seq<Expense>, round: real -> real)
    ensures forall c :: c in Tally(es, round) <==> exists i :: 0 <= i < |es| && CategoryOf(es[i]) == c
  {
    if es != [] {
      var init := es[..|es| - 1];
      TallyKeys(init, round);
      forall c ensures c in Tally(es, round) <==> exists i :: 0 <= i < |es| && CategoryOf(es[i]) == c {
        if exists i :: 0 <= i < |es| && CategoryOf(es[i]) == c {
          var i :| 0 <= i < |es| && CategoryOf(es[i]) == c;
          if i < |init| {
            assert init[i] == es[i];
          }
        }
        if exists i :: 0 <= i < |init| && CategoryOf(init[i]) == c {
          var i :| 0 <= i < |init| && CategoryOf(init[i]) == c;
          assert es[i] == init[i];
        }
      }
    }
  }

  /** When `round` always yields whole cents, every total is a whole
      number of cents. */
  lemma {:induction false} TallyCents(es: seq<Expense>, round: real -> real, c: string)
    requires forall x :: IsCents(round(x))
    ensures IsCents(Get(Tally(es, round), c))
  {
    if es == [] {
      CentsOf(0);
    } else if c != CategoryOf(es[|es| - 1]) {
      TallyCents(es[..|es| - 1], round, c);
    }
  }

  /** A sum of whole-cent amounts is a whole number of cents. */
  lemma {:induction false} SpentOnCents(es: seq<Expense>, c: string)
    requires forall i :: 0 <= i < |es| ==> IsCents(es[i].amount)
    ensures IsCents(SpentOn(es, c))
  {
    if es == [] {
      CentsOf(0);
    } else {
      var init, e := es[..|es| - 1], es[|es| - 1];
      assert forall i :: 0 <= i < |init| ==> init[i] == es[i];
      SpentOnCents(init, c);
      if CategoryOf(e) == c {
        CentsAdd(SpentOn(init, c), e.amount);
      } else {
        assert SpentOn(es, c) == SpentOn(init, c) + 0.0;
      }
    }
  }

  /** When every amount is a whole number of cents and `round` leaves whole
      cents as they are, the per-step rounding loses nothing: each
      category's total is the exact sum of its expenses' amounts. */
  lemma {:induction false} TallyExact(es: seq<Expense>, round: real -> real, c: string)
    requires forall i :: 0 <= i < |es| ==> IsCents(es[i].amount)
    requires forall x :: IsCents(x) ==> round(x) == x
    ensures Get(Tally(es, round), c) == SpentOn(es, c)
  {
    if es != [] {
      var init, e := es[..|es| - 1], es[|es| - 1];
      assert forall i :: 0 <= i < |init| ==> init[i] == es[i];
      TallyExact(init, round, c);
      if CategoryOf(e) == c {
        SpentOnCents(init, c);
        CentsAdd(SpentOn(init, c), e.amount);
      }
    }
  }

  /** The dashboard's category totals: one per category in use, each a
      whole number of cents, and exact when the amounts are whole cents. */
  lemma CategoryTotalsFacts(es: seq<Expense>, c: string)
    ensures c in CategoryTotals(es) <==> exists i :: 0 <= i < |es| && CategoryOf(es[i]) == c
    ensures IsCents(Get(CategoryTotals(es), c))
    ensures (forall i :: 0 <= i < |es| ==> IsCents(es[i].amount)) ==> Get(CategoryTotals(es), c) == SpentOn(es, c)
  {
    TallyKeys(es, Round2);
    TallyCents(es, Round2, c);
    if forall i :: 0 <= i < |es| ==> IsCents(es[i].amount) {
      forall x | IsCents(x) ensures Round2(x) == x {
        RoundCents(x);
      }
      TallyExact(es, Round2, c);
    }
  }

  /** `d[u]` of a dict whose values were all mapped through `f`. */
  lemma LookupMapped(b: seq<Entry>, f: real -> real, u: UserId)
    requires u in Users(b)
    ensures u in Users(MapAmounts(b, f)) && Lookup(MapAmounts(b, f), u) == f(Lookup(b, u))
  {
  }

  /** The dashboard's figures: the rounded total of all amounts, one
      spending row per member holding the rounded sum of what that member
      paid, and the caller's rounded balance. */
  lemma DashboardFigures(members: seq<UserId>, caller: UserId, es: seq<Expense>, ps: seq<Payment>, u: UserId)
    requires Distinct(members) && DashboardOf(members, caller, es, ps).Some?
    requires u in members
    ensures var d := DashboardOf(members, caller, es, ps).value;
      && d.expenseCount == |es|
      && -0.005 <= d.totalExpenses - SumAmounts(es) <= 0.005
      && Users(d.memberSpending) == members
      && Lookup(d.memberSpending, u) == Round2(PaidBy(es, u))
      && (caller in members ==>
            var b := Balances(members, es, ps).value;
            caller in Users(b) && d.yourBalance == Lookup(b, caller))
  {
    Conservation(members, es, ps);
    var init := FromKeys(members, 0.0);
    StartsAtZero(members);
    var paid := MemberPaid(init, es).value;
    MemberPaidSums(init, es, u);
    LookupMapped(paid, Round2, u);
  }

  /** The dashboard exists exactly when every expense's payer is a member
      and the balances can be computed. */
  lemma DashboardDefined(members: seq<UserId>, caller: UserId, es: seq<Expense>, ps: seq<Payment>)
    ensures DashboardOf(members, caller, es, ps).Some? <==>
      (forall i :: 0 <= i < |es| ==> es[i].payer in members) && RawBalances(members, es, ps).Some?
  {
    MemberPaidDefined(FromKeys(members, 0.0), es);
  }

  /** A first expense of a whole number of cents opens its category with
      its own amount. */
  lemma FirstTally(e: Expense)
    requires IsCents(e.amount)
    ensures CategoryTotals([e]) == map[CategoryOf(e) := e.amount]
  {
    TallyPrefix([e], 0, Round2);
    assert [e][..0] == [];
    RoundCents(e.amount);
  }

  /** A second expense, in another category, opens that category. */
  lemma SecondTally(e1: Expense, e2: Expense)
    requires IsCents(e1.amount) && IsCents(e2.amount) && CategoryOf(e1) != CategoryOf(e2)
    ensures CategoryTotals([e1, e2]) == map[CategoryOf(e1) := e1.amount, CategoryOf(e2) := e2.amount]
  {
    FirstTally(e1);
    TallyPrefix([e1, e2], 1, Round2);
    assert [e1, e2][..1] == [e1];
    RoundCents(e2.amount);
  }

  /** The sum of two amounts, front to back. */
  lemma SumOfTwo(e1: Expense, e2: Expense)
    ensures SumAmounts([e1, e2]) == e1.amount + e2.amount
  {
    assert [e1][..0] == [];
    assert SumAmounts([e1]) == e1.amount;
    assert [e1, e2][..1] == [e1];
  }

  /** The dashboard test: a 60.00 food expense and a 40.00 transport
      expense give a total of 100.00 over two expenses, with 60.00 under
      food and 40.00 under transport. */
  lemma FoodAndTransport(members: seq<UserId>, caller: UserId, lunch: Expense, taxi: Expense, ps: seq<Payment>)
    requires lunch.amount == 60.0 && lunch.category == Some("food")
    requires taxi.amount == 40.0 && taxi.category == Some("transport")
    requires DashboardOf(members, caller, [lunch, taxi], ps).Some?
    ensures var d := DashboardOf(members, caller, [lunch, taxi], ps).value;
      && d.totalExpenses == 100.0
      && d.expenseCount == 2
      && d.categoryTotals == map["food" := 60.0, "transport" := 40.0]
  {
    var es := [lunch, taxi];
    CentsOf(6000);
    CentsOf(4000);
    CentsOf(10000);
    SumOfTwo(lunch, taxi);
    RoundCents(100.0);
    SecondTally(lunch, taxi);
  }
}
