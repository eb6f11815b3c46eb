/** The expenses router: the checks an expense must pass before it is
    stored, the field-by-field update of a stored expense, and the shape
    of the expense returned to the client. */
module Expenses {
  import opened Base
  import opened Money
  import opened Records
  import opened GroupBalances

  /** The body of a create request. `shares` is the optional dict from
      user id to share amount, as its items. */
  datatype ExpenseCreate = ExpenseCreate(
    groupId: int,
    payer: UserId,
    amount: real,
    description: Option<string>,
    participantIds: seq<UserId>,
    splitType: string,
    shares: Option<seq<Share>>,
    category: Option<string>)

  /** The body of an update request: every field is optional. */
  datatype ExpenseUpdate = ExpenseUpdate(
    amount: Option<real>,
    description: Option<string>,
    participantIds: Option<seq<UserId>>,
    splitType: Option<string>,
    shares: Option<seq<Share>>,
    category: Option<string>)

  /** The refusals of the router, in the order its checks run. */
  datatype ExpenseError =
    | GroupNotFound           // 404
    | NotAMember              // 403: the caller is not in the group
    | PayerNotMember          // 400
    | NoParticipants          // 400
    | ParticipantsNotMembers  // 400: an unknown or repeated participant id
    | InvalidCategory         // 400
    | SharesRequired          // 400
    | SharesMismatch          // 400: share keys differ from the participants
    | SharesTotalOff          // 400: shares miss the amount by over a cent

  /** Position of a check in the router's chain. */
  function Rank(err: ExpenseError): nat
  {
    match err
    case GroupNotFound => 0
    case NotAMember => 1
    case PayerNotMember => 2
    case NoParticipants => 3
    case ParticipantsNotMembers => 4
    case InvalidCategory => 5
    case SharesRequired => 6
    case SharesMismatch => 7
    case SharesTotalOff => 8
  }

  /** `split_type or "equal"`: an empty split type means an equal split. */
  function SplitTypeOrEqual(s: string): (r: string)
    ensures r != ""
    ensures s != "" ==> r == s
  {
    if s == "" then "equal" else s
  }

  /** A missing or empty category is accepted; any other must be one of
      the fixed categories. */
  predicate CategoryAllowed(c: Option<string>)
  {
    c.None? || c.value == "" || c.value in Categories
  }

  /** The set of elements of a list of ids. */
  function Elems(s: seq<UserId>): set<UserId>
  {
    set x | x in s
  }

  /** `set(shares.keys()) == set(participant_ids)`. */
  predicate SameKeys(ss: seq<Share>, ids: seq<UserId>)
  {
    Elems(ShareUsers(ss)) == Elems(ids)
  }

  /** `abs(round(sum(shares), 2) - amount) <= 0.01`. */
  predicate SharesAddUp(ss: seq<Share>, amount: real)
  {
    Abs(Round2(ShareTotal(ss)) - amount) <= Cent
  }

  /** `not data.shares`: no dict, or an empty one. */
  predicate NoShares(s: Option<seq<Share>>)
  {
    s.None? || s.value == []
  }

  predicate Custom(req: ExpenseCreate)
  {
    SplitTypeOrEqual(req.splitType) == "custom"
  }

  /** Whether the request breaks the rule behind `err`, each rule read on
      its own. */
  predicate Violates(req: ExpenseCreate, caller: UserId, group: Option<seq<UserId>>, err: ExpenseError)
  {
    match err
    case GroupNotFound => group.None?
    case NotAMember => group.Some? && caller !in group.value
    case PayerNotMember => group.Some? && req.payer !in group.value
    case NoParticipants => req.participantIds == []
    case ParticipantsNotMembers =>
      group.Some? && |FilterIn(group.value, req.participantIds)| != |req.participantIds|
    case InvalidCategory => !CategoryAllowed(req.category)
    case SharesRequired => Custom(req) && NoShares(req.shares)
    case SharesMismatch =>
      Custom(req) && !NoShares(req.shares) && !SameKeys(req.shares.value, req.participantIds)
    case SharesTotalOff =>
      Custom(req) && !NoShares(req.shares) && !SharesAddUp(req.shares.value, req.amount)
  }

  // ---------------------------------------------------------------------
  // Creation
  // ---------------------------------------------------------------------

  /** `create_expense`: `group` is the group the request names, if it
      exists. The expense keeps the participants in the group's member
      order, and its shares only under a custom split. The router refuses
      with the first rule the request breaks, and accepts exactly when it
      breaks none. */
  function CreateExpense(req: ExpenseCreate, caller: UserId, group: Option<seq<UserId>>): (r: Result<Expense, ExpenseError>)
    ensures r.Ok? ==> forall err :: !Violates(req, caller, group, err)
    ensures r.Ok? ==>
      r.value.groupId == req.groupId && r.value.payer == req.payer && r.value.amount == req.amount &&
      r.value.description == req.description && r.value.category == req.category &&
      r.value.splitType == SplitTypeOrEqual(req.splitType)
    ensures r.Err? ==>
      Violates(req, caller, group, r.error) &&
      forall err :: Rank(err) < Rank(r.error) ==> !Violates(req, caller, group, err)
  {
    if group.None? then Err(GroupNotFound)
    else
      var members := group.value;
      if caller !in members then Err(NotAMember)
      else if req.payer !in members then Err(PayerNotMember)
      else if req.participantIds == [] then Err(NoParticipants)
      else
        var participants := FilterIn(members, req.participantIds);
        if |participants| != |req.participantIds| then Err(ParticipantsNotMembers)
        else if req.category.Some? && req.category.value != "" && req.category.value !in Categories then
          Err(InvalidCategory)
        else
          var splitType := SplitTypeOrEqual(req.splitType);
          if splitType == "custom" && NoShares(req.shares) then Err(SharesRequired)
          else if splitType == "custom" && !SameKeys(req.shares.value, req.participantIds) then
            Err(SharesMismatch)
          else if splitType == "custom" && !SharesAddUp(req.shares.value, req.amount) then
            Err(SharesTotalOff)
          else
            var shares := if splitType == "custom" then req.shares.value else [];
            Ok(Expense(req.groupId, req.payer, req.amount, req.description, req.category,
                       splitType, participants, shares))
  }

  lemma {:induction false} ElemsCard(s: seq<UserId>)
    ensures |Elems(s)| <= |s|
    ensures |Elems(s)| == |s| <==> Distinct(s)
  {
    if s != [] {
      ElemsCard(s[1..]);
      DistinctCons(s);
      assert Elems(s) == {s[0]} + Elems(s[1..]);
      if s[0] in s[1..] {
        assert Elems(s) == Elems(s[1..]);
      }
    }
  }

  lemma {:induction false} SubsetCard(a: set<UserId>, b: set<UserId>)
    requires a <= b
    ensures |a| <= |b|
    ensures |a| == |b| ==> a == b
    decreases b
  {
    if a != b {
      if forall x :: x in b ==> x in a {
        assert false;
      }
      var x :| x in b && x !in a;
      SubsetCard(a, b - {x});
    }
  }

  lemma {:induction false} FilterInDistinct(s: seq<UserId>, keep: seq<UserId>)
    requires Distinct(s)
    ensures Distinct(FilterIn(s, keep))
  {
    if s != [] {
      DistinctCons(s);
      FilterInDistinct(s[1..], keep);
      if s[0] in keep {
        DistinctCons(FilterIn(s, keep));
      }
    }
  }

  /** When every id is a member, the members found among the ids are
      exactly the ids, as a set. */
  lemma ElemsFilter(members: seq<UserId>, ids: seq<UserId>)
    requires forall x :: x in ids ==> x in members
    ensures Elems(FilterIn(members, ids)) == Elems(ids)
  {
    forall x ensures x in Elems(FilterIn(members, ids)) <==> x in Elems(ids) {
      assert x in Elems(ids) <==> x in ids;
    }
  }

  /** The participant check: for a group without repeated members, the
      members found among the requested ids are as many as the ids exactly
      when every id is a member and no id is repeated. */
  lemma ParticipantsCheck(members: seq<UserId>, ids: seq<UserId>)
    requires Distinct(members)
    ensures |FilterIn(members, ids)| == |ids| <==> Distinct(ids) && forall x :: x in ids ==> x in members
  {
    var chosen := FilterIn(members, ids);
    FilterInDistinct(members, ids);
    ElemsCard(chosen);
    ElemsCard(ids);
    assert Elems(chosen) <= Elems(ids);
    SubsetCard(Elems(chosen), Elems(ids));
    if |chosen| == |ids| {
      assert Elems(chosen) == Elems(ids);
      forall x | x in ids ensures x in members {
        assert x in Elems(ids);
      }
    }
    if Distinct(ids) && forall x :: x in ids ==> x in members {
      assert Elems(chosen) == Elems(ids);
    }
  }

  /** What creation accepts, in terms of the request alone. */
  lemma CreateAccepts(req: ExpenseCreate, caller: UserId, members: seq<UserId>)
    requires Distinct(members)
    ensures CreateExpense(req, caller, Some(members)).Ok? <==>
      caller in members && req.payer in members && req.participantIds != [] &&
      Distinct(req.participantIds) && (forall x :: x in req.participantIds ==> x in members) &&
      CategoryAllowed(req.category) &&
      (Custom(req) ==>
        !NoShares(req.shares) && SameKeys(req.shares.value, req.participantIds) &&
        SharesAddUp(req.shares.value, req.amount))
  {
    ParticipantsCheck(members, req.participantIds);
    if CreateExpense(req, caller, Some(members)).Err? {
      var err := CreateExpense(req, caller, Some(members)).error;
      assert Violates(req, caller, Some(members), err);
    }
  }

  /** A stored expense is one the balance fold can charge: its payer and
      the users it debits are members, it has participants (each once,
      exactly the requested ones, in member order), it is charged by its
      shares exactly when its split is custom, and its shares then differ
      from its amount by at most 1.5 cents (one cent of tolerance plus half
      a cent of rounding). */
  lemma AcceptedExpense(req: ExpenseCreate, caller: UserId, members: seq<UserId>, e: Expense)
    requires Distinct(members) && CreateExpense(req, caller, Some(members)) == Ok(e)
    ensures KnownParties(members, e)
    ensures e.participants != [] && Distinct(e.participants)
    ensures Elems(e.participants) == Elems(req.participantIds)
    ensures e.participants == FilterIn(members, req.participantIds)
    ensures ByShares(e) <==> Custom(req)
    ensures -0.015 <= Drift(e) <= 0.015
    ensures e.groupId == req.groupId && e.payer == req.payer && e.amount == req.amount
    ensures e.description == req.description && e.category == req.category
    ensures e.splitType == SplitTypeOrEqual(req.splitType)
    ensures e.shares == (if Custom(req) then req.shares.value else [])
  {
    CreateAccepts(req, caller, members);
    FilterInDistinct(members, req.participantIds);
    ElemsFilter(members, req.participantIds);
    if Custom(req) {
      var ss := req.shares.value;
      assert Elems(ShareUsers(ss)) == Elems(req.participantIds);
      forall i | 0 <= i < |e.shares| ensures e.shares[i].user in members {
        assert ShareUsers(ss)[i] in Elems(ShareUsers(ss));
      }
    }
  }

  // ---------------------------------------------------------------------
  // The response
  // ---------------------------------------------------------------------

  /** What the client receives for an expense. */
  datatype ExpenseResponse = ExpenseResponse(
    groupId: int,
    payer: UserId,
    amount: real,
    description: Option<string>,
    category: Option<string>,
    splitType: string,
    shares: Option<seq<Share>>,
    participantIds: seq<UserId>)

  /** `_expense_response`: the shares are reported only for an expense
      charged by its shares, and an empty split type reads as "equal". */
  function Respond(e: Expense): (r: ExpenseResponse)
    ensures r.shares.Some? <==> ByShares(e)
    ensures r.splitType != "" && (e.splitType != "" ==> r.splitType == e.splitType)
  {
    ExpenseResponse(e.groupId, e.payer, e.amount, e.description, e.category,
      SplitTypeOrEqual(e.splitType), if ByShares(e) then Some(e.shares) else None, e.participants)
  }

  /** The response to a creation: the split type requested (or "equal"),
      the shares exactly when the split is custom, and the participants
      among the members. */
  lemma CreatedResponse(req: ExpenseCreate, caller: UserId, members: seq<UserId>, e: Expense)
    requires Distinct(members) && CreateExpense(req, caller, Some(members)) == Ok(e)
    ensures Respond(e).splitType == SplitTypeOrEqual(req.splitType)
    ensures Respond(e).shares.Some? <==> Custom(req)
    ensures Respond(e).shares.Some? ==> Respond(e).shares == req.shares
    ensures forall x :: x in Respond(e).participantIds <==> x in req.participantIds
  {
    AcceptedExpense(req, caller, members, e);
    assert forall x :: x in e.participants <==> x in Elems(e.participants);
  }

  /** A lunch of 50 paid by the caller for the caller alone, in category
      "food", with the default split: accepted, and reported with amount
      50, category "food" and split type "equal". */
  lemma LunchForOne(req: ExpenseCreate, caller: UserId, members: seq<UserId>)
    requires Distinct(members) && caller in members
    requires req.payer == caller && req.amount == 50.0 && req.participantIds == [caller]
    requires req.category == Some("food") && req.splitType == "equal" && req.shares.None?
    ensures CreateExpense(req, caller, Some(members)).Ok?
    ensures var r := Respond(CreateExpense(req, caller, Some(members)).value);
      r.amount == 50.0 && r.category == Some("food") && r.splitType == "equal" && r.shares.None?
  {
    CreateAccepts(req, caller, members);
  }

  // ---------------------------------------------------------------------
  // Update
  // ---------------------------------------------------------------------

  /** The first part of `update_expense`: the supplied amount and
      description replace the old ones, a supplied category must be allowed
      and an empty one clears it, and supplied participant ids are replaced
      by the matching members, which must be as many as the ids. */
  function Fielded(e: Expense, upd: ExpenseUpdate, members: seq<UserId>): Result<Expense, ExpenseError>
  {
    if upd.category.Some? && !CategoryAllowed(upd.category) then Err(InvalidCategory)
    else if upd.participantIds.Some? &&
            |FilterIn(members, upd.participantIds.value)| != |upd.participantIds.value| then
      Err(ParticipantsNotMembers)
    else
      Ok(e.(
        amount := if upd.amount.Some? then upd.amount.value else e.amount,
        description := if upd.description.Some? then upd.description else e.description,
        category :=
          if upd.category.None? then e.category
          else if upd.category.value == "" then None
          else upd.category,
        participants :=
          if upd.participantIds.Some? then FilterIn(members, upd.participantIds.value)
          else e.participants))
  }

  /** Whether an update brings new shares: a custom split type with a
      non-empty dict of shares. */
  predicate NewShares(upd: ExpenseUpdate)
  {
    upd.splitType == Some("custom") && !NoShares(upd.shares)
  }

  /** The second part: a supplied split type replaces the old one and
      drops every old share; new shares are kept only for a custom split,
      once they add up to the (already updated) amount within a cent. */
  function Resplit(e: Expense, upd: ExpenseUpdate): Result<Expense, ExpenseError>
  {
    if upd.splitType.None? then Ok(e)
    else if NewShares(upd) && !SharesAddUp(upd.shares.value, e.amount) then Err(SharesTotalOff)
    else Ok(e.(splitType := upd.splitType.value, shares := if NewShares(upd) then upd.shares.value else []))
  }

  /** What `update_expense` stores, or why it refuses: the group and
      access checks, then both parts in order. */
  function Patched(e: Expense, upd: ExpenseUpdate, caller: UserId, group: Option<seq<UserId>>): Result<Expense, ExpenseError>
  {
    if group.None? then Err(GroupNotFound)
    else if caller !in group.value then Err(NotAMember)
    else
      match Fielded(e, upd, group.value)
      case Err(err) => Err(err)
      case Ok(e1) => Resplit(e1, upd)
  }

  /** A stored expense row, updated in place by the router. */
  class ExpenseRow {
    var groupId: int
    var payer: UserId
    var amount: real
    var description: Option<string>
    var category: Option<string>
    var splitType: string
    var participants: seq<UserId>
    var shares: seq<Share>

    function Value(): Expense
      reads this
    {
      Expense(groupId, payer, amount, description, category, splitType, participants, shares)
    }

    constructor (e: Expense)
      ensures Value() == e
    {
      groupId, payer, amount := e.groupId, e.payer, e.amount;
      description, category, splitType := e.description, e.category, e.splitType;
      participants, shares := e.participants, e.shares;
    }

    /** Discards the changes made so far: the request's session is closed
        without a commit. */
    method Restore(e: Expense)
      modifies this
      ensures Value() == e
    {
      groupId, payer, amount := e.groupId, e.payer, e.amount;
      description, category, splitType := e.description, e.category, e.splitType;
      participants, shares := e.participants, e.shares;
    }

    /** Amount, description, category and participants, overwritten one at
        a time as their checks pass. */
    method TakeFields(upd: ExpenseUpdate, members: seq<UserId>) returns (err: Option<ExpenseError>)
      modifies this
      ensures err.None? ==> Fielded(old(Value()), upd, members) == Ok(Value())
      ensures err.Some? ==> Fielded(old(Value()), upd, members) == Err(err.value) && Value() == old(Value())
    {
      var saved := Value();
      if upd.amount.Some? {
        amount := upd.amount.value;
      }
      if upd.description.Some? {
        description := upd.description;
      }
      if upd.category.Some? {
        if upd.category.value != "" && upd.category.value !in Categories {
          Restore(saved);
          return Some(InvalidCategory);
        }
        category := if upd.category.value != "" then upd.category else None;
      }
      if upd.participantIds.Some? {
        var chosen := FilterIn(members, upd.participantIds.value);
        if |chosen| != |upd.participantIds.value| {
          Restore(saved);
          return Some(ParticipantsNotMembers);
        }
        participants := chosen;
      }
      return None;
    }

    /** The split type, the removal of the old shares and the addition of
        the new ones, one by one, after their sum is checked. */
    method TakeSplit(upd: ExpenseUpdate) returns (err: Option<ExpenseError>)
      requires upd.amount.Some? ==> amount == upd.amount.value
      modifies this
      ensures err.None? ==> Resplit(old(Value()), upd) == Ok(Value())
      ensures err.Some? ==> Resplit(old(Value()), upd) == Err(err.value) && Value() == old(Value())
    {
      if upd.splitType.None? {
        return None;
      }
      var saved := Value();
      splitType := upd.splitType.value;
      shares := [];
      if upd.splitType.value == "custom" && upd.shares.Some? && upd.shares.value != [] {
        var finalAmount := if upd.amount.Some? then upd.amount.value else amount;
        var totalShares := Round2(ShareTotal(upd.shares.value));
        if Abs(totalShares - finalAmount) > Cent {
          Restore(saved);
          return Some(SharesTotalOff);
        }
        var items := upd.shares.value;
        for k := 0 to |items|
          invariant shares == items[..k]
          invariant Value() == saved.(splitType := upd.splitType.value, shares := items[..k])
        {
          shares := shares + [items[k]];
        }
        assert items[..|items|] == items;
      }
      return None;
    }

    /** `update_expense` on this row: a refused update leaves the stored
        row as it was. */
    method Update(upd: ExpenseUpdate, caller: UserId, group: Option<seq<UserId>>) returns (err: Option<ExpenseError>)
      modifies this
      ensures err.None? ==> Patched(old(Value()), upd, caller, group) == Ok(Value())
      ensures err.Some? ==> Patched(old(Value()), upd, caller, group) == Err(err.value) && Value() == old(Value())
    {
      if group.None? {
        return Some(GroupNotFound);
      }
      if caller !in group.value {
        return Some(NotAMember);
      }
      var saved := Value();
      err := TakeFields(upd, group.value);
      if err.Some? {
        return;
      }
      err := TakeSplit(upd);
      if err.Some? {
        Restore(saved);
      }
    }
  }

  /** An update touches only what it supplies: each field is the supplied
      value when there is one and the old value otherwise, and the payer
      and group never change. */
  lemma PatchKeepsUnsupplied(e: Expense, upd: ExpenseUpdate, caller: UserId, group: Option<seq<UserId>>, r: Expense)
    requires Patched(e, upd, caller, group) == Ok(r)
    ensures r.groupId == e.groupId && r.payer == e.payer
    ensures r.amount == (if upd.amount.Some? then upd.amount.value else e.amount)
    ensures r.description == (if upd.description.Some? then upd.description else e.description)
    ensures upd.category.None? ==> r.category == e.category
    ensures upd.category.Some? ==> r.category == (if upd.category.value == "" then None else upd.category)
    ensures upd.participantIds.None? ==> r.participants == e.participants
    ensures upd.participantIds.Some? ==>
      group.Some? && r.participants == FilterIn(group.value, upd.participantIds.value)
    ensures upd.splitType.None? ==> r.splitType == e.splitType && r.shares == e.shares
  {
  }

  /** A supplied split type drops every old share: afterwards the expense
      holds no share, or it is a custom split holding exactly the supplied
      shares, which add up to its (final) amount within a cent. */
  lemma PatchResetsShares(e: Expense, upd: ExpenseUpdate, caller: UserId, group: Option<seq<UserId>>, r: Expense)
    requires Patched(e, upd, caller, group) == Ok(r) && upd.splitType.Some?
    ensures r.splitType == upd.splitType.value
    ensures r.shares == [] ||
      (r.splitType == "custom" && upd.shares == Some(r.shares) && SharesAddUp(r.shares, r.amount))
  {
  }

  /** The update is refused exactly when the group is missing, the caller
      is not a member, the category is not allowed, a participant id is
      unknown or repeated, or new custom shares miss the final amount by
      more than a cent. */
  lemma PatchRefuses(e: Expense, upd: ExpenseUpdate, caller: UserId, members: seq<UserId>)
    requires Distinct(members)
    ensures Patched(e, upd, caller, Some(members)).Err? <==>
      caller !in members ||
      (upd.category.Some? && !CategoryAllowed(upd.category)) ||
      (upd.participantIds.Some? &&
        !(Distinct(upd.participantIds.value) && forall x :: x in upd.participantIds.value ==> x in members)) ||
      (upd.splitType == Some("custom") && !NoShares(upd.shares) &&
        !SharesAddUp(upd.shares.value, if upd.amount.Some? then upd.amount.value else e.amount))
  {
    if upd.participantIds.Some? {
      ParticipantsCheck(members, upd.participantIds.value);
    }
  }

  /** Unlike creation, an update may leave an expense without
      participants (which the balance fold then skips: see
      `ApplyExpense`), and checks neither
      that custom shares name exactly the participants nor that the
      participants still include the payer. */
  lemma PatchAllowsEmpty(e: Expense, upd: ExpenseUpdate, caller: UserId, members: seq<UserId>)
    requires caller in members
    requires upd == ExpenseUpdate(None, None, Some([]), None, None, None)
    ensures Patched(e, upd, caller, Some(members)) == Ok(e.(participants := []))
  {
    if FilterIn(members, []) != [] {
      assert FilterIn(members, [])[0] in FilterIn(members, []);
    }
  }

  /** Changing amount, description and category of a stored expense:
      the three fields take the new values. */
  lemma RenameLunch(e: Expense, caller: UserId, members: seq<UserId>)
    requires caller in members
    ensures var upd := ExpenseUpdate(Some(30.0), Some("Updated"), None, None, None, Some("food"));
      var r := Patched(e, upd, caller, Some(members));
      r.Ok? && r.value.amount == 30.0 && r.value.description == Some("Updated") &&
      r.value.category == Some("food")
  {
  }
}
