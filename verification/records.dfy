/** The stored records the routers work on: expenses with their shares,
    payments, and the fixed category list. */
module Records {
  import opened Base

  /** One row of `expense_shares`: what a participant owes under a custom
      split. A request's shares arrive as a `dict[int, float]` and so never
      name a user twice; a `seq<Share>` can, so the validators accept
      some share lists no request can carry. */
  datatype Share = Share(user: UserId, amount: real)

  /** An expense row together with its participants (in the order the
      relationship lists them) and its shares. */
  datatype Expense = Expense(
    groupId: int,
    payer: UserId,
    amount: real,
    description: Option<string>,
    category: Option<string>,
    splitType: string,
    participants: seq<UserId>,
    shares: seq<Share>)

  /** A payment from one member to another. */
  datatype Payment = Payment(groupId: int, from: UserId, to: UserId, amount: real)

  /** The fixed list of expense categories. */
  const Categories: seq<string> :=
    ["food", "transport", "housing", "entertainment", "utilities",
     "shopping", "health", "travel", "education", "other"]

  /** The user ids of a list of shares, in order. */
  function ShareUsers(ss: seq<Share>): (r: seq<UserId>)
    ensures |r| == |ss|
    ensures forall i :: 0 <= i < |ss| ==> r[i] == ss[i].user
  {
    seq(|ss|, i requires 0 <= i < |ss| => ss[i].user)
  }

  /** `sum(shares.values())`, added up front to back. */
  function ShareTotal(ss: seq<Share>): real
  {
    if ss == [] then 0.0 else ShareTotal(ss[..|ss| - 1]) + ss[|ss| - 1].amount
  }

  /** Sum of the shares held by `u`. */
  function ShareOf(ss: seq<Share>, u: UserId): real
  {
    if ss == [] then 0.0
    else ShareOf(ss[..|ss| - 1], u) + (if ss[|ss| - 1].user == u then ss[|ss| - 1].amount else 0.0)
  }

  /** Whether the expense is charged by its shares rather than equally:
      a custom split type with at least one share. */
  predicate ByShares(e: Expense)
  {
    e.splitType == "custom" && e.shares != []
  }
}
