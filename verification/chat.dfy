/** The chat assistant's actions on a group: resolving the group and member
    names it is given, choosing the participants of an expense it adds,
    the guard on a debt it settles, and how it describes each member's
    balance. */
module Chat {
  import opened Base
  import opened Money
  import opened Ledger
  import opened Records
  import opened Text
  import opened GroupBalances
  import opened SettlementCalculator
  import opened SettlementTheorems
  import opened SettlementProperties
  import opened SettlementScenarios
  import opened Expenses
  import opened SettlementsRouter

  /** A user as the assistant sees one: id, optional display name, email. */
  datatype Member = Member(id: UserId, name: Option<string>, email: string)

  /** A group with its members, in the order the relationship lists them. */
  datatype ChatGroup = ChatGroup(id: int, name: string, members: seq<Member>)

  /** The exceptions the assistant reports back: the ValueErrors of the
      lookups and guards, and the commit an expense with a repeated
      participant cannot make (the association table keys its rows by
      expense and user). */
  datatype ChatError =
    | NoSuchGroup
    | NoSuchMember
    | AmountNotPositive
    | DuplicateParticipant

  /** The user ids of a list of members. */
  function Ids(ms: seq<Member>): (r: seq<UserId>)
    ensures |r| == |ms|
    ensures forall i :: 0 <= i < |ms| ==> r[i] == ms[i].id
  {
    seq(|ms|, i requires 0 <= i < |ms| => ms[i].id)
  }

  lemma InIds(ms: seq<Member>, m: Member)
    requires m in ms
    ensures m.id in Ids(ms)
  {
    var i :| 0 <= i < |ms| && ms[i] == m;
    assert Ids(ms)[i] == m.id;
  }

  // ---------------------------------------------------------------------
  // First-match search
  // ---------------------------------------------------------------------

  /** The index of the first element satisfying `p`, or `|s|` if none does. */
  function FirstIndex<T>(s: seq<T>, p: T -> bool): (k: nat)
    ensures k <= |s|
    ensures forall j :: 0 <= j < k ==> !p(s[j])
    ensures k < |s| ==> p(s[k])
  {
    if s == [] || p(s[0]) then 0
    else
      var k := FirstIndex(s[1..], p);
      assert forall j :: 1 <= j < k + 1 ==> s[j] == s[1..][j - 1];
      k + 1
  }

  /** The first element satisfying `p` is found, whatever follows it. */
  lemma FirstIndexIs<T>(s: seq<T>, p: T -> bool, i: nat)
    requires i < |s| && p(s[i]) && forall j :: 0 <= j < i ==> !p(s[j])
    ensures FirstIndex(s, p) == i
  {
  }

  // ---------------------------------------------------------------------
  // _find_group
  // ---------------------------------------------------------------------

  /** The group name compares equal to the query, ignoring case. */
  predicate NamedExactly(g: ChatGroup, key: string)
  {
    Lower(g.name) == key
  }

  /** The group name contains the query, ignoring case. */
  predicate NamedPartly(g: ChatGroup, key: string)
  {
    Contains(Lower(g.name), key)
  }

  /** `_find_group`: among the caller's groups (in the order the database
      returns them), the first whose name equals the query ignoring case,
      else the first whose name contains it; None for the ValueError. */
  function FindGroup(groups: seq<ChatGroup>, name: string): (r: Option<ChatGroup>)
    ensures r.Some? ==> r.value in groups && NamedPartly(r.value, Lower(name))
    ensures r.None? <==> forall i :: 0 <= i < |groups| ==> !NamedPartly(groups[i], Lower(name))
  {
    var key := Lower(name);
    var k := FirstIndex(groups, g => NamedExactly(g, key));
    if k < |groups| then
      ContainsItself(key);
      Some(groups[k])
    else
      var j := FirstIndex(groups, g => NamedPartly(g, key));
      if j < |groups| then Some(groups[j])
      else
        assert forall i :: 0 <= i < |groups| ==> !NamedPartly(groups[i], key);
        None
  }

  /** An exact match wins over any partial match, even an earlier one: the
      result is the first group whose name equals the query. */
  lemma FindGroupExact(groups: seq<ChatGroup>, name: string, i: nat)
    requires i < |groups| && NamedExactly(groups[i], Lower(name))
    requires forall j :: 0 <= j < i ==> !NamedExactly(groups[j], Lower(name))
    ensures FindGroup(groups, name) == Some(groups[i])
  {
    var key := Lower(name);
    FirstIndexIs(groups, g => NamedExactly(g, key), i);
  }

  /** With no exact match, the result is the first group whose name
      contains the query. */
  lemma FindGroupPartial(groups: seq<ChatGroup>, name: string, i: nat)
    requires forall j :: 0 <= j < |groups| ==> !NamedExactly(groups[j], Lower(name))
    requires i < |groups| && NamedPartly(groups[i], Lower(name))
    requires forall j :: 0 <= j < i ==> !NamedPartly(groups[j], Lower(name))
    ensures FindGroup(groups, name) == Some(groups[i])
  {
    var key := Lower(name);
    FirstIndexIs(groups, g => NamedPartly(g, key), i);
  }

  // ---------------------------------------------------------------------
  // _find_member
  // ---------------------------------------------------------------------

  /** `m.email.lower() == val or (m.name and m.name.lower() == val)`. */
  predicate MatchesExactly(m: Member, val: string)
  {
    Lower(m.email) == val || (m.name.Some? && m.name.value != "" && Lower(m.name.value) == val)
  }

  /** `(m.name and val in m.name.lower()) or val in m.email.lower()`. */
  predicate MatchesPartly(m: Member, val: string)
  {
    (m.name.Some? && m.name.value != "" && Contains(Lower(m.name.value), val)) || Contains(Lower(m.email), val)
  }

  /** An exact match is also a partial match. */
  lemma ExactIsPartial(m: Member, val: string)
    requires MatchesExactly(m, val)
    ensures MatchesPartly(m, val)
  {
    ContainsItself(val);
  }

  /** `_find_member`: the query is lower-cased and stripped; the first
      member whose email or name equals it wins, else the first whose name
      or email contains it; None for the ValueError. */
  function FindMember(members: seq<Member>, query: string): (r: Option<Member>)
    ensures r.Some? ==> r.value in members && MatchesPartly(r.value, Normalise(query))
    ensures r.None? <==> forall i :: 0 <= i < |members| ==> !MatchesPartly(members[i], Normalise(query))
  {
    var val := Normalise(query);
    var k := FirstIndex(members, m => MatchesExactly(m, val));
    if k < |members| then
      ExactIsPartial(members[k], val);
      Some(members[k])
    else
      var j := FirstIndex(members, m => MatchesPartly(m, val));
      if j < |members| then Some(members[j])
      else
        assert forall i :: 0 <= i < |members| ==> !MatchesPartly(members[i], val);
        None
  }

  /** An exact match on email or name wins over any partial match. */
  lemma FindMemberExact(members: seq<Member>, query: string, i: nat)
    requires i < |members| && MatchesExactly(members[i], Normalise(query))
    requires forall j :: 0 <= j < i ==> !MatchesExactly(members[j], Normalise(query))
    ensures FindMember(members, query) == Some(members[i])
  {
    var val := Normalise(query);
    FirstIndexIs(members, m => MatchesExactly(m, val), i);
  }

  /** With no exact match, the first member whose name or email contains
      the query is chosen. */
  lemma FindMemberPartial(members: seq<Member>, query: string, i: nat)
    requires forall j :: 0 <= j < |members| ==> !MatchesExactly(members[j], Normalise(query))
    requires i < |members| && MatchesPartly(members[i], Normalise(query))
    requires forall j :: 0 <= j < i ==> !MatchesPartly(members[j], Normalise(query))
    ensures FindMember(members, query) == Some(members[i])
  {
    var val := Normalise(query);
    FirstIndexIs(members, m => MatchesPartly(m, val), i);
  }

  /** Case and surrounding whitespace in the query do not matter: a query
      and its normal form find the same member. */
  lemma FindMemberNormal(members: seq<Member>, query: string)
    ensures FindMember(members, Normalise(query)) == FindMember(members, query)
  {
    NormaliseTwice(query);
    SameNormalForm(members, Normalise(query), query);
  }

  /** The search depends on the query only through its normal form. */
  lemma SameNormalForm(members: seq<Member>, q1: string, q2: string)
    requires Normalise(q1) == Normalise(q2)
    ensures FindMember(members, q1) == FindMember(members, q2)
  {
  }

  /** A blank query (only whitespace) is contained in every name and email,
      so unless some email is empty it resolves to the first member. */
  lemma BlankQuery(members: seq<Member>, query: string)
    requires members != []
    requires forall i :: 0 <= i < |query| ==> IsSpace(query[i])
    requires forall i :: 0 <= i < |members| ==> members[i].email != ""
    ensures FindMember(members, query) == Some(members[0])
  {
    var val := Normalise(query);
    assert TrimStart(Lower(query)) == [] by {
      SpaceLowerAll(query);
    }
    assert val == [];
    forall j | 0 <= j < |members| ensures !MatchesExactly(members[j], val) {
      assert |Lower(members[j].email)| > 0;
    }
    ContainsItself(Lower(members[0].email));
    FindMemberPartial(members, query, 0);
  }

  lemma SpaceLowerAll(s: string)
    requires forall i :: 0 <= i < |s| ==> IsSpace(s[i])
    ensures TrimStart(Lower(s)) == []
  {
    var l := Lower(s);
    forall i | 0 <= i < |l| ensures IsSpace(l[i]) {
      SpaceLower(s[i]);
    }
  }

  /** `_find_group` as the loops run: the exact pass, then the substring
      pass, returning at the first hit. */
  method ResolveGroup(groups: seq<ChatGroup>, name: string) returns (r: Option<ChatGroup>)
    ensures r == FindGroup(groups, name)
  {
    var key := Lower(name);
    for i := 0 to |groups|
      invariant forall j :: 0 <= j < i ==> !NamedExactly(groups[j], key)
    {
      if NamedExactly(groups[i], key) {
        FindGroupExact(groups, name, i);
        return Some(groups[i]);
      }
    }
    for i := 0 to |groups|
      invariant forall j :: 0 <= j < i ==> !NamedPartly(groups[j], key)
    {
      if NamedPartly(groups[i], key) {
        FindGroupPartial(groups, name, i);
        return Some(groups[i]);
      }
    }
    return None;
  }

  /** `_find_member` as the loops run. */
  method ResolveMember(members: seq<Member>, query: string) returns (r: Option<Member>)
    ensures r == FindMember(members, query)
  {
    var val := Normalise(query);
    for i := 0 to |members|
      invariant forall j :: 0 <= j < i ==> !MatchesExactly(members[j], val)
    {
      if MatchesExactly(members[i], val) {
        FindMemberExact(members, query, i);
        return Some(members[i]);
      }
    }
    for i := 0 to |members|
      invariant forall j :: 0 <= j < i ==> !MatchesPartly(members[j], val)
    {
      if MatchesPartly(members[i], val) {
        FindMemberPartial(members, query, i);
        return Some(members[i]);
      }
    }
    return None;
  }

  // ---------------------------------------------------------------------
  // Participants of an expense added through the assistant
  // ---------------------------------------------------------------------

  /** The participant names asked for; a missing list means `["all"]`. */
  function Requested(names: Option<seq<string>>): seq<string>
  {
    if names.None? then ["all"] else names.value
  }

  /** An empty list, or the single name "all" in any case, means everyone. */
  predicate IsAll(names: seq<string>)
  {
    names == [] || (|names| == 1 && Lower(names[0]) == "all")
  }

  /** The name stands for the user: "me", "myself" or the user's own name,
      ignoring case. */
  predicate IsSelf(user: Member, pname: string)
  {
    var p := Lower(pname);
    p == "me" || p == "myself" || (user.name.Some? && user.name.value != "" && p == Lower(user.name.value))
  }

  /** A name that is not the user's and that no member matches: the
      member search raises on it. */
  predicate Unresolved(members: seq<Member>, user: Member, pname: string)
  {
    !IsSelf(user, pname) && FindMember(members, pname).None?
  }

  /** A name that is not the user's but that the member search resolves
      to the user anyway (by email, say). */
  predicate ResolvesToUser(members: seq<Member>, user: Member, pname: string)
  {
    !IsSelf(user, pname) && FindMember(members, pname) == Some(user)
  }

  /** One turn of the name loop: the user is added once, any other name is
      appended as the member it resolves to, repeats included. */
  function PickStep(members: seq<Member>, user: Member, ps: seq<Member>, pname: string): Option<seq<Member>>
  {
    if IsSelf(user, pname) then Some(if user in ps then ps else ps + [user])
    else
      match FindMember(members, pname)
      case None => None
      case Some(m) => Some(ps + [m])
  }

  /** The name loop over a prefix of the names; None once a name fails. */
  function Picked(members: seq<Member>, user: Member, names: seq<string>): Option<seq<Member>>
  {
    if names == [] then Some([])
    else
      match Picked(members, user, names[..|names| - 1])
      case None => None
      case Some(ps) => PickStep(members, user, ps, names[|names| - 1])
  }

  lemma CountSnoc<T>(s: seq<T>, x: T, y: T)
    ensures Count(s + [x], y) == Count(s, y) + (if x == y then 1 else 0)
  {
    assert (s + [x])[..|s|] == s;
  }

  lemma {:induction false} CountOnce<T>(s: seq<T>, x: T)
    requires Distinct(s) && x in s
    ensures Count(s, x) == 1
  {
    var init, last := s[..|s| - 1], s[|s| - 1];
    assert s == init + [last];
    CountSnoc(init, last, x);
    if last != x {
      assert x in init;
      CountOnce(init, x);
    }
  }

  lemma PickStepFails(members: seq<Member>, user: Member, ps: seq<Member>, pname: string)
    ensures PickStep(members, user, ps, pname).None? <==> Unresolved(members, user, pname)
  {
  }

  /** Some element of `s` satisfies `p`, looking from the back. */
  predicate AnyFrom<T>(s: seq<T>, p: T -> bool)
  {
    s != [] && (AnyFrom(s[..|s| - 1], p) || p(s[|s| - 1]))
  }

  lemma {:induction false} AnyFromAt<T>(s: seq<T>, p: T -> bool)
    ensures AnyFrom(s, p) <==> exists i :: 0 <= i < |s| && p(s[i])
  {
    if s != [] {
      var init := s[..|s| - 1];
      AnyFromAt(init, p);
      if AnyFrom(init, p) {
        var i :| 0 <= i < |init| && p(init[i]);
        assert s[i] == init[i];
      } else if !p(s[|s| - 1]) {
        forall i | 0 <= i < |s| ensures !p(s[i]) {
          if i < |init| {
            assert s[i] == init[i];
          }
        }
      }
    }
  }

  /** The test `Unresolved` as a value, for `AnyFrom`. */
  function UnresolvedIn(members: seq<Member>, user: Member): string -> bool
  {
    pname => Unresolved(members, user, pname)
  }

  /** Some name of the list is unresolved, looking from the back. */
  predicate AnyUnresolved(members: seq<Member>, user: Member, names: seq<string>)
  {
    AnyFrom(names, UnresolvedIn(members, user))
  }

  lemma {:induction false} PickedFailsAny(members: seq<Member>, user: Member, names: seq<string>)
    ensures Picked(members, user, names).None? <==> AnyUnresolved(members, user, names)
  {
    if names != [] {
      var init := names[..|names| - 1];
      PickedFailsAny(members, user, init);
      if Picked(members, user, init).Some? {
        PickStepFails(members, user, Picked(members, user, init).value, names[|names| - 1]);
      }
    }
  }

  /** The name loop fails exactly when some name is unresolved. */
  lemma PickedFails(members: seq<Member>, user: Member, names: seq<string>)
    ensures Picked(members, user, names).None? <==>
      exists i :: 0 <= i < |names| && Unresolved(members, user, names[i])
  {
    PickedFailsAny(members, user, names);
    AnyFromAt(names, UnresolvedIn(members, user));
  }

  /** What a name of the list stands for in the selection: the user for
      the user's own name, otherwise the member it resolves to. */
  predicate StandsFor(members: seq<Member>, user: Member, pname: string, x: Member)
  {
    if IsSelf(user, pname) then x == user else FindMember(members, pname) == Some(x)
  }

  /** The test `StandsFor(.., x)` as a value, for `AnyFrom`. */
  function StandsForIn(members: seq<Member>, user: Member, x: Member): string -> bool
  {
    pname => StandsFor(members, user, pname, x)
  }

  /** One turn of the name loop adds what the name stands for. */
  lemma PickStepContents(members: seq<Member>, user: Member, ps: seq<Member>, pname: string)
    requires PickStep(members, user, ps, pname).Some?
    ensures forall x :: x in PickStep(members, user, ps, pname).value <==>
      x in ps || StandsFor(members, user, pname, x)
  {
  }

  lemma {:induction false} PickedAny(members: seq<Member>, user: Member, names: seq<string>)
    requires Picked(members, user, names).Some?
    ensures forall x :: x in Picked(members, user, names).value <==> AnyFrom(names, StandsForIn(members, user, x))
  {
    if names != [] {
      var init, last := names[..|names| - 1], names[|names| - 1];
      PickedAny(members, user, init);
      PickStepContents(members, user, Picked(members, user, init).value, last);
      forall x ensures StandsForIn(members, user, x)(last) == StandsFor(members, user, last, x) {
      }
    }
  }

  /** The name loop selects exactly what the names stand for: each
      selected entry is named, and each named person is selected. */
  lemma PickedExactly(members: seq<Member>, user: Member, names: seq<string>)
    requires Picked(members, user, names).Some?
    ensures forall x :: x in Picked(members, user, names).value <==>
      exists i :: 0 <= i < |names| && StandsFor(members, user, names[i], x)
  {
    PickedAny(members, user, names);
    forall x ensures AnyFrom(names, StandsForIn(members, user, x)) <==>
      exists i :: 0 <= i < |names| && StandsFor(members, user, names[i], x)
    {
      AnyFromAt(names, StandsForIn(members, user, x));
    }
  }

  /** The name loop lists members of the group and the user, nobody else. */
  lemma {:induction false} PickedWithin(members: seq<Member>, user: Member, names: seq<string>)
    requires Picked(members, user, names).Some?
    ensures forall x :: x in Picked(members, user, names).value ==> x in members || x == user
  {
    if names != [] {
      PickedWithin(members, user, names[..|names| - 1]);
    }
  }

  /** The name loop adds the user at most once, unless some other name
      resolves to the user. */
  lemma {:induction false} PickedOnce(members: seq<Member>, user: Member, names: seq<string>)
    requires Picked(members, user, names).Some?
    ensures (forall i :: 0 <= i < |names| ==> !ResolvesToUser(members, user, names[i])) ==>
      Count(Picked(members, user, names).value, user) <= 1
  {
    if names != [] && forall i :: 0 <= i < |names| ==> !ResolvesToUser(members, user, names[i]) {
      var init, last := names[..|names| - 1], names[|names| - 1];
      assert forall i :: 0 <= i < |init| ==> init[i] == names[i];
      PickedOnce(members, user, init);
      var ps := Picked(members, user, init).value;
      if IsSelf(user, last) {
        if user !in ps {
          CountSnoc(ps, user, user);
        }
      } else {
        assert !ResolvesToUser(members, user, names[|names| - 1]);
        CountSnoc(ps, FindMember(members, last).value, user);
      }
    }
  }

  lemma PickedPrefix(members: seq<Member>, user: Member, names: seq<string>, k: nat)
    requires k < |names|
    ensures Picked(members, user, names[..k + 1]) ==
      match Picked(members, user, names[..k])
      case None => None
      case Some(ps) => PickStep(members, user, ps, names[k])
  {
    assert names[..k + 1][..k] == names[..k];
  }

  /** Once a name has failed, the whole selection fails. */
  lemma PickedStuck(members: seq<Member>, user: Member, names: seq<string>, k: nat)
    requires k <= |names| && Picked(members, user, names[..k]).None?
    ensures Picked(members, user, names).None?
  {
    PickedFails(members, user, names[..k]);
    var i :| 0 <= i < k && Unresolved(members, user, names[..k][i]);
    assert names[..k][i] == names[i];
    PickedFails(members, user, names);
  }

  /** The participants `_exec_add_expense` charges: everyone for "all" or
      an empty list; otherwise the named members followed by the user
      unless already listed; None when a name matches nobody. */
  function Participants(members: seq<Member>, user: Member, names: Option<seq<string>>): (r: Option<seq<Member>>)
    ensures IsAll(Requested(names)) ==> r == Some(members)
    ensures r.None? <==> (!IsAll(Requested(names)) &&
      exists i :: 0 <= i < |Requested(names)| && Unresolved(members, user, Requested(names)[i]))
    ensures r.Some? && !IsAll(Requested(names)) ==>
      user in r.value && forall x :: x in r.value ==> x in members || x == user
    ensures r.Some? && !IsAll(Requested(names)) ==>
      forall x :: x in r.value <==>
        x == user || exists i :: 0 <= i < |Requested(names)| && StandsFor(members, user, Requested(names)[i], x)
    ensures (r.Some? && !IsAll(Requested(names)) &&
             forall i :: 0 <= i < |Requested(names)| ==> !ResolvesToUser(members, user, Requested(names)[i])) ==>
      Count(r.value, user) == 1
  {
    var ns := Requested(names);
    if IsAll(ns) then Some(members)
    else
      PickedFails(members, user, ns);
      match Picked(members, user, ns)
      case None => None
      case Some(ps) =>
        PickedWithin(members, user, ns);
        PickedOnce(members, user, ns);
        PickedExactly(members, user, ns);
        if user in ps then Some(ps)
        else
          CountSnoc(ps, user, user);
          Some(ps + [user])
  }

  /** The participant selection as the loop runs, stopping at the first
      name that matches nobody. */
  method SelectParticipants(members: seq<Member>, user: Member, names: Option<seq<string>>)
    returns (r: Option<seq<Member>>)
    ensures r == Participants(members, user, names)
  {
    var ns := Requested(names);
    if IsAll(ns) {
      return Some(members);
    }
    var ps: seq<Member> := [];
    for k := 0 to |ns|
      invariant Picked(members, user, ns[..k]) == Some(ps)
    {
      PickedPrefix(members, user, ns, k);
      if IsSelf(user, ns[k]) {
        if user !in ps {
          ps := ps + [user];
        }
      } else {
        var m := ResolveMember(members, ns[k]);
        if m.None? {
          PickedStuck(members, user, ns, k + 1);
          return None;
        }
        ps := ps + [m.value];
      }
    }
    assert ns[..|ns|] == ns;
    if user !in ps {
      ps := ps + [user];
    }
    return Some(ps);
  }

  lemma PickedSnoc(members: seq<Member>, user: Member, names: seq<string>, q: string)
    ensures Picked(members, user, names + [q]) ==
      match Picked(members, user, names)
      case None => None
      case Some(ps) => PickStep(members, user, ps, q)
  {
    assert (names + [q])[..|names|] == names;
  }

  lemma PickOther(members: seq<Member>, user: Member, ps: seq<Member>, q: string, m: Member)
    requires !IsSelf(user, q) && FindMember(members, q) == Some(m)
    ensures PickStep(members, user, ps, q) == Some(ps + [m])
  {
  }

  lemma {:induction false} PickedTwice(members: seq<Member>, user: Member, q: string, m: Member)
    requires !IsSelf(user, q) && FindMember(members, q) == Some(m)
    ensures Picked(members, user, [q, q]) == Some([m, m])
  {
    PickedSnoc(members, user, [], q);
    assert [] + [q] == [q];
    PickOther(members, user, [], q, m);
    assert [] + [m] == [m];
    PickedSnoc(members, user, [q], q);
    assert [q] + [q] == [q, q];
    PickOther(members, user, [m], q, m);
    assert [m] + [m] == [m, m];
  }

  /** A name given twice is selected twice: the member it resolves to is
      listed twice, and the user is appended after. */
  lemma {:induction false} RepeatedName(members: seq<Member>, user: Member, q: string, m: Member)
    requires !IsSelf(user, q) && FindMember(members, q) == Some(m) && m != user
    ensures Participants(members, user, Some([q, q])) == Some([m, m, user])
  {
    var ns := [q, q];
    PickedTwice(members, user, q, m);
    assert Requested(Some(ns)) == ns;
    assert !IsAll(ns);
    assert user !in [m, m];
    assert [m, m] + [user] == [m, m, user];
  }

  // ---------------------------------------------------------------------
  // The expense the assistant adds
  // ---------------------------------------------------------------------

  /** `category` after the check: a non-empty name outside the fixed list
      becomes "other"; a missing or empty one stays as it is. */
  function ChatCategory(c: Option<string>): (r: Option<string>)
    ensures CategoryAllowed(r)
    ensures r == c <==> CategoryAllowed(c)
    ensures r != c ==> r == Some("other")
  {
    if c.Some? && c.value != "" && c.value !in Categories then Some("other") else c
  }

  /** The arguments the model passes to `add_expense`. */
  datatype AddExpenseArgs = AddExpenseArgs(
    groupName: string,
    amount: real,
    description: Option<string>,
    category: Option<string>,
    participantNames: Option<seq<string>>)

  /** `_exec_add_expense`: an equal split paid by the user, over the
      selected participants, in the group the name resolves to among the
      user's groups. The commit stores one association row per selected
      participant, so a selection that lists a user twice is refused
      there and nothing is stored. */
  function AddExpense(groups: seq<ChatGroup>, user: Member, args: AddExpenseArgs): (r: Result<Expense, ChatError>)
    ensures r == Err(NoSuchGroup) <==> FindGroup(groups, args.groupName).None?
    ensures r.Ok? ==>
      var g := FindGroup(groups, args.groupName).value;
      Participants(g.members, user, args.participantNames).Some? &&
      r.value.participants == Ids(Participants(g.members, user, args.participantNames).value) &&
      Distinct(r.value.participants) &&
      r.value.groupId == g.id && r.value.payer == user.id && r.value.amount == args.amount &&
      r.value.description == Some(if args.description.None? then "expense" else args.description.value) &&
      r.value.category == ChatCategory(args.category) && CategoryAllowed(r.value.category) &&
      r.value.splitType == "equal" && r.value.shares == [] && !ByShares(r.value)
    ensures r.Ok? <==> (FindGroup(groups, args.groupName).Some? &&
      var ps := Participants(FindGroup(groups, args.groupName).value.members, user, args.participantNames);
      ps.Some? && Distinct(Ids(ps.value)))
    ensures r == Err(NoSuchMember) <==> (FindGroup(groups, args.groupName).Some? &&
      Participants(FindGroup(groups, args.groupName).value.members, user, args.participantNames).None?)
    ensures r == Err(DuplicateParticipant) <==> (FindGroup(groups, args.groupName).Some? &&
      var ps := Participants(FindGroup(groups, args.groupName).value.members, user, args.participantNames);
      ps.Some? && !Distinct(Ids(ps.value)))
  {
    match FindGroup(groups, args.groupName)
    case None => Err(NoSuchGroup)
    case Some(g) =>
      match Participants(g.members, user, args.participantNames)
      case None => Err(NoSuchMember)
      case Some(ps) =>
        if !Distinct(Ids(ps)) then Err(DuplicateParticipant)
        else
          Ok(Expense(g.id, user.id, args.amount,
                     Some(if args.description.None? then "expense" else args.description.value),
                     ChatCategory(args.category), "equal", Ids(ps), []))
  }

  /** A member named twice is not charged twice: the expense listing them
      twice cannot be stored, and the assistant reports the failure. */
  lemma RepeatedNameRefused(groups: seq<ChatGroup>, user: Member, args: AddExpenseArgs, q: string, m: Member)
    requires FindGroup(groups, args.groupName).Some? && args.participantNames == Some([q, q])
    requires !IsSelf(user, q) && FindMember(FindGroup(groups, args.groupName).value.members, q) == Some(m)
    requires m != user
    ensures AddExpense(groups, user, args) == Err(DuplicateParticipant)
  {
    var g := FindGroup(groups, args.groupName).value;
    RepeatedName(g.members, user, q, m);
    var ids := Ids([m, m, user]);
    assert ids[0] == ids[1];
  }

  /** The groups the assistant searches are the user's own. */
  predicate OwnGroups(groups: seq<ChatGroup>, user: Member)
  {
    forall i :: 0 <= i < |groups| ==> user in groups[i].members
  }

  /** An expense the assistant adds always has participants, all of them
      members of its group, and is split equally: it can be charged to the
      group's balances without changing their sum. */
  lemma AddedExpenseCharges(groups: seq<ChatGroup>, user: Member, args: AddExpenseArgs, b: seq<Entry>)
    requires OwnGroups(groups, user)
    requires AddExpense(groups, user, args).Ok?
    requires Users(b) == Ids(FindGroup(groups, args.groupName).value.members)
    ensures var e := AddExpense(groups, user, args).value;
      e.participants != [] && KnownParties(Users(b), e) && Drift(e) == 0.0 &&
      ApplyExpense(b, e).Some? && Total(ApplyExpense(b, e).value) == Total(b)
  {
    var g := FindGroup(groups, args.groupName).value;
    var e := AddExpense(groups, user, args).value;
    var ps := Participants(g.members, user, args.participantNames).value;
    var i :| 0 <= i < |groups| && groups[i] == g;
    assert user in g.members;
    InIds(g.members, user);
    assert ps != [] by {
      if IsAll(Requested(args.participantNames)) {
        assert ps == g.members;
      }
    }
    forall j | 0 <= j < |e.participants| ensures e.participants[j] in Users(b) {
      assert ps[j] in ps;
      InIds(g.members, ps[j]);
    }
  }

  // ---------------------------------------------------------------------
  // Settling a debt through the assistant
  // ---------------------------------------------------------------------

  /** `_exec_settle_debt`: the group, then the recipient, must resolve, and
      the amount must be positive; the user pays. */
  function SettleDebt(groups: seq<ChatGroup>, user: Member, groupName: string, toName: string, amount: real)
    : (r: Result<Payment, ChatError>)
    ensures r == Err(NoSuchGroup) <==> FindGroup(groups, groupName).None?
    ensures r == Err(NoSuchMember) <==>
      FindGroup(groups, groupName).Some? && FindMember(FindGroup(groups, groupName).value.members, toName).None?
    ensures r.Ok? <==>
      FindGroup(groups, groupName).Some? && FindMember(FindGroup(groups, groupName).value.members, toName).Some? &&
      amount > 0.0
    ensures r.Ok? ==>
      var g := FindGroup(groups, groupName).value;
      r.value == Payment(g.id, user.id, FindMember(g.members, toName).value.id, amount)
  {
    match FindGroup(groups, groupName)
    case None => Err(NoSuchGroup)
    case Some(g) =>
      match FindMember(g.members, toName)
      case None => Err(NoSuchMember)
      case Some(to) =>
        if amount <= 0.0 then Err(ChatError.AmountNotPositive)
        else Ok(Payment(g.id, user.id, to.id, amount))
  }

  /** Once the names resolve, the assistant and `record_payment` accept the
      same payments and record the same row: both refuse exactly the
      amounts that are not positive. */
  lemma SettleDebtRecords(groups: seq<ChatGroup>, user: Member, groupName: string, toName: string, amount: real)
    requires OwnGroups(groups, user)
    requires FindGroup(groups, groupName).Some?
    requires FindMember(FindGroup(groups, groupName).value.members, toName).Some?
    ensures var g := FindGroup(groups, groupName).value;
      var to := FindMember(g.members, toName).value;
      var rec := RecordPayment(PaymentCreate(g.id, to.id, amount), user.id, Some(Ids(g.members)));
      var r := SettleDebt(groups, user, groupName, toName, amount);
      (r.Ok? <==> rec.Ok?) && (r.Ok? ==> r.value == rec.value) &&
      (r == Err(ChatError.AmountNotPositive) <==> rec == Err(RouterError.AmountNotPositive))
  {
    var g := FindGroup(groups, groupName).value;
    var to := FindMember(g.members, toName).value;
    var i :| 0 <= i < |groups| && groups[i] == g;
    InIds(g.members, user);
    InIds(g.members, to);
  }

  // ---------------------------------------------------------------------
  // Describing balances
  // ---------------------------------------------------------------------

  /** How a balance line reads. */
  datatype Standing = IsOwed | Owes | SettledUp

  /** `_exec_get_balances`: more than a cent is owed to the member, less
      than minus a cent is owed by them, anything between is settled up. */
  function Classify(bal: real): (s: Standing)
    ensures s == IsOwed <==> bal > Cent
    ensures s == Owes <==> bal < -Cent
    ensures s == SettledUp <==> -Cent <= bal <= Cent
  {
    if bal > Cent then IsOwed else if bal < -Cent then Owes else SettledUp
  }

  /** For balances that sum to zero, a member described as owed is paid by
      some suggested transfer, and one described as owing pays in one (the
      bound on the group's size keeps what the plan leaves over below a
      cent). */
  lemma {:induction false} DescribedAsSettled(b: seq<Entry>, u: UserId)
    requires Distinct(Users(b)) && Total(b) == 0.0 && |b| <= 1000000 && u in Users(b)
    ensures Classify(Lookup(b, u)) == IsOwed ==> exists t :: t in Settlements(b) && t.to == u
    ensures Classify(Lookup(b, u)) == Owes ==> exists t :: t in Settlements(b) && t.from == u
  {
    var i := IndexOf(Users(b), u);
    var ts := Plan(b);
    SettleUp(b);
    PlanWithin(b, u);
    var f := Apply(b, ts)[i].amount;
    assert f == Lookup(b, u) + SentBy(ts, u) - ReceivedBy(ts, u);
    assert -0.001 <= f <= 0.001;
    if Classify(Lookup(b, u)) == IsOwed {
      assert ReceivedBy(ts, u) != 0.0;
      ReceiverListed(ts, u);
      var j :| 0 <= j < |ts| && ts[j].to == u;
      assert Settlements(b)[j] in Settlements(b);
    }
    if Classify(Lookup(b, u)) == Owes {
      assert SentBy(ts, u) != 0.0;
      SenderListed(ts, u);
      var j :| 0 <= j < |ts| && ts[j].from == u;
      assert Settlements(b)[j] in Settlements(b);
    }
  }

  lemma ReceiverListed(ts: seq<Transfer>, u: UserId)
    requires ReceivedBy(ts, u) != 0.0
    ensures exists j :: 0 <= j < |ts| && ts[j].to == u
  {
    if forall t :: t in ts ==> t.to != u {
      ReceivedByAbsent(ts, u);
    }
  }

  lemma SenderListed(ts: seq<Transfer>, u: UserId)
    requires SentBy(ts, u) != 0.0
    ensures exists j :: 0 <= j < |ts| && ts[j].from == u
  {
    if forall t :: t in ts ==> t.from != u {
      SentByAbsent(ts, u);
    }
  }

  /** The converse does not hold: two members a cent apart are both
      described as settled up, yet a one-cent transfer is suggested. */
  lemma SettledButSuggested(u: UserId, v: UserId)
    requires u != v
    ensures Classify(Cent) == SettledUp && Classify(-Cent) == SettledUp
    ensures Settlements([Entry(u, Cent), Entry(v, -Cent)]) == [Transfer(v, u, Cent)]
  {
    CentsOf(1);
    PairSettles([Entry(u, Cent), Entry(v, -Cent)], u, v, Cent);
  }

  /** The balances the assistant describes are rounded, and rounded
      balances need not sum to zero: 0.02 paid by member 1 and split
      equally among five members leaves member 1 described as owed 0.02,
      everyone else at 0.0 and settled up, and no transfer suggested. */
  lemma {:induction false} OwedWithoutTransfer(members: seq<UserId>, e: Expense)
    requires members == [1, 2, 3, 4, 5]
    requires e.payer == 1 && e.amount == 0.02 && e.splitType == "equal" && e.participants == members
    ensures Balances(members, [e], []).Some?
    ensures var b := Balances(members, [e], []).value;
      Users(b) == members && Lookup(b, 1) == 0.02 && Classify(Lookup(b, 1)) == IsOwed &&
      (forall u :: u in members && u != 1 ==> Lookup(b, u) == 0.0 && Classify(Lookup(b, u)) == SettledUp) &&
      Settlements(b) == []
  {
    FiveWayRaw(members, e);
    TinyRounds();
    var raw := RawBalances(members, [e], []).value;
    var b := Balances(members, [e], []).value;
    assert b == MapAmounts(raw, Round2);
    forall u | u in members
      ensures Lookup(b, u) == (if u == 1 then 0.02 else 0.0)
    {
      var i := IndexOf(Users(b), u);
      assert b[i].amount == Round2(raw[i].amount);
    }
    assert forall x :: x in b ==> x.amount >= -Eps by {
      forall x | x in b ensures x.amount >= -Eps {
        var i :| 0 <= i < |b| && b[i] == x;
        assert b[i].amount == Round2(raw[i].amount);
      }
    }
    PlanEmpty(b);
  }

  /** The raw balances of that expense: 0.016 for the payer, -0.004 for
      each of the other four. */
  lemma FiveWayRaw(members: seq<UserId>, e: Expense)
    requires members == [1, 2, 3, 4, 5]
    requires e.payer == 1 && e.amount == 0.02 && e.splitType == "equal" && e.participants == members
    ensures RawBalances(members, [e], []).Some?
    ensures var raw := RawBalances(members, [e], []).value;
      Users(raw) == members &&
      forall i :: 0 <= i < |raw| ==> raw[i].amount == (if raw[i].user == 1 then 0.016 else -0.004)
  {
    assert Distinct(members);
    EqualSplitRaw(members, e);
  }

  /** Every key of `raw` holds what an equal split of `e` over `n`
      participants leaves it: the amount less a share for the payer, minus
      a share for anyone else. */
  predicate EqualSplitOf(raw: seq<Entry>, e: Expense, n: nat)
    requires n > 0
  {
    forall i :: 0 <= i < |raw| ==>
      raw[i].amount == (if raw[i].user == e.payer then e.amount else 0.0) - e.amount / n as real
  }

  /** An equal split over all the members, each listed once, leaves the
      payer at the amount less one share and everyone else at minus one
      share. */
  lemma EqualSplitRaw(members: seq<UserId>, e: Expense)
    requires Distinct(members) && e.payer in members && e.participants == members && !ByShares(e)
    ensures RawBalances(members, [e], []).Some?
    ensures Users(RawBalances(members, [e], []).value) == members
    ensures EqualSplitOf(RawBalances(members, [e], []).value, e, |members|)
  {
    var init := FromKeys(members, 0.0);
    assert ApplyExpense(init, e).Some? && Users(ApplyExpense(init, e).value) == members &&
      EqualSplitOf(ApplyExpense(init, e).value, e, |members|)
    by {
      StartsAtZero(members);
      EqualSplitAll(init, e);
    }
    assert RawBalances(members, [e], []) == ApplyExpense(init, e) by {
      OneExpense(members, e);
    }
  }

  lemma EqualSplitAll(b: seq<Entry>, e: Expense)
    requires Distinct(Users(b)) && forall u :: u in Users(b) ==> Lookup(b, u) == 0.0
    requires e.payer in Users(b) && e.participants == Users(b) && !ByShares(e)
    ensures ApplyExpense(b, e).Some? && Users(ApplyExpense(b, e).value) == Users(b)
    ensures EqualSplitOf(ApplyExpense(b, e).value, e, |Users(b)|)
  {
    assert KnownParties(Users(b), e);
    var raw := ApplyExpense(b, e).value;
    forall i | 0 <= i < |raw|
      ensures raw[i].amount == (if raw[i].user == e.payer then e.amount else 0.0) - e.amount / |Users(b)| as real
    {
      assert raw[i].user in Users(b);
      EqualSplitEntry(b, e, i);
    }
  }

  lemma EqualSplitEntry(b: seq<Entry>, e: Expense, i: nat)
    requires ApplyExpense(b, e).Some? && Distinct(Users(b)) && i < |ApplyExpense(b, e).value|
    requires !ByShares(e) && Distinct(e.participants)
    requires var u := ApplyExpense(b, e).value[i].user;
      u in e.participants && u in Users(b) && Lookup(b, u) == 0.0
    ensures var x := ApplyExpense(b, e).value[i];
      x.amount == (if x.user == e.payer then e.amount else 0.0) - e.amount / |e.participants| as real
  {
    var raw := ApplyExpense(b, e).value;
    EqualSplitOnce(b, e, raw[i].user);
    LookupEntry(raw, raw[i]);
  }

  /** With one expense and no payments, the balances are the starting
      dict with that expense applied. */
  lemma OneExpense(members: seq<UserId>, e: Expense)
    requires Distinct(members) && KnownParties(members, e)
    ensures ApplyExpense(FromKeys(members, 0.0), e).Some?
    ensures RawBalances(members, [e], []) == ApplyExpense(FromKeys(members, 0.0), e)
  {
    var init := FromKeys(members, 0.0);
    StartsAtZero(members);
    assert ApplyExpenses(init, [e]) == ApplyExpense(init, e) by {
      assert [e][..0] == [];
    }
  }

  /** Under an equal split naming each participant once, a participant
      who started at zero ends at what they paid less one share. */
  lemma EqualSplitOnce(b: seq<Entry>, e: Expense, u: UserId)
    requires ApplyExpense(b, e).Some? && u in Users(b) && Lookup(b, u) == 0.0
    requires !ByShares(e) && Distinct(e.participants) && u in e.participants
    ensures Lookup(ApplyExpense(b, e).value, u) ==
      (if u == e.payer then e.amount else 0.0) - e.amount / |e.participants| as real
  {
    ExpenseEffect(b, e, u);
    CountOnce(e.participants, u);
    assert Times(1, e.amount / |e.participants| as real) == e.amount / |e.participants| as real;
  }

  lemma TinyRounds()
    ensures Round2(0.016) == 0.02 && Round2(-0.004) == 0.0
  {
    assert RoundHalfEven(1.6) == 2;
    assert RoundHalfEven(-0.4) == 0;
  }

  // ---------------------------------------------------------------------
  // The assistant's copy of the balance aggregator
  // ---------------------------------------------------------------------

  /** The group's expenses among all stored ones, in stored order. */
  function ExpensesOf(groupId: int, es: seq<Expense>): (r: seq<Expense>)
    ensures |r| <= |es|
    ensures forall e :: e in r <==> e in es && e.groupId == groupId
  {
    if es == [] then []
    else
      var init, last := es[..|es| - 1], es[|es| - 1];
      assert es == init + [last];
      ExpensesOf(groupId, init) + (if last.groupId == groupId then [last] else [])
  }

  /** The group's payments among all stored ones, in stored order. */
  function PaymentsOf(groupId: int, ps: seq<Payment>): (r: seq<Payment>)
    ensures |r| <= |ps|
    ensures forall p :: p in r <==> p in ps && p.groupId == groupId
  {
    if ps == [] then []
    else
      var init, last := ps[..|ps| - 1], ps[|ps| - 1];
      assert ps == init + [last];
      PaymentsOf(groupId, init) + (if last.groupId == groupId then [last] else [])
  }

  /** The assistant's `_compute_balances`: the same loops as the
      settlements router's, over the group's own rows. */
  method ChatBalances(group: ChatGroup, expenses: seq<Expense>, payments: seq<Payment>)
    returns (r: Option<seq<Entry>>)
    ensures r == Balances(Ids(group.members), ExpensesOf(group.id, expenses), PaymentsOf(group.id, payments))
  {
    r := ComputeBalances(Ids(group.members), ExpensesOf(group.id, expenses), PaymentsOf(group.id, payments));
  }
}
