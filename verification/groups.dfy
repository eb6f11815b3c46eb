/** The groups router: building the member list of a new group, and the
    guarded updates of a group's name, description and members. Every
    operation on an existing group is refused to a caller who is not one
    of its members. */
module Groups {
  import opened Base

  /** The refusals of the router. */
  datatype GroupError =
    | NotAMember        // 403: the caller is not in the group
    | NoSuchUser        // 404: no user has the given email
    | AlreadyMember     // 400
    | NotInGroup        // 404: the user to remove is not a member
    | CannotRemoveSelf  // 400

  /** The member list after appending each user of `found`, in order,
      that is not listed yet. */
  function Enrol(start: seq<UserId>, found: seq<UserId>): seq<UserId>
  {
    if found == [] then start
    else
      var ms := Enrol(start, found[..|found| - 1]);
      var u := found[|found| - 1];
      if u in ms then ms else ms + [u]
  }

  /** Enrolling keeps the start list as a prefix, adds no user twice and
      lists exactly the users of the start list and of `found`. */
  lemma {:induction false} EnrolKeeps(start: seq<UserId>, found: seq<UserId>)
    requires Distinct(start)
    ensures Distinct(Enrol(start, found))
    ensures |Enrol(start, found)| >= |start| && Enrol(start, found)[..|start|] == start
    ensures forall x :: x in Enrol(start, found) <==> x in start || x in found
  {
    if found != [] {
      var init, u := found[..|found| - 1], found[|found| - 1];
      EnrolKeeps(start, init);
      var ms := Enrol(start, init);
      if u !in ms {
        DistinctSnoc(ms, u);
        assert (ms + [u])[..|start|] == ms[..|start|];
      }
      assert forall x :: x in found <==> x in init || x == u by {
        assert found == init + [u];
      }
    }
  }

  /** `create_group`'s member list: the creator, then (when ids were
      given) each user the lookup found, skipping users already listed.
      `users` are the ids of the stored users, in the order the database
      returns them; ids with no user are dropped. */
  method BuildMembers(creator: UserId, memberIds: seq<UserId>, users: seq<UserId>) returns (members: seq<UserId>)
    ensures members == Enrol([creator], if memberIds == [] then [] else FilterIn(users, memberIds))
    ensures |members| >= 1 && members[0] == creator && Distinct(members)
    ensures forall x :: x in members <==> x == creator || (x in memberIds && x in users)
  {
    members := [creator];
    var others: seq<UserId> := [];
    if memberIds != [] {
      others := FilterIn(users, memberIds);
      for k := 0 to |others|
        invariant members == Enrol([creator], others[..k])
      {
        assert others[..k + 1] == others[..k] + [others[k]];
        if others[k] !in members {
          members := members + [others[k]];
        }
      }
      assert others[..|others|] == others;
    }
    EnrolKeeps([creator], others);
  }

  /** A group: its name, its description and its members, in the order
      they joined. */
  class Group {
    var name: string
    var description: Option<string>
    var members: seq<UserId>

    constructor (name: string, description: Option<string>, members: seq<UserId>)
      ensures this.name == name && this.description == description && this.members == members
    {
      this.name := name;
      this.description := description;
      this.members := members;
    }

    /** `update_group`: a member may replace the name and the description;
        only the supplied ones change. */
    method Update(caller: UserId, newName: Option<string>, newDescription: Option<string>) returns (err: Option<GroupError>)
      modifies this
      ensures err == if caller in old(members) then None else Some(NotAMember)
      ensures members == old(members)
      ensures name == if err.None? && newName.Some? then newName.value else old(name)
      ensures description == if err.None? && newDescription.Some? then newDescription else old(description)
    {
      if caller !in members {
        return Some(NotAMember);
      }
      if newName.Some? {
        name := newName.value;
      }
      if newDescription.Some? {
        description := newDescription;
      }
      return None;
    }

    /** `add_group_member`: `found` is the user the email names, if any.
        A new member is appended at the end; a user already in the group is
        refused, so a list without repeats stays without repeats. */
    method AddMember(caller: UserId, found: Option<UserId>) returns (err: Option<GroupError>)
      modifies this
      ensures err ==
        if caller !in old(members) then Some(NotAMember)
        else if found.None? then Some(NoSuchUser)
        else if found.value in old(members) then Some(AlreadyMember)
        else None
      ensures err.None? ==> members == old(members) + [found.value]
      ensures err.Some? ==> members == old(members)
      ensures name == old(name) && description == old(description)
      ensures Distinct(old(members)) ==> Distinct(members)
    {
      if caller !in members {
        return Some(NotAMember);
      }
      if found.None? {
        return Some(NoSuchUser);
      }
      if found.value in members {
        return Some(AlreadyMember);
      }
      DistinctSnoc(members, found.value);
      members := members + [found.value];
      return None;
    }

    /** `remove_group_member`: a member may remove another member, never
        themselves; the removed user is gone and the others keep their
        order. */
    method RemoveMember(caller: UserId, user: UserId) returns (err: Option<GroupError>)
      modifies this
      ensures err ==
        if caller !in old(members) then Some(NotAMember)
        else if user !in old(members) then Some(NotInGroup)
        else if user == caller then Some(CannotRemoveSelf)
        else None
      ensures err.None? ==> members == RemoveFirst(old(members), user)
      ensures err.Some? ==> members == old(members)
      ensures name == old(name) && description == old(description)
      ensures Distinct(old(members)) ==> Distinct(members)
      ensures Distinct(old(members)) && err.None? ==> user !in members && caller in members
    {
      if caller !in members {
        return Some(NotAMember);
      }
      if user !in members {
        return Some(NotInGroup);
      }
      if user == caller {
        return Some(CannotRemoveSelf);
      }
      if Distinct(members) {
        RemoveExactly(members, user);
      }
      members := RemoveFirst(members, user);
      return None;
    }
  }

  /** Removing a member of a list without repeats takes out that user
      alone: every other user stays, in the same order, and the list stays
      without repeats. */
  lemma RemoveExactly(s: seq<UserId>, u: UserId)
    requires Distinct(s) && u in s
    ensures var r := RemoveFirst(s, u);
      Distinct(r) && u !in r && |r| == |s| - 1 &&
      (forall x :: x != u ==> (x in r <==> x in s)) &&
      exists k :: 0 <= k < |s| && r == s[..k] + s[k + 1..]
  {
    var k := IndexOf(s, u);
    var r := RemoveFirst(s, u);
    assert r == s[..k] + s[k + 1..];
    RemoveKeepsDistinct(s, k);
    forall i | 0 <= i < |r| ensures r[i] != u {
      var i' := if i < k then i else i + 1;
      assert r[i] == s[i'] && s[k] == u;
    }
    assert s == s[..k] + [u] + s[k + 1..];
  }

  lemma RemoveKeepsDistinct(s: seq<UserId>, k: nat)
    requires Distinct(s) && k < |s|
    ensures Distinct(s[..k] + s[k + 1..])
  {
    var r := s[..k] + s[k + 1..];
    forall i, j | 0 <= i < j < |r| ensures r[i] != r[j] {
      var i', j' := if i < k then i else i + 1, if j < k then j else j + 1;
      assert r[i] == s[i'] && r[j] == s[j'];
    }
  }

  /** Adding a user and removing the same user gives the member list back:
      `add_group_member` and `remove_group_member` undo each other. */
  lemma AddThenRemove(s: seq<UserId>, u: UserId)
    requires u !in s
    ensures RemoveFirst(s + [u], u) == s
  {
    var k := IndexOf(s + [u], u);
    assert (s + [u])[|s|] == u;
    assert (s + [u])[..k] == s;
  }

  /** The membership tests: a group created with no other ids holds its
      creator alone, adding a second user makes two members, and removing
      that user leaves one. */
  method MembershipRoundTrip(creator: UserId, second: UserId) returns (sizes: seq<nat>)
    requires creator != second
    ensures sizes == [1, 2, 1]
  {
    var ms := BuildMembers(creator, [], []);
    var g := new Group("G", None, ms);
    var n1 := |g.members|;
    var e1 := g.AddMember(creator, Some(second));
    var n2 := |g.members|;
    AddThenRemove([creator], second);
    var e2 := g.RemoveMember(creator, second);
    sizes := [n1, n2, |g.members|];
  }
}
