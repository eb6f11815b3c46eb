/** A Python `dict[int, float]` from user id to amount, kept as the
    sequence of its items in insertion order: the order in which Python
    iterates the dict, which the settlement minimiser's stable sort relies
    on for tie-breaking. */
module Ledger {
  import opened Base

  datatype Entry = Entry(user: UserId, amount: real)

  /** The dict's keys, in iteration order. */
  function Users(b: seq<Entry>): (r: seq<UserId>)
    ensures |r| == |b|
    ensures forall i :: 0 <= i < |b| ==> r[i] == b[i].user
  {
    seq(|b|, i requires 0 <= i < |b| => b[i].user)
  }

  lemma UsersConcat(a: seq<Entry>, b: seq<Entry>)
    ensures Users(a + b) == Users(a) + Users(b)
  {
  }

  lemma InUsers(s: seq<Entry>, e: Entry)
    requires e in s
    ensures e.user in Users(s)
  {
    var i :| 0 <= i < |s| && s[i] == e;
    assert Users(s)[i] == e.user;
  }

  /** Keys of a list whose entries all occur in another list occur there too. */
  lemma UsersSubset(r: seq<Entry>, s: seq<Entry>)
    requires forall e :: e in r ==> e in s
    ensures forall u :: u in Users(r) ==> u in Users(s)
  {
    forall u | u in Users(r) ensures u in Users(s) {
      var i :| 0 <= i < |r| && Users(r)[i] == u;
      assert r[i] in r;
      InUsers(s, r[i]);
    }
  }

  lemma UsersSubmultiset(r: seq<Entry>, s: seq<Entry>)
    requires multiset(r) <= multiset(s)
    ensures forall u :: u in Users(r) ==> u in Users(s)
  {
    forall e | e in r ensures e in s {
      assert e in multiset(r);
    }
    UsersSubset(r, s);
  }

  /** Sum of the dict's values. */
  function Total(b: seq<Entry>): real
  {
    if b == [] then 0.0 else b[0].amount + Total(b[1..])
  }

  lemma {:induction false} TotalAppend(a: seq<Entry>, b: seq<Entry>)
    ensures Total(a + b) == Total(a) + Total(b)
  {
    if a == [] {
      assert a + b == b;
    } else {
      assert (a + b)[1..] == a[1..] + b;
      TotalAppend(a[1..], b);
    }
  }

  /** Overwriting one item changes the sum by the difference. */
  lemma {:induction false} TotalUpdate(b: seq<Entry>, k: nat, e: Entry)
    requires k < |b|
    ensures Total(b[k := e]) == Total(b) - b[k].amount + e.amount
  {
    if k > 0 {
      assert b[k := e][1..] == b[1..][k - 1 := e];
      TotalUpdate(b[1..], k - 1, e);
    }
  }

  /** `d[u]`: the value stored under `u`. */
  function Lookup(b: seq<Entry>, u: UserId): real
    requires u in Users(b)
  {
    b[IndexOf(Users(b), u)].amount
  }

  /** In a dict, the value stored under an item's key is that item's value. */
  lemma LookupEntry(b: seq<Entry>, e: Entry)
    requires Distinct(Users(b)) && e in b
    ensures e.user in Users(b) && Lookup(b, e.user) == e.amount
  {
    var i :| 0 <= i < |b| && b[i] == e;
    assert Users(b)[i] == e.user;
    var k := IndexOf(Users(b), e.user);
    assert Users(b)[k] == Users(b)[i];
  }

  /** A present key has an item holding the value `d[u]`. */
  lemma LookupIn(b: seq<Entry>, u: UserId)
    requires u in Users(b)
    ensures Entry(u, Lookup(b, u)) in b
  {
    var k := IndexOf(Users(b), u);
    assert b[k] == Entry(u, Lookup(b, u));
  }

  /** `d[u] += x`, for a key that is present (Python raises KeyError
      otherwise, which callers model before calling this). */
  function AddTo(b: seq<Entry>, u: UserId, x: real): (r: seq<Entry>)
    requires u in Users(b)
    ensures Users(r) == Users(b)
    ensures Total(r) == Total(b) + x
  {
    var k := IndexOf(Users(b), u);
    var r := b[k := Entry(u, b[k].amount + x)];
    TotalUpdate(b, k, Entry(u, b[k].amount + x));
    assert Users(r) == Users(b);
    r
  }

  /** `d[u] += x` changes the entry of `u` alone, by `x`. */
  lemma AddToEntries(b: seq<Entry>, u: UserId, x: real)
    requires u in Users(b)
    ensures forall i :: 0 <= i < |b| ==>
      AddTo(b, u, x)[i].amount == if i == IndexOf(Users(b), u) then b[i].amount + x else b[i].amount
  {
  }

  /** After `d[u] += x`, `d[u]` grew by `x` and every other key kept its
      value. */
  lemma LookupAddTo(b: seq<Entry>, u: UserId, x: real, v: UserId)
    requires u in Users(b) && v in Users(b)
    ensures Lookup(AddTo(b, u, x), v) == Lookup(b, v) + (if v == u then x else 0.0)
  {
    var k, j := IndexOf(Users(b), u), IndexOf(Users(b), v);
    assert Users(b)[j] == v && Users(b)[k] == u;
    AddToEntries(b, u, x);
  }

  /** `d[u] = x`: overwrites the value of a present key in place, or
      appends a new key at the end of the iteration order. */
  function Put(b: seq<Entry>, u: UserId, x: real): (r: seq<Entry>)
    requires Distinct(Users(b))
    ensures Distinct(Users(r))
    ensures u in Users(r)
    ensures u in Users(b) ==> Users(r) == Users(b)
    ensures u !in Users(b) ==> Users(r) == Users(b) + [u]
    ensures forall i :: 0 <= i < |r| ==>
      r[i].amount == if r[i].user == u then x else b[i].amount
  {
    if u in Users(b) then
      var k := IndexOf(Users(b), u);
      var r := b[k := Entry(u, x)];
      assert forall i :: 0 <= i < |b| && i != k ==> b[i].user != u by {
        forall i | 0 <= i < |b| && i != k ensures b[i].user != u {
          if i < k { assert Users(b)[..k][i] == b[i].user; }
          else { assert Users(b)[k] != Users(b)[i]; }
        }
      }
      assert Users(r) == Users(b);
      r
    else
      var r := b + [Entry(u, x)];
      assert Users(r) == Users(b) + [u];
      r
  }

  /** `{u: x for u in us}`. */
  function FromKeys(us: seq<UserId>, x: real): (r: seq<Entry>)
    ensures Distinct(Users(r))
    ensures forall u :: u in Users(r) <==> u in us
    ensures Distinct(us) ==> Users(r) == us
    ensures forall i :: 0 <= i < |r| ==> r[i].amount == x
  {
    if us == [] then []
    else
      var init := FromKeys(us[..|us| - 1], x);
      var last := us[|us| - 1];
      assert us == us[..|us| - 1] + [last];
      Put(init, last, x)
  }

  /** `{u: f(v) for u, v in d.items()}` for the rounding the source
      applies to every balance before returning it. */
  function MapAmounts(b: seq<Entry>, f: real -> real): (r: seq<Entry>)
    ensures Users(r) == Users(b)
    ensures forall i :: 0 <= i < |b| ==> r[i].amount == f(b[i].amount)
  {
    seq(|b|, i requires 0 <= i < |b| => Entry(b[i].user, f(b[i].amount)))
  }
}
