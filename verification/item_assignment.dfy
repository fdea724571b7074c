/** The assignment screen: for every item of the saved order, the set of
    users who shared it; a live preview of what each user will owe; and the
    save that turns the sets into a bulk split request. */
module ItemAssignment {
  import opened Domain
  import opened Ledger
  import Allocation

  /** `assignments[itemId]`: the users who shared an item, a JavaScript
      `Set` kept as a sequence without repeats in insertion order. */
  type Assignments = map<int, seq<int>>

  /** `prev[itemId]` read as a set: a missing entry is the empty set
      (`new Set(undefined)`). */
  function Members(asg: Assignments, itemId: int): seq<int> {
    if itemId in asg then asg[itemId] else []
  }

  /** `assignments[item.id] || []`: an item with no entry has nobody on it;
      otherwise its members are exactly its set's. */
  lemma MembersMeaning(asg: Assignments, itemId: int)
    ensures itemId !in asg ==> Members(asg, itemId) == []
    ensures forall u :: u in Members(asg, itemId) <==> itemId in asg && u in asg[itemId]
  {
  }

  // ---------------------------------------------------------------------
  // Toggling one user on one item

  /** `set.delete(u)`: the other members keep their order. */
  function Remove(s: seq<int>, u: int): (r: seq<int>)
    ensures |r| <= |s|
  {
    if s == [] then []
    else Remove(s[..|s| - 1], u) + (if s[|s| - 1] == u then [] else [s[|s| - 1]])
  }

  /** Removing takes out `u` and nothing else, and keeps a set a set. */
  lemma {:induction false} RemoveMeaning(s: seq<int>, u: int)
    ensures u !in Remove(s, u)
    ensures forall v :: v != u ==> (v in Remove(s, u) <==> v in s)
    ensures NoDups(s) ==> NoDups(Remove(s, u))
    ensures u !in s ==> Remove(s, u) == s
  {
    if s != [] {
      var p, last := s[..|s| - 1], s[|s| - 1];
      RemoveMeaning(p, u);
      assert s == p + [last];
      if NoDups(s) {
        NoDupsSnoc(s);
      }
    }
  }

  /** The set after `toggle`: `u` leaves if it was in, joins at the end if not. */
  function Toggled(s: seq<int>, u: int): seq<int> {
    if u in s then Remove(s, u) else s + [u]
  }

  /** Toggling flips the membership of `u` alone and keeps a set a set. */
  lemma ToggledMeaning(s: seq<int>, u: int)
    ensures u in Toggled(s, u) <==> u !in s
    ensures forall v :: v != u ==> (v in Toggled(s, u) <==> v in s)
    ensures NoDups(s) ==> NoDups(Toggled(s, u))
  {
    RemoveMeaning(s, u);
  }

  /** Toggling twice gives back the same set; when `u` was not in it, even
      the same order (a member toggled off and on again moves to the end). */
  lemma ToggleTwice(s: seq<int>, u: int)
    ensures forall v :: v in Toggled(Toggled(s, u), u) <==> v in s
    ensures u !in s ==> Toggled(Toggled(s, u), u) == s
  {
    ToggledMeaning(s, u);
    ToggledMeaning(Toggled(s, u), u);
    if u !in s {
      var t := s + [u];
      assert t[..|t| - 1] == s;
      RemoveMeaning(s, u);
    }
  }

  // ---------------------------------------------------------------------
  // Filling every item

  predicate ItemKey(items: seq<Item>, id: int) {
    exists k :: 0 <= k < |items| && items[k].id == id
  }

  /** The `forEach` that gives every order item the same set (lines 40-43,
      63-66 and 71-74). */
  method FillAll(items: seq<Item>, members: seq<int>) returns (next: Assignments)
    ensures forall k :: 0 <= k < |items| ==> items[k].id in next
    ensures forall id :: id in next ==> ItemKey(items, id) && next[id] == members
  {
    next := map[];
    for i := 0 to |items|
      invariant forall k :: 0 <= k < i ==> items[k].id in next
      invariant forall id :: id in next ==> (exists k :: 0 <= k < i && items[k].id == id) && next[id] == members
    {
      next := next[items[i].id := members];
    }
  }

  // ---------------------------------------------------------------------
  // The preview

  /** `users.forEach((u) => { userSubtotals[u.id] = 0; })` */
  function Zeros(users: seq<User>): (l: Ledger)
    ensures Valid(l) && Total(l) == 0.0
    ensures forall u :: Get(l, u) == 0.0
  {
    if users == [] then Empty
    else Add(Zeros(users[..|users| - 1]), users[|users| - 1].id, 0.0)
  }

  /** Every user starts with an entry. */
  lemma {:induction false} ZerosKeys(users: seq<User>)
    ensures forall user :: user in users ==> user.id in Zeros(users).amount
  {
    if users != [] {
      var p := users[..|users| - 1];
      var last := users[|users| - 1];
      assert users == p + [last];
      ZerosKeys(p);
    }
  }

  /** `assignedUsers.forEach((uid) => { userSubtotals[uid] = (userSubtotals[uid] || 0) + perUser; })` */
  function AddEach(l: Ledger, members: seq<int>, x: real): (r: Ledger)
    requires Valid(l)
    ensures Valid(r)
    ensures forall j :: j in l.amount ==> j in r.amount
  {
    if members == [] then l
    else Add(AddEach(l, members[..|members| - 1], x), members[|members| - 1], x)
  }

  /** One item's contribution to the preview: nothing when nobody shares
      it, otherwise its line total split evenly among its members. */
  function CreditItem(l: Ledger, item: Item, members: seq<int>): (r: Ledger)
    requires Valid(l)
    ensures Valid(r)
    ensures forall j :: j in l.amount ==> j in r.amount
  {
    if members == [] then l
    else AddEach(l, members, LineTotal(item) / (|members| as real))
  }

  /** The preview of lines 79-90 after the first `|items|` items. */
  function PreviewOf(items: seq<Item>, users: seq<User>, asg: Assignments): (l: Ledger)
    ensures Valid(l)
  {
    if items == [] then Zeros(users)
    else
      var last := items[|items| - 1];
      CreditItem(PreviewOf(items[..|items| - 1], users, asg), last, Members(asg, last.id))
  }

  /** Every user has an amount to show, even one who shares no item. */
  lemma {:induction false} PreviewKeys(items: seq<Item>, users: seq<User>, asg: Assignments)
    ensures forall user :: user in users ==> user.id in PreviewOf(items, users, asg).amount
  {
    if items == [] {
      ZerosKeys(users);
    } else {
      PreviewKeys(items[..|items| - 1], users, asg);
    }
  }

  /** The first `forEach` of the preview (ItemAssignment.tsx:80-82). */
  method StartAtZero(users: seq<User>) returns (subtotals: Ledger)
    ensures subtotals == Zeros(users)
  {
    subtotals := Empty;
    for j := 0 to |users|
      invariant subtotals == Zeros(users[..j])
    {
      assert users[..j + 1][..j] == users[..j];
      subtotals := Add(subtotals, users[j].id, 0.0);
    }
    assert users[..|users|] == users;
  }

  /** The preview loop of ItemAssignment.tsx:79-90. */
  method Preview(items: seq<Item>, users: seq<User>, asg: Assignments) returns (subtotals: Ledger)
    ensures subtotals == PreviewOf(items, users, asg)
  {
    subtotals := StartAtZero(users);
    for i := 0 to |items|
      invariant subtotals == PreviewOf(items[..i], users, asg)
    {
      var item := items[i];
      assert items[..i + 1][..i] == items[..i];
      var assignedUsers := Members(asg, item.id);
      ghost var before := subtotals;
      if |assignedUsers| != 0 {
        var perUser := LineTotal(item) / (|assignedUsers| as real);
        subtotals := CreditMembers(subtotals, assignedUsers, perUser);
      }
      assert subtotals == CreditItem(before, item, assignedUsers);
    }
    assert items[..|items|] == items;
  }

  /** The inner `forEach` over an item's members. */
  method CreditMembers(l: Ledger, members: seq<int>, x: real) returns (r: Ledger)
    requires Valid(l)
    ensures r == AddEach(l, members, x)
  {
    r := l;
    for k := 0 to |members|
      invariant Valid(r) && r == AddEach(l, members[..k], x)
    {
      assert members[..k + 1][..k] == members[..k];
      r := Add(r, members[k], x);
    }
    assert members[..|members|] == members;
  }

  /** `n` copies of `x` added up. */
  function Copies(n: nat, x: real): (r: real)
    ensures n == 0 ==> r == 0.0
  {
    if n == 0 then 0.0 else Copies(n - 1, x) + x
  }

  /** Crediting each member once adds one copy of `x` per member to the
      total. */
  lemma {:induction false} AddEachTotal(l: Ledger, members: seq<int>, x: real)
    requires Valid(l)
    ensures Total(AddEach(l, members, x)) == Total(l) + Copies(|members|, x)
  {
    if members != [] {
      var p := members[..|members| - 1];
      AddEachTotal(l, p, x);
      assert Total(AddEach(l, members, x)) == Total(AddEach(l, p, x)) + x;
    }
  }

  /** When the members are a set, crediting each of them once adds `x` to
      each member's subtotal and nothing to anybody else's. */
  lemma {:induction false} AddEachGet(l: Ledger, members: seq<int>, x: real, u: int)
    requires Valid(l) && NoDups(members)
    ensures Get(AddEach(l, members, x), u) == Get(l, u) + (if u in members then x else 0.0)
  {
    if members != [] {
      var p, last := members[..|members| - 1], members[|members| - 1];
      NoDupsSnoc(members);
      AddEachGet(l, p, x, u);
      var a := AddEach(l, p, x);
      assert Get(AddEach(l, members, x), u) == Get(a, u) + (if u == last then x else 0.0);
      SnocLast(members);
      assert u in members <==> u in p || u == last;
    }
  }

  lemma {:induction false} CopiesAreProduct(n: nat, x: real)
    ensures Copies(n, x) == (n as real) * x
  {
    if n > 0 {
      CopiesAreProduct(n - 1, x);
      assert (n as real) * x == ((n - 1) as real) * x + x;
    }
  }

  /** `n` equal parts of a total add back up to it. */
  lemma EvenPartsAddUp(total: real, n: nat)
    requires n > 0
    ensures Copies(n, total / (n as real)) == total
  {
    CopiesAreProduct(n, total / (n as real));
  }

  /** The line totals of the items somebody shares. */
  function AssignedLineTotal(items: seq<Item>, asg: Assignments): real {
    if items == [] then 0.0
    else
      var last := items[|items| - 1];
      AssignedLineTotal(items[..|items| - 1], asg) + (if Members(asg, last.id) == [] then 0.0 else LineTotal(last))
  }

  /** `totalSubtotal` (line 94) is the sum of the line totals of the items
      somebody shares: unshared items add nothing and shared ones are split
      without loss. */
  lemma {:induction false} PreviewTotal(items: seq<Item>, users: seq<User>, asg: Assignments)
    ensures Total(PreviewOf(items, users, asg)) == AssignedLineTotal(items, asg)
  {
    if items != [] {
      var p, last := items[..|items| - 1], items[|items| - 1];
      PreviewTotal(p, users, asg);
      var ms := Members(asg, last.id);
      var before := PreviewOf(p, users, asg);
      if ms != [] {
        var share := LineTotal(last) / (|ms| as real);
        AddEachTotal(before, ms, share);
        EvenPartsAddUp(LineTotal(last), |ms|);
        assert PreviewOf(items, users, asg) == AddEach(before, ms, share);
        assert Total(PreviewOf(items, users, asg)) == Total(before) + LineTotal(last);
      } else {
        assert PreviewOf(items, users, asg) == before;
      }
    }
  }

  /** What a user's preview subtotal should be: for every item they share,
      its line total divided by the number of people sharing it. */
  function ShareOfUser(items: seq<Item>, asg: Assignments, u: int): real {
    if items == [] then 0.0
    else
      var last := items[|items| - 1];
      var ms := Members(asg, last.id);
      ShareOfUser(items[..|items| - 1], asg, u) +
        (if u in ms then LineTotal(last) / (|ms| as real) else 0.0)
  }

  /** When every set is a set, each user's preview subtotal is their share of
      the items they were assigned (line 176). */
  lemma {:induction false} PreviewOfUser(items: seq<Item>, users: seq<User>, asg: Assignments, u: int)
    requires forall id :: id in asg ==> NoDups(asg[id])
    ensures Get(PreviewOf(items, users, asg), u) == ShareOfUser(items, asg, u)
  {
    if items != [] {
      var p, last := items[..|items| - 1], items[|items| - 1];
      PreviewOfUser(p, users, asg, u);
      var ms := Members(asg, last.id);
      if ms != [] {
        assert ms == asg[last.id];
        AddEachGet(PreviewOf(p, users, asg), ms, LineTotal(last) / (|ms| as real), u);
      }
    }
  }

  /** The amount under a user's badge: their preview subtotal plus
      `propFees` (line 177), the same proportional rule the server uses. */
  function PreviewAmount(l: Ledger, u: int, fees: real): real
    requires Valid(l)
  {
    Get(l, u) + Allocation.FeeShare(fees, Get(l, u), Total(l))
  }

  /** `perPersonCost` (lines 198-200): absent exactly when nobody shares the
      item; otherwise the shares add back up to the line total. */
  function PerPersonCost(item: Item, asg: Assignments): (r: Option<real>)
    ensures r.None? <==> Members(asg, item.id) == []
    ensures r.Some? ==> r.value * (|Members(asg, item.id)| as real) == LineTotal(item)
  {
    var n := |Members(asg, item.id)|;
    if n > 0 then Some(LineTotal(item) / (n as real)) else None
  }

  // ---------------------------------------------------------------------
  // Saving

  /** `order.items.filter((item) => assignments[item.id].size === 0)` */
  function Unassigned(items: seq<Item>, asg: Assignments): (r: seq<Item>)
    ensures |r| <= |items|
  {
    if items == [] then []
    else
      var last := items[|items| - 1];
      Unassigned(items[..|items| - 1], asg) + (if Members(asg, last.id) == [] then [last] else [])
  }

  /** The unassigned items are exactly the items nobody shares. */
  lemma {:induction false} UnassignedMeaning(items: seq<Item>, asg: Assignments)
    ensures forall it :: it in Unassigned(items, asg) <==> it in items && Members(asg, it.id) == []
  {
    if items != [] {
      var p := items[..|items| - 1];
      UnassignedMeaning(p, asg);
      assert items == p + [items[|items| - 1]];
    }
  }

  function Names(items: seq<Item>): (r: seq<string>)
    ensures |r| == |items| && forall k :: 0 <= k < |items| ==> r[k] == items[k].name
  {
    seq(|items|, k requires 0 <= k < |items| => items[k].name)
  }

  const UnassignedPrefix: string := "Please assign all items before continuing. Unassigned: "

  /** The validation message of lines 102-106. */
  function UnassignedMessage(unassigned: seq<Item>): (msg: string)
    ensures |msg| >= |UnassignedPrefix| && msg[..|UnassignedPrefix|] == UnassignedPrefix
    ensures |unassigned| == 1 ==> msg == UnassignedPrefix + unassigned[0].name
  {
    UnassignedPrefix + Join(Names(unassigned), ", ")
  }

  /** The request body of lines 113-119: one entry per order item, in order,
      with the item's users in the order they were added. */
  function Payload(items: seq<Item>, asg: Assignments): (r: seq<Assignment>)
    ensures |r| == |items|
  {
    seq(|items|, k requires 0 <= k < |items| => Assignment(items[k].id, Members(asg, items[k].id)))
  }

  /** Once validation passes, every entry of the request names somebody, and
      entry `k` carries item `k`'s set. */
  lemma PayloadComplete(items: seq<Item>, asg: Assignments)
    requires Unassigned(items, asg) == []
    ensures forall k :: 0 <= k < |items| ==>
              Payload(items, asg)[k].itemId == items[k].id &&
              Payload(items, asg)[k].userIds == Members(asg, items[k].id) &&
              Payload(items, asg)[k].userIds != []
  {
    UnassignedMeaning(items, asg);
    forall k | 0 <= k < |items| ensures Members(asg, items[k].id) != [] {
      assert items[k] !in Unassigned(items, asg);
    }
  }

  /** How the bulk request ends. */
  datatype SaveResponse =
    | Created(splits: seq<Split>)    // 2xx with the created splits
    | Refused(detail: Option<string>) // an error status; `detail` from its body
    | Unreachable(message: string)   // `fetch` itself threw

  class AssignmentEditor {
    const items: seq<Item>
    const userIds: seq<int>
    var assignments: Assignments
    var saving: bool
    var error: string

    /** Every order item has an entry, and every entry is a set. */
    predicate Valid()
      reads this
    {
      (forall k :: 0 <= k < |items| ==> items[k].id in assignments) &&
      (forall id :: id in assignments ==> NoDups(assignments[id]))
    }

    /** The initial state of lines 39-47: every item with the empty set. */
    constructor(items: seq<Item>, users: seq<User>)
      ensures Valid() && this.items == items
      ensures this.userIds == seq(|users|, k requires 0 <= k < |users| => users[k].id)
      ensures forall id :: id in assignments ==> ItemKey(items, id) && assignments[id] == []
      ensures !saving && error == ""
    {
      this.items := items;
      this.userIds := seq(|users|, k requires 0 <= k < |users| => users[k].id);
      var init := FillAll(items, []);
      assignments := init;
      saving := false;
      error := "";
    }

    /** `toggle` (lines 49-59): only the item's set changes. */
    method Toggle(itemId: int, userId: int)
      requires Valid()
      modifies this
      ensures Valid()
      ensures assignments == old(assignments)[itemId := Toggled(Members(old(assignments), itemId), userId)]
      ensures saving == old(saving) && error == old(error)
    {
      var current := Members(assignments, itemId);
      ToggledMeaning(current, userId);
      if userId in current {
        current := Remove(current, userId);
      } else {
        current := current + [userId];
      }
      assignments := assignments[itemId := current];
    }

    /** `evenSplit` (lines 61-68): every item shared by every user. */
    method EvenSplit()
      requires Valid()
      modifies this
      ensures Valid()
      ensures forall id :: id in assignments ==> ItemKey(items, id) && assignments[id] == Dedup(userIds)
      ensures saving == old(saving) && error == old(error)
    {
      var next := FillAll(items, Dedup(userIds));
      assignments := next;
    }

    /** `clearAll` (lines 70-76): every item back to the empty set. */
    method ClearAll()
      requires Valid()
      modifies this
      ensures Valid()
      ensures forall id :: id in assignments ==> ItemKey(items, id) && assignments[id] == []
      ensures saving == old(saving) && error == old(error)
    {
      var next := FillAll(items, []);
      assignments := next;
    }

    /** `handleSave` (lines 96-142), from the click to the `finally`:
        returns the request it sends, if any, and the splits it hands to the
        wizard, if any. */
    method HandleSave(response: SaveResponse) returns (request: Option<seq<Assignment>>, saved: Option<seq<Split>>)
      requires Valid()
      modifies this
      ensures Valid() && assignments == old(assignments)
      ensures Unassigned(items, assignments) != [] ==>
                request == None && saved == None && saving == old(saving) &&
                error == UnassignedMessage(Unassigned(items, assignments))
      ensures Unassigned(items, assignments) == [] ==>
                request == Some(Payload(items, assignments)) && !saving &&
                saved == (if response.Created? then Some(response.splits) else None) &&
                error == match response {
                  case Created(_) => ""
                  case Refused(detail) => if Truthy(detail) then detail.value else "Failed to save splits"
                  case Unreachable(message) => message
                }
    {
      var unassigned := Unassigned(items, assignments);
      if |unassigned| > 0 {
        error := UnassignedMessage(unassigned);
        request, saved := None, None;
        return;
      }
      error := "";
      saving := true;
      request := Some(Payload(items, assignments));
      saved := None;
      match response {
        case Created(splits) =>
          saved := Some(splits);
        case Refused(detail) =>
          error := if Truthy(detail) then detail.value else "Failed to save splits";
        case Unreachable(message) =>
          error := message;
      }
      saving := false;
    }
  }
}
