/** How the assignment screen's live preview relates to what the server
    charges for the request that screen sends: when the order's items have
    distinct ids (they are table rows) the preview shows, for every user,
    exactly the server's amount before rounding. */
module CrossCheck {
  import opened Domain
  import opened Ledger
  import opened Allocation
  import opened ItemAssignment
  import SplitReview

  /** Item ids are distinct. */
  predicate DistinctIds(items: seq<Item>) {
    forall i, j :: 0 <= i < j < |items| ==> items[i].id != items[j].id
  }

  /** `m` maps the id of each of `items` to that item. */
  predicate ItemsIn(items: seq<Item>, m: map<int, Item>) {
    forall k :: 0 <= k < |items| ==> items[k].id in m && m[items[k].id] == items[k]
  }

  /** The server's `item_map` of an order whose item ids are distinct finds
      every item under its own id. */
  lemma {:induction false} ItemMapFindsItems(items: seq<Item>)
    requires DistinctIds(items)
    ensures ItemsIn(items, ItemMap(items))
  {
    if items != [] {
      var p, last := items[..|items| - 1], items[|items| - 1];
      DistinctIdsPrefix(items);
      ItemMapFindsItems(p);
      var before := ItemMap(p);
      var after := ItemMap(items);
      assert after == before[last.id := last];
      forall k | 0 <= k < |items|
        ensures items[k].id in after && after[items[k].id] == items[k]
      {
        if k < |p| {
          assert items[k] == p[k];
        }
      }
    }
  }

  /** Dropping the last item keeps the ids distinct, and no earlier item
      shares the last one's id. */
  lemma DistinctIdsPrefix(items: seq<Item>)
    requires DistinctIds(items) && items != []
    ensures DistinctIds(items[..|items| - 1])
    ensures forall k :: 0 <= k < |items| - 1 ==> items[k].id != items[|items| - 1].id
  {
    var p := items[..|items| - 1];
    forall i, j | 0 <= i < j < |p| ensures p[i].id != p[j].id {
      assert p[i] == items[i] && p[j] == items[j];
    }
  }

  /** The request for `items` is the request for all but the last item,
      followed by the last item's entry. */
  lemma PayloadSnoc(items: seq<Item>, asg: Assignments)
    requires items != []
    ensures var last := items[|items| - 1];
      Payload(items, asg) == Payload(items[..|items| - 1], asg) + [Assignment(last.id, Members(asg, last.id))]
  {
    var p := items[..|items| - 1];
    assert forall k :: 0 <= k < |p| ==> Payload(items, asg)[k] == Payload(p, asg)[k];
  }

  /** The server's total of the valid line totals is the preview's
      `totalSubtotal`. */
  lemma {:induction false} ServerLineSum(items: seq<Item>, asg: Assignments, m: map<int, Item>)
    requires ItemsIn(items, m)
    ensures ValidLineSum(m, Payload(items, asg)) == AssignedLineTotal(items, asg)
  {
    if items != [] {
      var p, last := items[..|items| - 1], items[|items| - 1];
      var reqs := Payload(items, asg);
      PayloadSnoc(items, asg);
      assert reqs[..|reqs| - 1] == Payload(p, asg);
      assert ItemsIn(p, m) by {
        forall k | 0 <= k < |p| ensures p[k].id in m && m[p[k].id] == p[k] {
          assert p[k] == items[k];
        }
      }
      ServerLineSum(p, asg, m);
      assert m[last.id] == last;
    }
  }

  /** What a run of credits charges `u` adds up over concatenation. */
  lemma {:induction false} AmountForAppend(a: seq<Share>, b: seq<Share>, u: int)
    ensures AmountFor(a + b, u) == AmountFor(a, u) + AmountFor(b, u)
  {
    if b == [] {
      assert a + b == a;
    } else {
      var c := a + b;
      assert c[..|c| - 1] == a + b[..|b| - 1] && c[|c| - 1] == b[|b| - 1];
      AmountForAppend(a, b[..|b| - 1], u);
    }
  }

  /** Equal credits for a set of users charge each member one credit and
      nobody else anything. */
  lemma {:induction false} AmountForEqualShares(ids: seq<int>, itemId: int, cost: real, u: int)
    requires NoDups(ids)
    ensures AmountFor(EqualShares(ids, itemId, cost), u) == if u in ids then cost else 0.0
  {
    if ids != [] {
      var p, last := ids[..|ids| - 1], ids[|ids| - 1];
      NoDupsSnoc(ids);
      var ss := EqualShares(ids, itemId, cost);
      assert ss[..|ss| - 1] == EqualShares(p, itemId, cost);
      AmountForEqualShares(p, itemId, cost, u);
      SnocLast(ids);
      assert u in ids <==> u in p || u == last;
    }
  }

  /** The server credits each user, over the whole request, the same sum
      of equal parts the preview adds up for them. */
  lemma {:induction false} ServerCredits(items: seq<Item>, asg: Assignments, m: map<int, Item>, u: int)
    requires ItemsIn(items, m)
    requires forall id :: id in asg ==> NoDups(asg[id])
    ensures AmountFor(Shares(m, Payload(items, asg)), u) == ShareOfUser(items, asg, u)
  {
    if items != [] {
      var p, last := items[..|items| - 1], items[|items| - 1];
      var reqs := Payload(items, asg);
      var ms := Members(asg, last.id);
      PayloadSnoc(items, asg);
      assert reqs[..|reqs| - 1] == Payload(p, asg);
      assert reqs[|reqs| - 1] == Assignment(last.id, ms);
      assert ItemsIn(p, m) by {
        forall k | 0 <= k < |p| ensures p[k].id in m && m[p[k].id] == p[k] {
          assert p[k] == items[k];
        }
      }
      ServerCredits(p, asg, m, u);
      AmountForAppend(Shares(m, Payload(p, asg)), SharesOf(m, Assignment(last.id, ms)), u);
      if ms != [] {
        assert m[last.id] == last;
        assert NoDups(ms) by { assert ms == asg[last.id]; }
        AmountForEqualShares(ms, last.id, LineTotal(last) / (|ms| as real), u);
      }
    }
  }

  /** The amount under a user's badge on the assignment screen is the
      amount the server computes for that user before rounding: subtotal
      and fee share, with the same fees. */
  lemma PreviewMatchesServer(items: seq<Item>, users: seq<User>, asg: Assignments, m: map<int, Item>,
                             fees: real, u: int)
    requires ItemsIn(items, m)
    requires forall id :: id in asg ==> NoDups(asg[id])
    requires u in Allocate(m, Payload(items, asg)).itemIds
    ensures var t := Allocate(m, Payload(items, asg));
      TallyValid(t) && u in t.subtotals.amount &&
      Get(PreviewOf(items, users, asg), u) == t.subtotals.amount[u] &&
      Total(PreviewOf(items, users, asg)) == Total(t.subtotals) &&
      PreviewAmount(PreviewOf(items, users, asg), u, fees) == Unrounded(t, u, fees)
  {
    var reqs := Payload(items, asg);
    AllocationEntry(m, reqs, u);
    ServerCredits(items, asg, m, u);
    PreviewOfUser(items, users, asg, u);
    ServerLineSum(items, asg, m);
    PreviewTotal(items, users, asg);
  }

  // ---------------------------------------------------------------------
  // The review screen's share counts and the server's per-user cost

  /** A sequence without repeats has as many distinct elements as entries. */
  lemma {:induction false} NoDupsCardinality(s: seq<int>)
    requires NoDups(s)
    ensures |set u | u in s| == |s|
  {
    if s != [] {
      var p, last := s[..|s| - 1], s[|s| - 1];
      NoDupsSnoc(s);
      NoDupsCardinality(p);
      SnocLast(s);
      assert (set u | u in s) == (set u | u in p) + {last};
    }
  }

  /** Splits of distinct users, where the splits listing `id` are exactly
      those of the users in `group` and every user of `group` has a split:
      as many splits list `id` as `group` has users. */
  lemma {:induction false} CountByUsers(ss: seq<Split>, id: int, group: set<int>)
    requires forall i, j :: 0 <= i < j < |ss| ==> ss[i].userId != ss[j].userId
    requires forall k :: 0 <= k < |ss| ==> (id in ss[k].itemIds <==> ss[k].userId in group)
    requires forall u :: u in group ==> exists k :: 0 <= k < |ss| && ss[k].userId == u
    ensures SplitReview.CountContaining(ss, id) == |group|
  {
    if ss == [] {
      assert forall u :: u !in group;
      assert group == {};
    } else {
      var n := |ss| - 1;
      var p, last := ss[..n], ss[n];
      assert id in last.itemIds <==> last.userId in group;
      var rest := if id in last.itemIds then group - {last.userId} else group;
      assert forall i, j :: 0 <= i < j < |p| ==> p[i].userId != p[j].userId by {
        forall i, j | 0 <= i < j < |p| ensures p[i].userId != p[j].userId {
          assert p[i] == ss[i] && p[j] == ss[j];
        }
      }
      forall k | 0 <= k < |p| ensures (id in p[k].itemIds <==> p[k].userId in rest) {
        assert p[k] == ss[k] && ss[k].userId != ss[n].userId;
      }
      forall u | u in rest ensures exists k :: 0 <= k < |p| && p[k].userId == u {
        var k :| 0 <= k < |ss| && ss[k].userId == u;
        assert k != n;
        assert p[k] == ss[k];
      }
      CountByUsers(p, id, rest);
    }
  }

  /** When every user list of the request is a set, assignments of the same
      item name the same users, and every credited user has a user row, the
      review screen counts, for the item of a valid assignment, exactly as
      many splits listing it as the assignment names users. */
  lemma ReviewCountMatchesServer(orderId: int, m: map<int, Item>, reqs: seq<Assignment>, users: map<int, User>,
                                 fees: real, firstId: int, roundCents: real -> real, a: Assignment)
    requires forall b :: b in reqs ==> NoDups(b.userIds)
    requires forall b, c :: b in reqs && c in reqs && IsValid(m, b) && IsValid(m, c) && b.itemId == c.itemId ==>
               b.userIds == c.userIds
    requires forall b, u :: b in reqs && IsValid(m, b) && u in b.userIds ==> u in users
    requires a in reqs && IsValid(m, a)
    ensures SplitReview.CountContaining(CreatedSplits(orderId, Allocate(m, reqs), users, fees, firstId, roundCents),
                                        a.itemId) == |a.userIds|
  {
    var t := Allocate(m, reqs);
    var created := CreatedSplits(orderId, t, users, fees, firstId, roundCents);
    var group := set u | u in a.userIds;
    CreatedSplitsDistinct(orderId, t, users, fees, firstId, roundCents);
    forall k | 0 <= k < |created| ensures (a.itemId in created[k].itemIds <==> created[k].userId in group) {
      var u := CreatedSplitRow(orderId, t, users, fees, firstId, roundCents, k);
      AllocationEntry(m, reqs, u);
      CreditedItems(m, reqs, u);
      var credited := ItemsFor(Shares(m, reqs), u);
      assert a.itemId in created[k].itemIds <==> a.itemId in credited;
      if a.itemId in credited {
        var b :| b in reqs && IsValid(m, b) && u in b.userIds && b.itemId == a.itemId;
        assert u in a.userIds;
      }
      if u in a.userIds {
        assert a.itemId in credited;
      }
    }
    AllocatedUsers(m, reqs);
    CreatedForPresent(orderId, t, users, fees, firstId, roundCents);
    forall u | u in group ensures exists k :: 0 <= k < |created| && created[k].userId == u {
      assert u in t.subtotals.keys;
      assert u in Present(t.subtotals.keys, users);
    }
    CountByUsers(created, a.itemId, group);
    NoDupsCardinality(a.userIds);
  }

  /** Under the same conditions, the share the review screen shows for the
      item of a valid assignment, with the counts its `itemShareCount` loop
      computes over the created splits, is the server's `per_user_cost`. */
  lemma ReviewShareMatchesServer(orderId: int, m: map<int, Item>, reqs: seq<Assignment>, users: map<int, User>,
                                 fees: real, firstId: int, roundCents: real -> real, a: Assignment,
                                 counts: map<int, nat>)
    requires forall b :: b in reqs ==> NoDups(b.userIds)
    requires forall b, c :: b in reqs && c in reqs && IsValid(m, b) && IsValid(m, c) && b.itemId == c.itemId ==>
               b.userIds == c.userIds
    requires forall b, u :: b in reqs && IsValid(m, b) && u in b.userIds ==> u in users
    requires a in reqs && IsValid(m, a) && m[a.itemId].id == a.itemId
    requires a.itemId in counts
    requires counts[a.itemId] ==
             |SplitReview.Holders(CreatedSplits(orderId, Allocate(m, reqs), users, fees, firstId, roundCents), a.itemId)|
    ensures SplitReview.DisplayedShare(m[a.itemId], counts) == PerUserCost(m, a)
  {
    var created := CreatedSplits(orderId, Allocate(m, reqs), users, fees, firstId, roundCents);
    ReviewCountMatchesServer(orderId, m, reqs, users, fees, firstId, roundCents, a);
    SplitReview.CountContainingIsHolders(created, a.itemId);
    assert SplitReview.ShareCount(counts, a.itemId) == |a.userIds|;
  }

  /** The assignment screen's request meets the conditions above: every
      user list is a set, and entries for the same item are the same entry. */
  lemma PayloadIsOnePerItem(items: seq<Item>, asg: Assignments)
    requires forall id :: id in asg ==> NoDups(asg[id])
    ensures forall b :: b in Payload(items, asg) ==> NoDups(b.userIds)
    ensures forall b, c :: b in Payload(items, asg) && c in Payload(items, asg) && b.itemId == c.itemId ==> b == c
  {
    var reqs := Payload(items, asg);
    forall b | b in reqs ensures b == Assignment(b.itemId, Members(asg, b.itemId)) && NoDups(b.userIds) {
      var k :| 0 <= k < |reqs| && reqs[k] == b;
    }
  }
}
