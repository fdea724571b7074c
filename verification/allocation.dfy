/** The allocation inside `create_bulk_splits`: every listed user entry of a
    valid assignment is credited an equal part of the item's line total, and
    the order's fees are spread in proportion to each user's subtotal. */
module Allocation {
  import opened Domain
  import opened Ledger

  /** `item_map = {item.id: item for item in items}`; a later item with the
      same id replaces an earlier one. */
  function ItemMap(items: seq<Item>): (m: map<int, Item>)
    ensures forall it :: it in items ==> it.id in m
    ensures forall id :: id in m ==> m[id] in items && m[id].id == id
  {
    if items == [] then map[]
    else
      var last := items[|items| - 1];
      assert items == items[..|items| - 1] + [last];
      ItemMap(items[..|items| - 1])[last.id := last]
  }

  /** An assignment takes part only when its item belongs to the order and
      it names at least one user; any other assignment is skipped. */
  predicate IsValid(m: map<int, Item>, a: Assignment) {
    a.itemId in m && |a.userIds| > 0
  }

  /** `per_user_cost`: the line total divided by the number of user
      entries; `SharesOfAssignment` shows the parts make up the line total. */
  function PerUserCost(m: map<int, Item>, a: Assignment): real
    requires IsValid(m, a)
  {
    LineTotal(m[a.itemId]) / (|a.userIds| as real)
  }

  /** One credit: `amount` of item `itemId` charged to `userId`. */
  datatype Share = Share(userId: int, itemId: int, amount: real)

  /** The credits one assignment hands out, one per listed user entry (a user
      listed twice is credited twice), and none for a skipped assignment. */
  function SharesOf(m: map<int, Item>, a: Assignment): seq<Share> {
    if IsValid(m, a) then EqualShares(a.userIds, a.itemId, PerUserCost(m, a)) else []
  }

  /** One credit of `cost` for item `itemId` per entry of `userIds`. */
  function EqualShares(userIds: seq<int>, itemId: int, cost: real): (ss: seq<Share>)
    ensures |ss| == |userIds|
  {
    seq(|userIds|, k requires 0 <= k < |userIds| => Share(userIds[k], itemId, cost))
  }

  /** All credits of a request, in request order. */
  function Shares(m: map<int, Item>, reqs: seq<Assignment>): seq<Share> {
    if reqs == [] then [] else Shares(m, reqs[..|reqs| - 1]) + SharesOf(m, reqs[|reqs| - 1])
  }

  function SumAmounts(ss: seq<Share>): real {
    if ss == [] then 0.0 else SumAmounts(ss[..|ss| - 1]) + ss[|ss| - 1].amount
  }

  /** The credited user of every credit, in order. */
  function UsersOf(ss: seq<Share>): seq<int> {
    if ss == [] then [] else UsersOf(ss[..|ss| - 1]) + [ss[|ss| - 1].userId]
  }

  /** What the credits charge to user `u`. */
  function AmountFor(ss: seq<Share>, u: int): real {
    if ss == [] then 0.0
    else AmountFor(ss[..|ss| - 1], u) + (if ss[|ss| - 1].userId == u then ss[|ss| - 1].amount else 0.0)
  }

  /** The item ids of the credits charged to user `u`, in order. */
  function ItemsFor(ss: seq<Share>, u: int): seq<int> {
    if ss == [] then []
    else ItemsFor(ss[..|ss| - 1], u) + (if ss[|ss| - 1].userId == u then [ss[|ss| - 1].itemId] else [])
  }

  /** The line totals of the valid assignments, added up. */
  function ValidLineSum(m: map<int, Item>, reqs: seq<Assignment>): real {
    if reqs == [] then 0.0
    else
      var a := reqs[|reqs| - 1];
      ValidLineSum(m, reqs[..|reqs| - 1]) + (if IsValid(m, a) then LineTotal(m[a.itemId]) else 0.0)
  }

  /** The assignments that take part, in order. */
  function ValidOnly(m: map<int, Item>, reqs: seq<Assignment>): seq<Assignment> {
    if reqs == [] then []
    else ValidOnly(m, reqs[..|reqs| - 1]) + (if IsValid(m, reqs[|reqs| - 1]) then [reqs[|reqs| - 1]] else [])
  }

  /** The two dicts the loop fills, `user_subtotals` and `user_item_ids`;
      they always have the same keys. */
  datatype Tally = Tally(subtotals: Ledger, itemIds: map<int, seq<int>>)

  predicate TallyValid(t: Tally) {
    Valid(t.subtotals) &&
    (forall u :: u in t.itemIds ==> u in t.subtotals.amount) &&
    (forall u :: u in t.subtotals.amount ==> u in t.itemIds)
  }

  /** One pass of the inner loop: add the credit to the user's subtotal and
      append its item id to the user's list unless it is listed already. */
  function Credit(t: Tally, s: Share): (r: Tally)
    requires TallyValid(t)
    ensures TallyValid(r)
  {
    var listed := if s.userId in t.itemIds then t.itemIds[s.userId] else [];
    Tally(Add(t.subtotals, s.userId, s.amount),
          t.itemIds[s.userId := if s.itemId in listed then listed else listed + [s.itemId]])
  }

  /** The dicts after crediting `ss` in order, starting from empty dicts. */
  function Replay(ss: seq<Share>): (r: Tally)
    ensures TallyValid(r)
  {
    if ss == [] then Tally(Empty, map[]) else Credit(Replay(ss[..|ss| - 1]), ss[|ss| - 1])
  }

  /** The dicts after the accumulation loop over a whole request. */
  function Allocate(m: map<int, Item>, reqs: seq<Assignment>): (t: Tally)
    ensures TallyValid(t)
  {
    Replay(Shares(m, reqs))
  }

  // ---------------------------------------------------------------------
  // The accumulation loop and what it computes

  /** The accumulation loop of `create_bulk_splits` (splits.py:212-225). */
  method AccumulateAssignments(m: map<int, Item>, assignments: seq<Assignment>)
    returns (userSubtotals: Ledger, userItemIds: map<int, seq<int>>)
    ensures Tally(userSubtotals, userItemIds) == Allocate(m, assignments)
  {
    userSubtotals := Empty;
    userItemIds := map[];
    for i := 0 to |assignments|
      invariant Tally(userSubtotals, userItemIds) == Allocate(m, assignments[..i])
    {
      var a := assignments[i];
      SharesSnoc(m, assignments, i);
      ghost var done := Shares(m, assignments[..i]);
      if a.itemId in m && |a.userIds| > 0 {
        var item := m[a.itemId];
        var perUserCost := LineTotal(item) / (|a.userIds| as real);
        assert SharesOf(m, a) == EqualShares(a.userIds, a.itemId, perUserCost);
        userSubtotals, userItemIds := CreditUsers(userSubtotals, userItemIds, a.itemId, a.userIds, perUserCost, done);
      } else {
        assert done + SharesOf(m, a) == done;
      }
    }
    assert assignments[..|assignments|] == assignments;
  }

  /** The facts about a whole allocation that the accumulation loop promises. */
  lemma AllocateFacts(m: map<int, Item>, reqs: seq<Assignment>)
    ensures Valid(Allocate(m, reqs).subtotals)
    ensures Total(Allocate(m, reqs).subtotals) == ValidLineSum(m, reqs)
    ensures Allocate(m, reqs).subtotals.keys == [] <==> forall a :: a in reqs ==> !IsValid(m, a)
  {
    AllocationMeaning(m, reqs);
    NothingValidMeansNoUsers(m, reqs);
  }

  /** The inner loop of `create_bulk_splits` (splits.py:219-225): credit
      `perUserCost` of item `itemId` to every entry of `userIds`, in order. */
  method CreditUsers(subtotals: Ledger, itemIds: map<int, seq<int>>, itemId: int,
                     userIds: seq<int>, perUserCost: real, ghost done: seq<Share>)
    returns (userSubtotals: Ledger, userItemIds: map<int, seq<int>>)
    requires Tally(subtotals, itemIds) == Replay(done)
    ensures Tally(userSubtotals, userItemIds) == Replay(done + EqualShares(userIds, itemId, perUserCost))
  {
    ghost var shares := EqualShares(userIds, itemId, perUserCost);
    userSubtotals, userItemIds := subtotals, itemIds;
    assert done + shares[..0] == done;
    for j := 0 to |userIds|
      invariant Tally(userSubtotals, userItemIds) == Replay(done + shares[..j])
    {
      var uid := userIds[j];
      ghost var before := Tally(userSubtotals, userItemIds);
      ReplayStep(done, shares, j);
      userSubtotals := Add(userSubtotals, uid, perUserCost);
      var listed := if uid in userItemIds then userItemIds[uid] else [];
      if itemId !in listed {
        listed := listed + [itemId];
      }
      userItemIds := userItemIds[uid := listed];
      assert Tally(userSubtotals, userItemIds) == Credit(before, shares[j]);
    }
    assert shares[..|userIds|] == shares;
  }

  /** The credits of the first `i + 1` assignments extend those of the first `i`. */
  lemma SharesSnoc(m: map<int, Item>, reqs: seq<Assignment>, i: int)
    requires 0 <= i < |reqs|
    ensures Shares(m, reqs[..i + 1]) == Shares(m, reqs[..i]) + SharesOf(m, reqs[i])
  {
    assert reqs[..i + 1][..i] == reqs[..i];
  }

  /** One more credit replayed is one more `Credit`. */
  lemma ReplayStep(done: seq<Share>, shares: seq<Share>, j: int)
    requires 0 <= j < |shares|
    ensures Replay(done + shares[..j + 1]) == Credit(Replay(done + shares[..j]), shares[j])
  {
    assert done + shares[..j + 1] == (done + shares[..j]) + [shares[j]];
    ReplaySnoc(done + shares[..j], shares[j]);
  }

  lemma ReplaySnoc(ss: seq<Share>, s: Share)
    ensures Replay(ss + [s]) == Credit(Replay(ss), s)
  {
    assert (ss + [s])[..|ss|] == ss;
  }

  /** The credits of a valid assignment are one per user entry, each the
      line total divided by the number of entries, and together they make up
      the line total; a skipped assignment credits nothing. */
  lemma SharesOfAssignment(m: map<int, Item>, a: Assignment)
    ensures IsValid(m, a) ==> |SharesOf(m, a)| == |a.userIds|
    ensures IsValid(m, a) ==> forall k :: 0 <= k < |a.userIds| ==>
              SharesOf(m, a)[k] == Share(a.userIds[k], a.itemId, LineTotal(m[a.itemId]) / (|a.userIds| as real))
    ensures SumAmounts(SharesOf(m, a)) == if IsValid(m, a) then LineTotal(m[a.itemId]) else 0.0
  {
    if IsValid(m, a) {
      var n := |a.userIds| as real;
      SumAmountsConstant(SharesOf(m, a), PerUserCost(m, a));
      assert n * (LineTotal(m[a.itemId]) / n) == LineTotal(m[a.itemId]);
    }
  }

  lemma {:induction false} SumAmountsConstant(ss: seq<Share>, c: real)
    requires forall k :: 0 <= k < |ss| ==> ss[k].amount == c
    ensures SumAmounts(ss) == (|ss| as real) * c
  {
    if ss != [] {
      SumAmountsConstant(ss[..|ss| - 1], c);
    }
  }

  lemma {:induction false} SumAmountsAppend(a: seq<Share>, b: seq<Share>)
    ensures SumAmounts(a + b) == SumAmounts(a) + SumAmounts(b)
  {
    if b != [] {
      var ab := a + b;
      assert ab[..|ab| - 1] == a + b[..|b| - 1];
      assert ab[|ab| - 1] == b[|b| - 1];
      SumAmountsAppend(a, b[..|b| - 1]);
      assert SumAmounts(ab) == SumAmounts(a + b[..|b| - 1]) + b[|b| - 1].amount;
    } else {
      assert a + b == a;
    }
  }

  /** Conservation of the item costs: the credits of a request add up to the
      line totals of its valid assignments. */
  lemma {:induction false} SharesConserveLineTotals(m: map<int, Item>, reqs: seq<Assignment>)
    ensures SumAmounts(Shares(m, reqs)) == ValidLineSum(m, reqs)
  {
    if reqs != [] {
      SharesConserveLineTotals(m, reqs[..|reqs| - 1]);
      SumAmountsAppend(Shares(m, reqs[..|reqs| - 1]), SharesOf(m, reqs[|reqs| - 1]));
      SharesOfAssignment(m, reqs[|reqs| - 1]);
    }
  }

  /** Skipped assignments change nothing: the request credits exactly what
      its valid assignments alone credit. */
  lemma {:induction false} SkippedAssignmentsChangeNothing(m: map<int, Item>, reqs: seq<Assignment>)
    ensures Shares(m, reqs) == Shares(m, ValidOnly(m, reqs))
    ensures Allocate(m, reqs) == Allocate(m, ValidOnly(m, reqs))
  {
    if reqs != [] {
      var p := reqs[..|reqs| - 1];
      var a := reqs[|reqs| - 1];
      SkippedAssignmentsChangeNothing(m, p);
      assert Shares(m, reqs) == Shares(m, p) + SharesOf(m, a);
      if IsValid(m, a) {
        var v := ValidOnly(m, p) + [a];
        assert ValidOnly(m, reqs) == v;
        assert v[..|v| - 1] == ValidOnly(m, p);
        assert Shares(m, v) == Shares(m, ValidOnly(m, p)) + SharesOf(m, a);
      } else {
        assert ValidOnly(m, reqs) == ValidOnly(m, p);
        assert SharesOf(m, a) == [];
      }
    }
  }

  /** A user who is never credited has no amount and no items. */
  lemma {:induction false} UncreditedUser(ss: seq<Share>, u: int)
    requires u !in UsersOf(ss)
    ensures AmountFor(ss, u) == 0.0 && ItemsFor(ss, u) == []
  {
    if ss != [] {
      assert UsersOf(ss) == UsersOf(ss[..|ss| - 1]) + [ss[|ss| - 1].userId];
      UncreditedUser(ss[..|ss| - 1], u);
    }
  }

  /** The keys of the dicts are the credited users, in order of their first
      credit. */
  predicate KeysDescribe(t: Tally, ss: seq<Share>) {
    t.subtotals.keys == Dedup(UsersOf(ss))
  }

  /** Each subtotal is the sum of the user's credits, and each item list is
      the user's credited item ids without repeats, in order of first credit. */
  predicate EntriesDescribe(t: Tally, ss: seq<Share>)
    requires TallyValid(t)
  {
    forall u :: u in t.itemIds ==>
      t.subtotals.amount[u] == AmountFor(ss, u) && t.itemIds[u] == Dedup(ItemsFor(ss, u))
  }

  /** What the dicts hold after crediting `ss`; the subtotals also add up to
      the credits. */
  predicate Describes(t: Tally, ss: seq<Share>) {
    TallyValid(t) && KeysDescribe(t, ss) && EntriesDescribe(t, ss) &&
    Total(t.subtotals) == SumAmounts(ss)
  }

  lemma CreditKeys(t: Tally, ss: seq<Share>, s: Share)
    requires TallyValid(t) && KeysDescribe(t, ss)
    ensures KeysDescribe(Credit(t, s), ss + [s])
  {
    assert (ss + [s])[..|ss|] == ss;
    assert UsersOf(ss + [s]) == UsersOf(ss) + [s.userId];
    DedupSnoc(UsersOf(ss), s.userId);
  }

  lemma CreditTotal(ss: seq<Share>, s: Share)
    ensures SumAmounts(ss + [s]) == SumAmounts(ss) + s.amount
  {
    assert (ss + [s])[..|ss|] == ss;
  }

  lemma CreditEntries(t: Tally, ss: seq<Share>, s: Share)
    requires TallyValid(t) && KeysDescribe(t, ss) && EntriesDescribe(t, ss)
    ensures EntriesDescribe(Credit(t, s), ss + [s])
  {
    forall u | u in Credit(t, s).itemIds
      ensures Credit(t, s).subtotals.amount[u] == AmountFor(ss + [s], u) &&
              Credit(t, s).itemIds[u] == Dedup(ItemsFor(ss + [s], u))
    {
      if u != s.userId {
        CreditOtherUser(t, ss, s, u);
      } else if u in t.itemIds {
        CreditKnownUser(t, ss, s);
      } else {
        CreditNewUser(t, ss, s);
      }
    }
  }

  /** Crediting one user leaves every other user's entries alone. */
  lemma CreditOtherUser(t: Tally, ss: seq<Share>, s: Share, u: int)
    requires TallyValid(t) && EntriesDescribe(t, ss)
    requires u in Credit(t, s).itemIds && u != s.userId
    ensures Credit(t, s).subtotals.amount[u] == AmountFor(ss + [s], u)
    ensures Credit(t, s).itemIds[u] == Dedup(ItemsFor(ss + [s], u))
  {
    var ss' := ss + [s];
    assert ss'[..|ss|] == ss;
    assert AmountFor(ss', u) == AmountFor(ss, u);
    assert ItemsFor(ss', u) == ItemsFor(ss, u);
    assert Get(Credit(t, s).subtotals, u) == Get(t.subtotals, u);
  }

  /** A user already credited gets the amount added and the item appended
      unless it is listed. */
  lemma CreditKnownUser(t: Tally, ss: seq<Share>, s: Share)
    requires TallyValid(t) && EntriesDescribe(t, ss)
    requires s.userId in t.itemIds
    ensures Credit(t, s).subtotals.amount[s.userId] == AmountFor(ss + [s], s.userId)
    ensures Credit(t, s).itemIds[s.userId] == Dedup(ItemsFor(ss + [s], s.userId))
  {
    var ss' := ss + [s];
    assert ss'[..|ss|] == ss;
    assert AmountFor(ss', s.userId) == AmountFor(ss, s.userId) + s.amount;
    assert ItemsFor(ss', s.userId) == ItemsFor(ss, s.userId) + [s.itemId];
    DedupSnoc(ItemsFor(ss, s.userId), s.itemId);
  }

  /** A user credited for the first time starts from 0 and no items. */
  lemma CreditNewUser(t: Tally, ss: seq<Share>, s: Share)
    requires TallyValid(t) && KeysDescribe(t, ss)
    requires s.userId !in t.itemIds
    ensures Credit(t, s).subtotals.amount[s.userId] == AmountFor(ss + [s], s.userId)
    ensures Credit(t, s).itemIds[s.userId] == Dedup(ItemsFor(ss + [s], s.userId))
  {
    var u := s.userId;
    var ss' := ss + [s];
    assert ss'[..|ss|] == ss;
    assert AmountFor(ss', u) == AmountFor(ss, u) + s.amount;
    assert ItemsFor(ss', u) == ItemsFor(ss, u) + [s.itemId];
    assert u !in t.subtotals.keys;
    assert u !in UsersOf(ss);
    UncreditedUser(ss, u);
    assert Get(t.subtotals, u) == 0.0;
    DedupSnoc(ItemsFor(ss, u), s.itemId);
  }

  lemma {:induction false} ReplayKeys(ss: seq<Share>)
    ensures KeysDescribe(Replay(ss), ss)
  {
    if ss != [] {
      var p, s := ss[..|ss| - 1], ss[|ss| - 1];
      assert ss == p + [s];
      ReplayKeys(p);
      CreditKeys(Replay(p), p, s);
    }
  }

  lemma {:induction false} ReplayEntries(ss: seq<Share>)
    ensures EntriesDescribe(Replay(ss), ss)
  {
    if ss != [] {
      var p, s := ss[..|ss| - 1], ss[|ss| - 1];
      assert ss == p + [s];
      ReplayKeys(p);
      ReplayEntries(p);
      CreditEntries(Replay(p), p, s);
    }
  }

  lemma {:induction false} ReplayTotal(ss: seq<Share>)
    ensures Total(Replay(ss).subtotals) == SumAmounts(ss)
  {
    if ss != [] {
      var p, s := ss[..|ss| - 1], ss[|ss| - 1];
      assert ss == p + [s];
      ReplayTotal(p);
      CreditTotal(p, s);
    }
  }

  /** Replaying credits from empty dicts yields the dicts they describe. */
  lemma ReplayMeaning(ss: seq<Share>)
    ensures Describes(Replay(ss), ss)
  {
    ReplayKeys(ss);
    ReplayEntries(ss);
    ReplayTotal(ss);
  }

  /** The allocation of a whole request: users in order of their first
      valid assignment, each with the sum of their credits and their assigned
      item ids without repeats in order of first assignment; the subtotals
      add up to the line totals of the valid assignments. */
  lemma AllocationMeaning(m: map<int, Item>, reqs: seq<Assignment>)
    ensures var t := Allocate(m, reqs);
      t.subtotals.keys == Dedup(UsersOf(Shares(m, reqs))) &&
      (forall u :: u in t.itemIds ==>
         t.subtotals.amount[u] == AmountFor(Shares(m, reqs), u) &&
         t.itemIds[u] == Dedup(ItemsFor(Shares(m, reqs), u)) &&
         NoDups(t.itemIds[u])) &&
      Total(t.subtotals) == ValidLineSum(m, reqs)
  {
    ReplayMeaning(Shares(m, reqs));
    SharesConserveLineTotals(m, reqs);
  }

  /** `user_subtotals` stays empty exactly when no assignment is valid. */
  lemma {:induction false} NothingValidMeansNoUsers(m: map<int, Item>, reqs: seq<Assignment>)
    ensures Allocate(m, reqs).subtotals.keys == [] <==> forall a :: a in reqs ==> !IsValid(m, a)
  {
    ReplayMeaning(Shares(m, reqs));
    UsersOfEmpty(Shares(m, reqs));
    SharesEmpty(m, reqs);
  }

  lemma {:induction false} UsersOfEmpty(ss: seq<Share>)
    ensures Dedup(UsersOf(ss)) == [] <==> ss == []
  {
    if ss != [] {
      assert ss[|ss| - 1].userId in UsersOf(ss);
    }
  }

  lemma {:induction false} SharesEmpty(m: map<int, Item>, reqs: seq<Assignment>)
    ensures Shares(m, reqs) == [] <==> forall a :: a in reqs ==> !IsValid(m, a)
  {
    if reqs != [] {
      var p := reqs[..|reqs| - 1];
      SharesEmpty(m, p);
      assert reqs == p + [reqs[|reqs| - 1]];
      assert forall a :: a in reqs ==> a in p || a == reqs[|reqs| - 1];
    }
  }

  // ---------------------------------------------------------------------
  // Fees and the created splits

  /** `fees * (subtotal / total_subtotal) if total_subtotal > 0 else 0` */
  function FeeShare(fees: real, subtotal: real, totalSubtotal: real): real {
    if totalSubtotal > 0.0 then fees * (subtotal / totalSubtotal) else 0.0
  }

  /** No fee share without a positive total, and none for a zero subtotal. */
  lemma FeeShareVanishes(fees: real, subtotal: real, totalSubtotal: real)
    ensures totalSubtotal <= 0.0 ==> FeeShare(fees, subtotal, totalSubtotal) == 0.0
    ensures subtotal == 0.0 ==> FeeShare(fees, subtotal, totalSubtotal) == 0.0
  {
  }

  /** A user's amount before `round(·, 2)`: subtotal plus fee share. */
  function Unrounded(t: Tally, u: int, fees: real): real
    requires TallyValid(t) && u in t.subtotals.amount
  {
    var sub := t.subtotals.amount[u];
    sub + FeeShare(fees, sub, Total(t.subtotals))
  }

  /** With no fees a user owes exactly their subtotal. */
  lemma NoFeesOwesSubtotal(t: Tally, u: int)
    requires TallyValid(t) && u in t.subtotals.amount
    ensures Unrounded(t, u, 0.0) == t.subtotals.amount[u]
  {
  }

  /** A user holding the whole (positive) subtotal owes it plus all of the
      fees. */
  lemma WholeSubtotalOwesAllFees(t: Tally, u: int, fees: real)
    requires TallyValid(t) && u in t.subtotals.amount
    requires t.subtotals.amount[u] > 0.0 && Total(t.subtotals) == t.subtotals.amount[u]
    ensures Unrounded(t, u, fees) == t.subtotals.amount[u] + fees
  {
    var sub := t.subtotals.amount[u];
    RateTimes(fees, sub, sub);
  }

  function FeeShares(t: Tally, fees: real): map<int, real>
    requires TallyValid(t)
  {
    map u | u in t.subtotals.amount :: FeeShare(fees, t.subtotals.amount[u], Total(t.subtotals))
  }

  function UnroundedAmounts(t: Tally, fees: real): map<int, real>
    requires TallyValid(t)
  {
    map u | u in t.subtotals.amount :: Unrounded(t, u, fees)
  }

  /** A fee share is the fee rate `fees / total` times the subtotal; at
      the whole total it is all of the fees. */
  lemma RateTimes(fees: real, sub: real, total: real)
    requires total > 0.0
    ensures fees * (sub / total) == (fees / total) * sub
    ensures sub == total ==> (fees / total) * sub == fees
  {
  }

  /** Conservation of money before rounding: when the subtotals add up to a
      positive total, the fee shares add up to the fees and the amounts add
      up to the total plus the fees. */
  lemma FeeSharesConserve(t: Tally, fees: real)
    requires TallyValid(t) && Total(t.subtotals) > 0.0
    ensures SumOver(t.subtotals.keys, FeeShares(t, fees)) == fees
    ensures SumOver(t.subtotals.keys, UnroundedAmounts(t, fees)) == Total(t.subtotals) + fees
  {
    var keys, m, total := t.subtotals.keys, t.subtotals.amount, Total(t.subtotals);
    var fs := FeeShares(t, fees);
    forall u | u in keys
      ensures u in m && u in fs && fs[u] == (fees / total) * m[u]
    {
      RateTimes(fees, m[u], total);
    }
    SumOverScaled(keys, m, fees / total, fs);
    assert SumOver(keys, m) == total;
    RateTimes(fees, total, total);
    assert SumOver(keys, fs) == fees;
    var ua := UnroundedAmounts(t, fees);
    forall u | u in keys
      ensures u in m && u in fs && u in ua && ua[u] == m[u] + fs[u]
    {
      assert ua[u] == Unrounded(t, u, fees);
    }
    SumOverAdded(keys, m, fs, ua);
  }

  /** The users that have a row in the users table, in key order. */
  function Present(keys: seq<int>, users: map<int, User>): (r: seq<int>)
    ensures forall u :: u in r <==> u in keys && u in users
    ensures |r| <= |keys|
  {
    if keys == [] then []
    else
      var last := keys[|keys| - 1];
      assert keys == keys[..|keys| - 1] + [last];
      Present(keys[..|keys| - 1], users) + (if last in users then [last] else [])
  }

  /** When every key has a user row, nobody is skipped. */
  lemma {:induction false} PresentAll(keys: seq<int>, users: map<int, User>)
    requires forall u :: u in keys ==> u in users
    ensures Present(keys, users) == keys
  {
    if keys != [] {
      var p, last := keys[..|keys| - 1], keys[|keys| - 1];
      assert keys == p + [last];
      assert last in users;
      assert forall u :: u in p ==> u in keys;
      PresentAll(p, users);
    }
  }

  /** The split row created for user `u`: unpaid, no reminder yet. */
  function NewSplit(id: int, orderId: int, t: Tally, u: int, fees: real, roundCents: real -> real): (s: Split)
    requires TallyValid(t) && u in t.subtotals.amount
    ensures s.userId == u && s.orderId == orderId
    ensures !s.paidStatus && !s.reminderSent && s.reminderSentAt.None? && s.messageSid.None?
  {
    Split(id, orderId, u, t.itemIds[u], roundCents(Unrounded(t, u, fees)), false, false, None, None)
  }

  /** The creation loop of `create_bulk_splits` (splits.py:233-247): one row
      per user that exists, in key order, with consecutive ids from
      `firstId`; `roundCents` stands for `round(·, 2)`. */
  method BuildSplits(orderId: int, t: Tally, users: map<int, User>, fees: real,
                     firstId: int, roundCents: real -> real)
    returns (created: seq<Split>)
    requires TallyValid(t)
    ensures created == CreatedSplits(orderId, t, users, fees, firstId, roundCents)
  {
    var keys := t.subtotals.keys;
    var totalSubtotal := Total(t.subtotals);
    created := [];
    for i := 0 to |keys|
      invariant created == CreatedFrom(orderId, t, keys[..i], users, fees, firstId, roundCents)
    {
      var uid := keys[i];
      assert keys[..i + 1][..i] == keys[..i];
      assert uid in keys;
      ghost var prev := created;
      if uid in users {
        var subtotal := t.subtotals.amount[uid];
        var proportionalFees := if totalSubtotal > 0.0 then fees * (subtotal / totalSubtotal) else 0.0;
        created := created + [Split(firstId + |created|, orderId, uid, t.itemIds[uid],
                                    roundCents(subtotal + proportionalFees), false, false, None, None)];
        assert Unrounded(t, uid, fees) == subtotal + proportionalFees;
      }
      assert CreatedFrom(orderId, t, keys[..i + 1], users, fees, firstId, roundCents) ==
             if uid in users then prev + [NewSplit(firstId + |prev|, orderId, t, uid, fees, roundCents)] else prev;
    }
    assert keys[..|keys|] == keys;
  }

  /** The rows the creation loop adds for the users `keys`: one per user that
      exists, in order, the `k`-th with id `firstId + k`. */
  function CreatedFrom(orderId: int, t: Tally, keys: seq<int>, users: map<int, User>, fees: real,
                       firstId: int, roundCents: real -> real): (r: seq<Split>)
    requires TallyValid(t) && forall u :: u in keys ==> u in t.subtotals.amount
  {
    if keys == [] then []
    else
      var u := keys[|keys| - 1];
      assert u in keys;
      var prev := CreatedFrom(orderId, t, keys[..|keys| - 1], users, fees, firstId, roundCents);
      if u in users then prev + [NewSplit(firstId + |prev|, orderId, t, u, fees, roundCents)] else prev
  }

  /** The `k`-th created row is the row of the `k`-th existing user, with id `firstId + k`. */
  lemma {:induction false} CreatedFromRows(orderId: int, t: Tally, keys: seq<int>, users: map<int, User>, fees: real,
                                           firstId: int, roundCents: real -> real)
    requires TallyValid(t) && forall u :: u in keys ==> u in t.subtotals.amount
    ensures var r := CreatedFrom(orderId, t, keys, users, fees, firstId, roundCents);
      |r| == |Present(keys, users)| &&
      forall k :: 0 <= k < |r| ==> r[k] == NewSplit(firstId + k, orderId, t, Present(keys, users)[k], fees, roundCents)
  {
    if keys != [] {
      var u := keys[|keys| - 1];
      assert u in keys;
      CreatedFromRows(orderId, t, keys[..|keys| - 1], users, fees, firstId, roundCents);
    }
  }

  /** The rows `create_bulk_splits` adds: one per credited user that exists,
      in key order, with consecutive ids from `firstId`, unpaid and not yet
      reminded. */
  function CreatedSplits(orderId: int, t: Tally, users: map<int, User>, fees: real,
                         firstId: int, roundCents: real -> real): (r: seq<Split>)
    requires TallyValid(t)
    ensures |r| == |Present(t.subtotals.keys, users)|
    ensures forall k :: 0 <= k < |r| ==>
              r[k].id == firstId + k && r[k].orderId == orderId &&
              r[k].userId == Present(t.subtotals.keys, users)[k] &&
              !r[k].paidStatus && !r[k].reminderSent
  {
    CreatedFromRows(orderId, t, t.subtotals.keys, users, fees, firstId, roundCents);
    CreatedFrom(orderId, t, t.subtotals.keys, users, fees, firstId, roundCents)
  }

  // ---------------------------------------------------------------------
  // Who is credited with what

  /** The credited users are the users of the credits. */
  lemma {:induction false} UsersOfMembers(ss: seq<Share>)
    ensures forall u :: u in UsersOf(ss) <==> exists k :: 0 <= k < |ss| && ss[k].userId == u
  {
    if ss != [] {
      var p := ss[..|ss| - 1];
      UsersOfMembers(p);
      assert forall k :: 0 <= k < |p| ==> p[k] == ss[k];
    }
  }

  /** The items credited to `u` are the items of `u`'s credits. */
  lemma {:induction false} ItemsForMembers(ss: seq<Share>, u: int)
    ensures forall id :: id in ItemsFor(ss, u) <==> exists k :: 0 <= k < |ss| && ss[k].userId == u && ss[k].itemId == id
  {
    if ss != [] {
      var p := ss[..|ss| - 1];
      ItemsForMembers(p, u);
      assert forall k :: 0 <= k < |p| ==> p[k] == ss[k];
    }
  }

  /** A credit of a request is a user entry of one of its valid assignments. */
  lemma {:induction false} SharesMembers(m: map<int, Item>, reqs: seq<Assignment>)
    ensures forall s :: s in Shares(m, reqs) <==>
              exists a, k :: a in reqs && IsValid(m, a) && 0 <= k < |a.userIds| &&
                s == Share(a.userIds[k], a.itemId, PerUserCost(m, a))
  {
    if reqs != [] {
      var p, last := reqs[..|reqs| - 1], reqs[|reqs| - 1];
      SharesMembers(m, p);
      assert reqs == p + [last];
      forall s | s in Shares(m, reqs)
        ensures exists a, k :: a in reqs && IsValid(m, a) && 0 <= k < |a.userIds| &&
                  s == Share(a.userIds[k], a.itemId, PerUserCost(m, a))
      {
        if s !in Shares(m, p) {
          var k :| 0 <= k < |SharesOf(m, last)| && SharesOf(m, last)[k] == s;
          assert IsValid(m, last) && s == Share(last.userIds[k], last.itemId, PerUserCost(m, last));
        }
      }
      forall a, k | a in reqs && IsValid(m, a) && 0 <= k < |a.userIds|
        ensures Share(a.userIds[k], a.itemId, PerUserCost(m, a)) in Shares(m, reqs)
      {
        if a == last {
          assert SharesOf(m, last)[k] == Share(a.userIds[k], a.itemId, PerUserCost(m, a));
        } else {
          assert a in p;
        }
      }
    }
  }

  /** A user is credited exactly when some valid assignment lists them. */
  lemma CreditedUsers(m: map<int, Item>, reqs: seq<Assignment>)
    ensures forall u :: u in UsersOf(Shares(m, reqs)) <==> exists a :: a in reqs && IsValid(m, a) && u in a.userIds
  {
    var ss := Shares(m, reqs);
    UsersOfMembers(ss);
    SharesMembers(m, reqs);
    forall u | u in UsersOf(ss) ensures exists a :: a in reqs && IsValid(m, a) && u in a.userIds {
      var k :| 0 <= k < |ss| && ss[k].userId == u;
      assert ss[k] in ss;
    }
    forall a, u | a in reqs && IsValid(m, a) && u in a.userIds ensures u in UsersOf(ss) {
      var k :| 0 <= k < |a.userIds| && a.userIds[k] == u;
      var s := Share(a.userIds[k], a.itemId, PerUserCost(m, a));
      assert s in ss;
      var j :| 0 <= j < |ss| && ss[j] == s;
    }
  }

  /** The item ids credited to `u` are exactly the items of the valid
      assignments that list `u`. */
  lemma CreditedItems(m: map<int, Item>, reqs: seq<Assignment>, u: int)
    ensures forall id :: id in ItemsFor(Shares(m, reqs), u) <==>
              exists a :: a in reqs && IsValid(m, a) && u in a.userIds && a.itemId == id
  {
    var ss := Shares(m, reqs);
    ItemsForMembers(ss, u);
    SharesMembers(m, reqs);
    forall id | id in ItemsFor(ss, u) ensures exists a :: a in reqs && IsValid(m, a) && u in a.userIds && a.itemId == id {
      var k :| 0 <= k < |ss| && ss[k].userId == u && ss[k].itemId == id;
      assert ss[k] in ss;
      var a, j :| a in reqs && IsValid(m, a) && 0 <= j < |a.userIds| &&
                  ss[k] == Share(a.userIds[j], a.itemId, PerUserCost(m, a));
      assert a.userIds[j] in a.userIds;
    }
    forall a | a in reqs && IsValid(m, a) && u in a.userIds ensures a.itemId in ItemsFor(ss, u) {
      var j :| 0 <= j < |a.userIds| && a.userIds[j] == u;
      var s := Share(a.userIds[j], a.itemId, PerUserCost(m, a));
      assert s in ss;
      var k :| 0 <= k < |ss| && ss[k] == s;
    }
  }

  /** The users with a subtotal are the users some valid assignment lists. */
  lemma AllocatedUsers(m: map<int, Item>, reqs: seq<Assignment>)
    ensures forall u :: u in Allocate(m, reqs).subtotals.keys <==>
              exists a :: a in reqs && IsValid(m, a) && u in a.userIds
  {
    AllocationMeaning(m, reqs);
    CreditedUsers(m, reqs);
  }

  /** The created splits go to the users of `Present`, one each. */
  lemma CreatedForPresent(orderId: int, t: Tally, users: map<int, User>,
                          fees: real, firstId: int, roundCents: real -> real)
    requires TallyValid(t)
    ensures var created := CreatedSplits(orderId, t, users, fees, firstId, roundCents);
      forall u :: (exists k :: 0 <= k < |created| && created[k].userId == u) <==>
                    u in Present(t.subtotals.keys, users)
  {
    var created := CreatedSplits(orderId, t, users, fees, firstId, roundCents);
    var present := Present(t.subtotals.keys, users);
    forall u | (exists k :: 0 <= k < |created| && created[k].userId == u)
      ensures u in present
    {
      var k :| 0 <= k < |created| && created[k].userId == u;
      assert present[k] in present;
    }
    forall u | u in present
      ensures exists k :: 0 <= k < |created| && created[k].userId == u
    {
      var k :| 0 <= k < |present| && present[k] == u;
      assert created[k].userId == u;
    }
  }

  /** The created splits of a request go to exactly the users that some
      valid assignment lists and that exist. */
  lemma CreatedSplitsUsers(orderId: int, m: map<int, Item>, reqs: seq<Assignment>, users: map<int, User>,
                           fees: real, firstId: int, roundCents: real -> real)
    ensures var created := CreatedSplits(orderId, Allocate(m, reqs), users, fees, firstId, roundCents);
      forall u :: (exists k :: 0 <= k < |created| && created[k].userId == u) <==>
                    u in users && exists a :: a in reqs && IsValid(m, a) && u in a.userIds
  {
    AllocatedUsers(m, reqs);
    CreatedForPresent(orderId, Allocate(m, reqs), users, fees, firstId, roundCents);
  }

  /** No user gets two splits. */
  lemma CreatedSplitsDistinct(orderId: int, t: Tally, users: map<int, User>,
                              fees: real, firstId: int, roundCents: real -> real)
    requires TallyValid(t)
    ensures var created := CreatedSplits(orderId, t, users, fees, firstId, roundCents);
      forall i, j :: 0 <= i < j < |created| ==> created[i].userId != created[j].userId
  {
    PresentNoDups(t.subtotals.keys, users);
  }

  /** The `k`-th created split owes the rounded sum of its user's credits
      and of their share of the fees, in proportion to the valid line totals. */
  lemma CreatedSplitAmount(orderId: int, m: map<int, Item>, reqs: seq<Assignment>, users: map<int, User>,
                           fees: real, firstId: int, roundCents: real -> real, k: int)
    requires 0 <= k < |CreatedSplits(orderId, Allocate(m, reqs), users, fees, firstId, roundCents)|
    ensures var s := CreatedSplits(orderId, Allocate(m, reqs), users, fees, firstId, roundCents)[k];
      s.amountOwed == roundCents(AmountFor(Shares(m, reqs), s.userId) +
                                 FeeShare(fees, AmountFor(Shares(m, reqs), s.userId), ValidLineSum(m, reqs)))
  {
    var t := Allocate(m, reqs);
    var s := CreatedSplits(orderId, t, users, fees, firstId, roundCents)[k];
    var u := CreatedSplitRow(orderId, t, users, fees, firstId, roundCents, k);
    UnroundedMeaning(m, reqs, u, fees);
    var a := AmountFor(Shares(m, reqs), u);
    RoundOfEqual(roundCents, s.amountOwed, Unrounded(t, u, fees), a + FeeShare(fees, a, ValidLineSum(m, reqs)));
  }

  /** Rounding equal amounts gives equal results. */
  lemma RoundOfEqual(roundCents: real -> real, owed: real, x: real, y: real)
    requires owed == roundCents(x) && x == y
    ensures owed == roundCents(y)
  {
  }

  /** The `k`-th created split lists its user's valid assigned items
      without repeats, in order of first assignment. */
  lemma CreatedSplitItems(orderId: int, m: map<int, Item>, reqs: seq<Assignment>, users: map<int, User>,
                          fees: real, firstId: int, roundCents: real -> real, k: int)
    requires 0 <= k < |CreatedSplits(orderId, Allocate(m, reqs), users, fees, firstId, roundCents)|
    ensures var s := CreatedSplits(orderId, Allocate(m, reqs), users, fees, firstId, roundCents)[k];
      s.itemIds == Dedup(ItemsFor(Shares(m, reqs), s.userId)) && NoDups(s.itemIds)
  {
    var t := Allocate(m, reqs);
    var u := CreatedSplitRow(orderId, t, users, fees, firstId, roundCents, k);
    AllocationEntry(m, reqs, u);
  }

  /** Before rounding, a credited user owes their credits plus their share
      of the fees in proportion to the valid line totals. */
  lemma UnroundedMeaning(m: map<int, Item>, reqs: seq<Assignment>, u: int, fees: real)
    requires u in Allocate(m, reqs).itemIds
    ensures u in Allocate(m, reqs).subtotals.amount
    ensures Unrounded(Allocate(m, reqs), u, fees) ==
            AmountFor(Shares(m, reqs), u) + FeeShare(fees, AmountFor(Shares(m, reqs), u), ValidLineSum(m, reqs))
  {
    AllocationEntry(m, reqs, u);
  }

  /** `AllocationMeaning` for one credited user. */
  lemma AllocationEntry(m: map<int, Item>, reqs: seq<Assignment>, u: int)
    requires u in Allocate(m, reqs).itemIds
    ensures var t := Allocate(m, reqs);
      TallyValid(t) && u in t.subtotals.amount &&
      t.subtotals.amount[u] == AmountFor(Shares(m, reqs), u) &&
      t.itemIds[u] == Dedup(ItemsFor(Shares(m, reqs), u)) &&
      Total(t.subtotals) == ValidLineSum(m, reqs)
  {
    AllocationMeaning(m, reqs);
    AllocateFacts(m, reqs);
  }

  /** The `k`-th created split is the new row of a credited user. */
  lemma CreatedSplitRow(orderId: int, t: Tally, users: map<int, User>, fees: real,
                        firstId: int, roundCents: real -> real, k: int) returns (u: int)
    requires TallyValid(t)
    requires 0 <= k < |CreatedSplits(orderId, t, users, fees, firstId, roundCents)|
    ensures u in t.subtotals.amount && u in t.itemIds
    ensures var s := CreatedSplits(orderId, t, users, fees, firstId, roundCents)[k];
      s.userId == u && s.itemIds == t.itemIds[u] && s.amountOwed == roundCents(Unrounded(t, u, fees))
  {
    var present := Present(t.subtotals.keys, users);
    CreatedFromRows(orderId, t, t.subtotals.keys, users, fees, firstId, roundCents);
    u := present[k];
    assert u in present;
  }

  lemma {:induction false} PresentNoDups(keys: seq<int>, users: map<int, User>)
    requires NoDups(keys)
    ensures NoDups(Present(keys, users))
  {
    if keys != [] {
      var p, last := keys[..|keys| - 1], keys[|keys| - 1];
      assert NoDups(p) by {
        forall i, j | 0 <= i < j < |p| ensures p[i] != p[j] {
          assert p[i] == keys[i] && p[j] == keys[j];
        }
      }
      PresentNoDups(p, users);
      assert last !in p by {
        forall i | 0 <= i < |p| ensures p[i] != last {
          assert p[i] == keys[i];
        }
      }
    }
  }

  /** Conservation of money before rounding, for a whole request: when the
      valid line totals are positive, the unrounded amounts of the credited
      users add up to those line totals plus the fees. */
  lemma RequestConservesMoney(m: map<int, Item>, reqs: seq<Assignment>, fees: real)
    requires ValidLineSum(m, reqs) > 0.0
    ensures var t := Allocate(m, reqs);
      SumOver(t.subtotals.keys, FeeShares(t, fees)) == fees &&
      SumOver(t.subtotals.keys, UnroundedAmounts(t, fees)) == ValidLineSum(m, reqs) + fees
  {
    AllocateFacts(m, reqs);
    FeeSharesConserve(Allocate(m, reqs), fees);
  }
}
