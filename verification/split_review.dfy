/** The last wizard screen: the created splits of one order, split into the
    outstanding and the settled ones, each outstanding split broken down
    into its item shares and its part of the fees, with buttons that mark a
    split paid and send reminders. */
module SplitReview {
  import opened Domain

  // ---------------------------------------------------------------------
  // Item lookup and share counts

  /** `Object.fromEntries(order.items.map((item) => [item.id, item]))`: every
      item under its id, a later item replacing an earlier one with the same id. */
  function ItemIndex(items: seq<Item>): (m: map<int, Item>)
    ensures forall id :: id in m ==> m[id].id == id && m[id] in items
    ensures forall k :: 0 <= k < |items| ==> items[k].id in m
  {
    if items == [] then map[]
    else
      var last := items[|items| - 1];
      var m := ItemIndex(items[..|items| - 1]);
      assert forall k :: 0 <= k < |items| - 1 ==> items[..|items| - 1][k] == items[k];
      m[last.id := last]
  }

  /** `splitStates.filter((s) => s.item_ids.includes(id)).length` */
  function CountContaining(splits: seq<Split>, id: int): (n: nat)
    ensures n <= |splits|
  {
    if splits == [] then 0
    else
      CountContaining(splits[..|splits| - 1], id) + (if id in splits[|splits| - 1].itemIds then 1 else 0)
  }

  /** The indices of the splits that list `id`. */
  function Holders(splits: seq<Split>, id: int): set<int> {
    set k | 0 <= k < |splits| && id in splits[k].itemIds
  }

  /** The count is the number of splits that list the item. */
  lemma {:induction false} CountContainingIsHolders(splits: seq<Split>, id: int)
    ensures CountContaining(splits, id) == |Holders(splits, id)|
  {
    if splits != [] {
      var n := |splits| - 1;
      var p := splits[..n];
      CountContainingIsHolders(p, id);
      assert Holders(splits, id) ==
             Holders(p, id) + (if id in splits[n].itemIds then {n} else {});
    }
  }

  /** The `itemShareCount` loop of SplitReview.tsx:48-51: for every order
      item, the number of splits whose item ids contain it. */
  method ItemShareCounts(items: seq<Item>, splits: seq<Split>) returns (counts: map<int, nat>)
    ensures forall k :: 0 <= k < |items| ==> items[k].id in counts
    ensures forall id :: id in counts ==> (exists k :: 0 <= k < |items| && items[k].id == id)
    ensures forall id :: id in counts ==> counts[id] == |Holders(splits, id)|
  {
    counts := map[];
    for i := 0 to |items|
      invariant forall k :: 0 <= k < i ==> items[k].id in counts
      invariant forall id :: id in counts ==> (exists k :: 0 <= k < i && items[k].id == id)
      invariant forall id :: id in counts ==> counts[id] == |Holders(splits, id)|
    {
      var id := items[i].id;
      CountContainingIsHolders(splits, id);
      counts := counts[id := CountContaining(splits, id)];
    }
  }

  /** `itemShareCount[item.id] || 1`: a missing or zero count reads as 1. */
  function ShareCount(counts: map<int, nat>, id: int): (c: nat)
    ensures c >= 1
    ensures c == 1 || (id in counts && c == counts[id])
  {
    if id in counts && counts[id] != 0 then counts[id] else 1
  }

  /** `(item.price * item.quantity) / shareCount`: the item's line total
      shared evenly among the splits that list it. */
  function DisplayedShare(item: Item, counts: map<int, nat>): (share: real)
    ensures share * (ShareCount(counts, item.id) as real) == LineTotal(item)
  {
    LineTotal(item) / (ShareCount(counts, item.id) as real)
  }

  // ---------------------------------------------------------------------
  // One outstanding split

  /** `split.item_ids.map((id) => itemMap[id]).filter(Boolean)`: the items
      of the split's ids, ids missing from the order dropped. */
  function AssignedItems(ids: seq<int>, index: map<int, Item>): (r: seq<Item>)
    ensures |r| <= |ids|
    ensures forall it :: it in r <==> exists id :: id in ids && id in index && index[id] == it
  {
    if ids == [] then []
    else
      var id := ids[|ids| - 1];
      var p := ids[..|ids| - 1];
      assert forall x :: x in ids <==> x in p || x == id;
      AssignedItems(p, index) + (if id in index then [index[id]] else [])
  }

  /** When the order knows every id, nothing is dropped and the order of the
      ids is kept. */
  lemma {:induction false} AssignedItemsAllKnown(ids: seq<int>, index: map<int, Item>)
    requires forall id :: id in ids ==> id in index
    ensures |AssignedItems(ids, index)| == |ids|
    ensures forall k :: 0 <= k < |ids| ==> ids[k] in index && AssignedItems(ids, index)[k] == index[ids[k]]
  {
    if ids != [] {
      var p := ids[..|ids| - 1];
      AssignedItemsAllKnown(p, index);
      assert ids[|ids| - 1] in ids;
    }
  }

  /** `assignedItems.reduce((sum, item) => sum + share, 0)` */
  function SumShares(listed: seq<Item>, counts: map<int, nat>): real {
    if listed == [] then 0.0
    else SumShares(listed[..|listed| - 1], counts) + DisplayedShare(listed[|listed| - 1], counts)
  }

  /** The sum over two runs of items is the sum of their sums: with exact
      numbers the order of the fold's additions does not matter. */
  lemma {:induction false} SumSharesAppend(a: seq<Item>, b: seq<Item>, counts: map<int, nat>)
    ensures SumShares(a + b, counts) == SumShares(a, counts) + SumShares(b, counts)
  {
    if b == [] {
      assert a + b == a;
    } else {
      var p, last := b[..|b| - 1], b[|b| - 1];
      assert (a + b)[..|a + b| - 1] == a + p;
      assert (a + b)[|a + b| - 1] == last;
      SumSharesAppend(a, p, counts);
    }
  }

  /** `Math.max(0, split.amount_owed - sum of shares)`: the part of the
      amount owed the item shares do not explain, never negative. */
  function FeeResidual(amountOwed: real, listed: seq<Item>, counts: map<int, nat>): (r: real)
    ensures r >= 0.0 && r >= amountOwed - SumShares(listed, counts)
    ensures r == 0.0 || r == amountOwed - SumShares(listed, counts)
  {
    var rest := amountOwed - SumShares(listed, counts);
    if rest > 0.0 then rest else 0.0
  }

  // ---------------------------------------------------------------------
  // The two lists and the banners

  /** `splitStates.filter((s) => !s.paid_status)` */
  function Unpaid(ss: seq<Split>): (r: seq<Split>)
    ensures |r| <= |ss|
  {
    if ss == [] then []
    else
      var last := ss[|ss| - 1];
      Unpaid(ss[..|ss| - 1]) + (if !last.paidStatus then [last] else [])
  }

  /** `splitStates.filter((s) => s.paid_status)` */
  function Paid(ss: seq<Split>): (r: seq<Split>)
    ensures |r| <= |ss|
  {
    if ss == [] then []
    else
      var last := ss[|ss| - 1];
      Paid(ss[..|ss| - 1]) + (if last.paidStatus then [last] else [])
  }

  /** The outstanding list holds the unpaid splits, the settled list the
      paid ones. */
  lemma {:induction false} FilterMembers(ss: seq<Split>)
    ensures forall s :: s in Unpaid(ss) <==> s in ss && !s.paidStatus
    ensures forall s :: s in Paid(ss) <==> s in ss && s.paidStatus
  {
    if ss != [] {
      var p, last := ss[..|ss| - 1], ss[|ss| - 1];
      FilterMembers(p);
      assert ss == p + [last];
    }
  }

  /** The two lists split the splits: together they hold every split exactly
      as often as the state does. */
  lemma {:induction false} PaidUnpaidPartition(ss: seq<Split>)
    ensures multiset(Unpaid(ss)) + multiset(Paid(ss)) == multiset(ss)
    ensures |Unpaid(ss)| + |Paid(ss)| == |ss|
  {
    if ss != [] {
      var p, last := ss[..|ss| - 1], ss[|ss| - 1];
      PaidUnpaidPartition(p);
      assert ss == p + [last];
      assert multiset(ss) == multiset(p) + multiset{last};
      if last.paidStatus {
        assert Unpaid(ss) == Unpaid(p);
        assert Paid(ss) == Paid(p) + [last];
        assert multiset(Paid(ss)) == multiset(Paid(p)) + multiset{last};
      } else {
        assert Unpaid(ss) == Unpaid(p) + [last];
        assert Paid(ss) == Paid(p);
        assert multiset(Unpaid(ss)) == multiset(Unpaid(p)) + multiset{last};
      }
    }
  }

  /** The outstanding list keeps the state's order: filtering a
      concatenation is concatenating the filtered parts. */
  lemma {:induction false} UnpaidKeepsOrder(a: seq<Split>, b: seq<Split>)
    ensures Unpaid(a + b) == Unpaid(a) + Unpaid(b)
  {
    if b == [] {
      assert a + b == a;
    } else {
      var q, last := b[..|b| - 1], b[|b| - 1];
      UnpaidKeepsOrder(a, q);
      var ab := a + b;
      assert ab[..|ab| - 1] == a + q && ab[|ab| - 1] == last;
      var u := if !last.paidStatus then [last] else [];
      assert Unpaid(ab) == Unpaid(a + q) + u;
      assert Unpaid(b) == Unpaid(q) + u;
    }
  }

  /** The settled list keeps the state's order as well. */
  lemma {:induction false} PaidKeepsOrder(a: seq<Split>, b: seq<Split>)
    ensures Paid(a + b) == Paid(a) + Paid(b)
  {
    if b == [] {
      assert a + b == a;
    } else {
      var q, last := b[..|b| - 1], b[|b| - 1];
      PaidKeepsOrder(a, q);
      var ab := a + b;
      assert ab[..|ab| - 1] == a + q && ab[|ab| - 1] == last;
      var d := if last.paidStatus then [last] else [];
      assert Paid(ab) == Paid(a + q) + d;
      assert Paid(b) == Paid(q) + d;
    }
  }

  /** The send-all button shows when some split is outstanding (line 189). */
  predicate ShowSendAll(ss: seq<Split>) {
    |Unpaid(ss)| > 0
  }

  /** "All settled" shows when nothing is outstanding and there are splits (line 397). */
  predicate AllSettled(ss: seq<Split>) {
    |Unpaid(ss)| == 0 && |ss| > 0
  }

  /** The send-all button shows exactly when some split is unpaid, "All
      settled" exactly when there are splits and all are paid; with splits
      present exactly one of the two shows. */
  lemma BannersMeaning(ss: seq<Split>)
    ensures ShowSendAll(ss) <==> exists k :: 0 <= k < |ss| && !ss[k].paidStatus
    ensures AllSettled(ss) <==> ss != [] && forall k :: 0 <= k < |ss| ==> ss[k].paidStatus
    ensures ss != [] ==> (ShowSendAll(ss) <==> !AllSettled(ss))
  {
    FilterMembers(ss);
    if exists k :: 0 <= k < |ss| && !ss[k].paidStatus {
      var k :| 0 <= k < |ss| && !ss[k].paidStatus;
      assert ss[k] in Unpaid(ss);
    }
    if |Unpaid(ss)| > 0 {
      assert Unpaid(ss)[0] in Unpaid(ss);
    }
  }

  // ---------------------------------------------------------------------
  // Replacing one split

  /** `prev.map((s) => (s.id === updated.id ? updated : s))` */
  function ReplaceById(ss: seq<Split>, updated: Split): (r: seq<Split>)
    ensures |r| == |ss|
  {
    seq(|ss|, k requires 0 <= k < |ss| => if ss[k].id == updated.id then updated else ss[k])
  }

  predicate DistinctIds(ss: seq<Split>) {
    forall i, j :: 0 <= i < j < |ss| ==> ss[i].id != ss[j].id
  }

  /** With distinct ids, replacing by id replaces exactly the split with that
      id and nothing else. */
  lemma ReplaceByIdOne(ss: seq<Split>, k: int, updated: Split)
    requires DistinctIds(ss) && 0 <= k < |ss| && ss[k].id == updated.id
    ensures ReplaceById(ss, updated) == ss[k := updated]
  {
    var r := ReplaceById(ss, updated);
    forall j | 0 <= j < |ss| ensures r[j] == ss[k := updated][j] {
      if j < k {
        assert ss[j].id != ss[k].id;
      } else if j > k {
        assert ss[k].id != ss[j].id;
      }
    }
  }

  /** A split whose id is not on screen changes nothing. */
  lemma ReplaceByIdAbsent(ss: seq<Split>, updated: Split)
    requires forall k :: 0 <= k < |ss| ==> ss[k].id != updated.id
    ensures ReplaceById(ss, updated) == ss
  {
  }

  /** Replacing keeps the ids on screen, so the ids stay distinct. */
  lemma ReplaceByIdKeepsIds(ss: seq<Split>, updated: Split)
    requires DistinctIds(ss)
    ensures DistinctIds(ReplaceById(ss, updated))
    ensures forall k :: 0 <= k < |ss| ==> ReplaceById(ss, updated)[k].id == ss[k].id
  {
  }

  // ---------------------------------------------------------------------
  // The screen's state

  /** How the send-all request and the refresh after it end. */
  datatype SendAllOutcome =
    | SendRejected                 // the POST failed or answered an error
    | RefreshThrew                 // sent, but the refresh request failed
    | RefreshNotOk                 // sent, the refresh answered an error
    | Refreshed(splits: seq<Split>) // sent and refreshed

  class SplitReviewPanel {
    var splitStates: seq<Split>
    var sendingAll: bool
    var sendingId: Option<int>
    var toastMessage: string

    constructor(splits: seq<Split>)
      ensures splitStates == splits && !sendingAll && sendingId == None && toastMessage == ""
    {
      splitStates := splits;
      sendingAll := false;
      sendingId := None;
      toastMessage := "";
    }

    /** `togglePaid` (lines 55-67): asks the server for the opposite of the
        current status; the answer, when there is one, replaces the split
        with its id. */
    method TogglePaid(current: bool, response: Option<Split>) returns (requested: bool)
      modifies this
      ensures requested == !current
      ensures response.Some? ==> splitStates == ReplaceById(old(splitStates), response.value) &&
                                 toastMessage == old(toastMessage)
      ensures response.None? ==> splitStates == old(splitStates) &&
                                 toastMessage == "Failed to update payment status"
      ensures sendingAll == old(sendingAll) && sendingId == old(sendingId)
    {
      requested := !current;
      if response.Some? {
        splitStates := ReplaceById(splitStates, response.value);
      } else {
        toastMessage := "Failed to update payment status";
      }
    }

    /** `sendReminder` (lines 69-86), from the click to the `finally`. */
    method SendReminder(splitId: int, response: Option<Split>)
      modifies this
      ensures response.Some? ==> splitStates == ReplaceById(old(splitStates), response.value) &&
                                 toastMessage == "Reminder sent!"
      ensures response.None? ==> splitStates == old(splitStates) &&
                                 toastMessage == "Failed to send reminder"
      ensures sendingId == None && sendingAll == old(sendingAll)
    {
      sendingId := Some(splitId);
      if response.Some? {
        splitStates := ReplaceById(splitStates, response.value);
        toastMessage := "Reminder sent!";
      } else {
        toastMessage := "Failed to send reminder";
      }
      sendingId := None;
    }

    /** `sendAllReminders` (lines 88-110), from the click to the `finally`:
        only a successful refresh replaces the list, and a failed refresh
        after a successful send still reports success unless it threw. */
    method SendAllReminders(outcome: SendAllOutcome)
      modifies this
      ensures splitStates == if outcome.Refreshed? then outcome.splits else old(splitStates)
      ensures toastMessage == if outcome.SendRejected? || outcome.RefreshThrew?
                              then "Failed to send reminders" else "All reminders sent!"
      ensures !sendingAll && sendingId == old(sendingId)
    {
      sendingAll := true;
      match outcome {
        case SendRejected =>
          toastMessage := "Failed to send reminders";
        case RefreshThrew =>
          toastMessage := "Failed to send reminders";
        case RefreshNotOk =>
          toastMessage := "All reminders sent!";
        case Refreshed(refreshed) =>
          splitStates := refreshed;
          toastMessage := "All reminders sent!";
      }
      sendingAll := false;
    }

    /** The three-second timer of `showToast` clears the message. */
    method ToastExpired()
      modifies this
      ensures toastMessage == ""
      ensures splitStates == old(splitStates) && sendingAll == old(sendingAll) && sendingId == old(sendingId)
    {
      toastMessage := "";
    }
  }
}
