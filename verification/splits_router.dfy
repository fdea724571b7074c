/** The splits router of the backend: the tables it reads and writes and its
    operations `create_bulk_splits`, `mark_split_paid`,
    `send_reminder_for_split` and `send_all_reminders_for_order`. The SMS
    gateway is a parameter `send`; the clock is a parameter `now`; Python's
    `round(·, 2)` is a parameter `roundCents`. */
module SplitsRouter {
  import opened Domain
  import opened Ledger
  import opened Allocation

  /** An `HTTPException`: its status code and its detail text. */
  datatype HttpError = HttpError(status: int, detail: string)

  datatype Result<T> = Ok(value: T) | Err(error: HttpError)

  // ---------------------------------------------------------------------
  // Table queries

  /** `db.query(Item).filter(Item.order_id == order_id).all()`, in table order. */
  function ItemsOfOrder(table: seq<Item>, orderId: int): (r: seq<Item>)
    ensures forall it :: it in r <==> it in table && it.orderId == orderId
  {
    if table == [] then []
    else
      var last := table[|table| - 1];
      assert table == table[..|table| - 1] + [last];
      ItemsOfOrder(table[..|table| - 1], orderId) + (if last.orderId == orderId then [last] else [])
  }

  /** `db.query(Split).filter(Split.order_id == order_id).all()`, in table order. */
  function SplitsOf(rows: seq<Split>, orderId: int): (r: seq<Split>)
    ensures forall s :: s in r <==> s in rows && s.orderId == orderId
  {
    if rows == [] then []
    else
      var last := rows[|rows| - 1];
      assert rows == rows[..|rows| - 1] + [last];
      SplitsOf(rows[..|rows| - 1], orderId) + (if last.orderId == orderId then [last] else [])
  }

  /** The split table after `delete()` of the order's splits: the other rows, in order. */
  function WithoutOrder(rows: seq<Split>, orderId: int): (r: seq<Split>)
    ensures forall s :: s in r <==> s in rows && s.orderId != orderId
  {
    if rows == [] then []
    else
      var last := rows[|rows| - 1];
      assert rows == rows[..|rows| - 1] + [last];
      WithoutOrder(rows[..|rows| - 1], orderId) + (if last.orderId != orderId then [last] else [])
  }

  /** `db.query(Split).filter(Split.id == split_id).first()`: the position of
      the first row with that id. */
  function FindSplit(rows: seq<Split>, id: int): (r: Option<nat>)
    ensures r.Some? ==> r.value < |rows| && rows[r.value].id == id
    ensures r.None? ==> forall i :: 0 <= i < |rows| ==> rows[i].id != id
  {
    if rows == [] then None
    else if rows[0].id == id then Some(0)
    else
      match FindSplit(rows[1..], id)
      case None => None
      case Some(k) => Some(k + 1)
  }

  /** `[item.name for item in db.query(Item).filter(Item.id.in_(ids)).all()]`:
      the names of the table's items whose id is listed, in table order, each
      row once however often its id is listed. */
  function ItemNames(table: seq<Item>, ids: seq<int>): (names: seq<string>)
    ensures |names| <= |table|
    ensures forall n :: n in names <==> exists it :: it in table && it.id in ids && it.name == n
  {
    if table == [] then []
    else
      var last := table[|table| - 1];
      assert table == table[..|table| - 1] + [last];
      ItemNames(table[..|table| - 1], ids) + (if last.id in ids then [last.name] else [])
  }

  // ---------------------------------------------------------------------
  // Reminders

  /** `user.whatsapp_number if user.whatsapp_number else user.phone`: a
      set, non-empty WhatsApp number is preferred, the phone is the
      fallback, so a user with a phone is never sent to an empty number. */
  function RecipientPhone(user: User): (phone: string)
    ensures Truthy(user.whatsappNumber) ==> phone == user.whatsappNumber.value
    ensures !Truthy(user.whatsappNumber) ==> phone == user.phone
    ensures user.phone != "" ==> phone != ""
  {
    if Truthy(user.whatsappNumber) then user.whatsappNumber.value else user.phone
  }

  /** `payer.payment_handle if payer.payment_handle else "Venmo/Zelle/Cash"`:
      the payer's own handle when set, else the generic text; never empty. */
  function PaymentMethod(payer: User): (how: string)
    ensures how != ""
    ensures Truthy(payer.paymentHandle) ==> how == payer.paymentHandle.value
    ensures !Truthy(payer.paymentHandle) ==> how == "Venmo/Zelle/Cash"
  {
    if Truthy(payer.paymentHandle) then payer.paymentHandle.value else "Venmo/Zelle/Cash"
  }

  /** The arguments of one payment reminder. */
  datatype Reminder = Reminder(recipientName: string, recipientPhone: string, payerName: string,
                               restaurant: string, amount: real, items: seq<string>,
                               paymentMethod: string)

  /** The reminder for split `s`, owed by `user` to `payer` for `order`:
      addressed to the user, for the split's amount, always naming a way to
      pay; its items are the `ItemNames` of the split's ids. */
  function ReminderFor(s: Split, user: User, order: OrderRow, payer: User, table: seq<Item>): (r: Reminder)
    ensures r.recipientName == user.name && r.recipientPhone == RecipientPhone(user)
    ensures r.payerName == payer.name && r.restaurant == order.restaurant && r.amount == s.amountOwed
    ensures r.paymentMethod != ""
  {
    Reminder(user.name, RecipientPhone(user), payer.name, order.restaurant, s.amountOwed,
             ItemNames(table, s.itemIds), PaymentMethod(payer))
  }

  datatype SmsStatus = Sent | Error | Failed

  /** What the SMS gateway answers for one reminder. */
  datatype Delivery = Delivery(status: SmsStatus, messageSid: Option<string>)

  /** The result dict of `send_payment_reminder`: every branch echoes the
      recipient phone. */
  datatype SmsResult = SmsResult(status: SmsStatus, messageSid: Option<string>, recipient: string)

  function Deliver(send: Reminder -> Delivery, r: Reminder): (res: SmsResult)
    ensures res.recipient == r.recipientPhone
    ensures res.status == send(r).status && res.messageSid == send(r).messageSid
  {
    SmsResult(send(r).status, send(r).messageSid, r.recipientPhone)
  }

  /** `send_bulk_reminders`: one result per reminder, in order. */
  function Deliveries(send: Reminder -> Delivery, rs: seq<Reminder>): (results: seq<SmsResult>)
    ensures |results| == |rs|
    ensures forall k :: 0 <= k < |rs| ==> results[k].recipient == rs[k].recipientPhone
  {
    seq(|rs|, k requires 0 <= k < |rs| => Deliver(send, rs[k]))
  }

  /** The split after a reminder went out: `reminder_sent`, `reminder_sent_at`
      and `message_sid` set, every other column as it was. */
  function Reminded(s: Split, sid: Option<string>, now: int): (r: Split)
    ensures SameExceptReminder(r, s)
    ensures r.reminderSent && r.reminderSentAt == Some(now) && r.messageSid == sid
  {
    s.(reminderSent := true, reminderSentAt := Some(now), messageSid := sid)
  }

  /** Two versions of a row that differ at most in the reminder columns. */
  predicate SameExceptReminder(a: Split, b: Split) {
    a.id == b.id && a.orderId == b.orderId && a.userId == b.userId && a.itemIds == b.itemIds &&
    a.amountOwed == b.amountOwed && a.paidStatus == b.paidStatus
  }

  /** One reminder of send-all and the split it was built for. */
  datatype Pending = Pending(reminder: Reminder, splitId: int)

  /** The reminders send-all prepares for `rows`, in order: none for a paid
      split or for a split whose user is missing. */
  function PendingOf(rows: seq<Split>, users: map<int, User>, table: seq<Item>,
                     order: OrderRow, payer: User): (ps: seq<Pending>)
    ensures |ps| <= |rows|
  {
    if rows == [] then []
    else
      var s := rows[|rows| - 1];
      PendingOf(rows[..|rows| - 1], users, table, order, payer) +
      (if s.paidStatus || s.userId !in users then []
       else [Pending(ReminderFor(s, users[s.userId], order, payer, table), s.id)])
  }

  function Reminders(ps: seq<Pending>): (rs: seq<Reminder>)
    ensures |rs| == |ps| && forall k :: 0 <= k < |ps| ==> rs[k] == ps[k].reminder
  {
    seq(|ps|, k requires 0 <= k < |ps| => ps[k].reminder)
  }

  /** `split_map`: recipient phone to split, a later reminder to the same
      phone replacing the earlier one. */
  function Targets(ps: seq<Pending>): map<string, int> {
    if ps == [] then map[]
    else Targets(ps[..|ps| - 1])[ps[|ps| - 1].reminder.recipientPhone := ps[|ps| - 1].splitId]
  }

  /** `split_map` holds exactly the phones of the reminders, and each phone
      leads to the split of the LAST reminder sent to it. */
  lemma {:induction false} TargetsLastWins(ps: seq<Pending>)
    ensures forall phone :: phone in Targets(ps) <==> exists i :: 0 <= i < |ps| && ps[i].reminder.recipientPhone == phone
    ensures forall phone :: phone in Targets(ps) ==>
              exists i :: 0 <= i < |ps| && ps[i].reminder.recipientPhone == phone && Targets(ps)[phone] == ps[i].splitId &&
                forall j :: i < j < |ps| ==> ps[j].reminder.recipientPhone != phone
  {
    if ps != [] {
      var p, last := ps[..|ps| - 1], ps[|ps| - 1];
      TargetsLastWins(p);
      assert forall i :: 0 <= i < |p| ==> p[i] == ps[i];
      var before, t := Targets(p), Targets(ps);
      assert t == before[last.reminder.recipientPhone := last.splitId];
      forall phone | phone in t
        ensures exists i :: 0 <= i < |ps| && ps[i].reminder.recipientPhone == phone && t[phone] == ps[i].splitId &&
                  forall j :: i < j < |ps| ==> ps[j].reminder.recipientPhone != phone
      {
        if phone == last.reminder.recipientPhone {
          assert ps[|ps| - 1] == last;
        } else {
          var i :| 0 <= i < |p| && p[i].reminder.recipientPhone == phone && before[phone] == p[i].splitId &&
                   forall j :: i < j < |p| ==> p[j].reminder.recipientPhone != phone;
          assert ps[i] == p[i];
        }
      }
    }
  }

  /** The table after one split is reminded: the row with that id. */
  function MarkById(rows: seq<Split>, id: int, sid: Option<string>, now: int): (r: seq<Split>)
    ensures |r| == |rows|
    ensures forall i :: 0 <= i < |rows| ==> r[i] == if rows[i].id == id then Reminded(rows[i], sid, now) else rows[i]
  {
    seq(|rows|, i requires 0 <= i < |rows| => if rows[i].id == id then Reminded(rows[i], sid, now) else rows[i])
  }

  /** Result `res` is a delivered reminder whose split (through `target`) is `id`. */
  predicate SentTo(res: SmsResult, target: map<string, int>, id: int) {
    res.status == Sent && res.recipient in target && target[res.recipient] == id
  }

  /** The table after the result loop of send-all: every "sent" result whose
      recipient is in `target` marks that split; other results do nothing.
      Only the reminder columns change, and only rows whose id is a target. */
  function ApplyResults(rows: seq<Split>, results: seq<SmsResult>, target: map<string, int>, now: int): (r: seq<Split>)
    ensures |r| == |rows|
    ensures forall i :: 0 <= i < |rows| ==> SameExceptReminder(r[i], rows[i])
    ensures forall i :: 0 <= i < |rows| && rows[i].id !in target.Values ==> r[i] == rows[i]
  {
    if results == [] then rows
    else
      var prev := ApplyResults(rows, results[..|results| - 1], target, now);
      var res := results[|results| - 1];
      if res.status == Sent && res.recipient in target then
        assert target[res.recipient] in target.Values;
        MarkById(prev, target[res.recipient], res.messageSid, now)
      else prev
  }

  // ---------------------------------------------------------------------
  // The loops of send-all

  /** The selection loop of `send_all_reminders_for_order` (splits.py:137-169):
      the reminders and the `split_map` it builds. */
  method CollectReminders(rows: seq<Split>, users: map<int, User>, table: seq<Item>,
                          order: OrderRow, payer: User)
    returns (reminders: seq<Reminder>, splitMap: map<string, int>)
    ensures reminders == Reminders(PendingOf(rows, users, table, order, payer))
    ensures splitMap == Targets(PendingOf(rows, users, table, order, payer))
  {
    reminders := [];
    splitMap := map[];
    ghost var pending: seq<Pending> := [];
    for i := 0 to |rows|
      invariant pending == PendingOf(rows[..i], users, table, order, payer)
      invariant reminders == Reminders(pending)
      invariant splitMap == Targets(pending)
    {
      var s := rows[i];
      PendingSnoc(rows, i, users, table, order, payer);
      if s.paidStatus {
        continue;
      }
      if s.userId !in users {
        continue;
      }
      var user := users[s.userId];
      var itemNames := ItemNames(table, s.itemIds);
      var recipientPhone := if Truthy(user.whatsappNumber) then user.whatsappNumber.value else user.phone;
      var paymentMethod := if Truthy(payer.paymentHandle) then payer.paymentHandle.value else "Venmo/Zelle/Cash";
      var reminder := Reminder(user.name, recipientPhone, payer.name, order.restaurant, s.amountOwed,
                               itemNames, paymentMethod);
      assert reminder == ReminderFor(s, user, order, payer, table);
      PendingAppend(pending, Pending(reminder, s.id));
      pending := pending + [Pending(reminder, s.id)];
      reminders := reminders + [reminder];
      splitMap := splitMap[recipientPhone := s.id];
    }
    assert rows[..|rows|] == rows;
  }

  lemma PendingSnoc(rows: seq<Split>, i: int, users: map<int, User>, table: seq<Item>, order: OrderRow, payer: User)
    requires 0 <= i < |rows|
    ensures PendingOf(rows[..i + 1], users, table, order, payer) ==
            if rows[i].paidStatus || rows[i].userId !in users then PendingOf(rows[..i], users, table, order, payer)
            else PendingOf(rows[..i], users, table, order, payer) +
                 [Pending(ReminderFor(rows[i], users[rows[i].userId], order, payer, table), rows[i].id)]
  {
    assert rows[..i + 1][..i] == rows[..i];
  }

  lemma PendingAppend(ps: seq<Pending>, p: Pending)
    ensures Reminders(ps + [p]) == Reminders(ps) + [p.reminder]
    ensures Targets(ps + [p]) == Targets(ps)[p.reminder.recipientPhone := p.splitId]
  {
    assert (ps + [p])[..|ps|] == ps;
  }

  /** The result loop of `send_all_reminders_for_order` (splits.py:181-187). */
  method ApplyDeliveries(rows: seq<Split>, results: seq<SmsResult>, target: map<string, int>, now: int)
    returns (updated: seq<Split>)
    ensures updated == ApplyResults(rows, results, target, now)
  {
    updated := rows;
    for k := 0 to |results|
      invariant updated == ApplyResults(rows, results[..k], target, now)
    {
      var res := results[k];
      assert results[..k + 1][..k] == results[..k];
      if res.status == Sent && res.recipient in target {
        var splitId := target[res.recipient];
        updated := MarkById(updated, splitId, res.messageSid, now);
      }
    }
    assert results[..|results|] == results;
  }

  // ---------------------------------------------------------------------
  // What send-all selects and marks

  /** The reminders are exactly one per unpaid split whose user exists, built
      from that split, its user and the payer; paid splits and splits of
      missing users get none. */
  lemma {:induction false} PendingSelection(rows: seq<Split>, users: map<int, User>, table: seq<Item>,
                                            order: OrderRow, payer: User)
    ensures forall p :: p in PendingOf(rows, users, table, order, payer) ==>
              exists s :: s in rows && !s.paidStatus && s.userId in users && p.splitId == s.id &&
                p.reminder == ReminderFor(s, users[s.userId], order, payer, table)
    ensures forall s :: s in rows && !s.paidStatus && s.userId in users ==>
              Pending(ReminderFor(s, users[s.userId], order, payer, table), s.id) in PendingOf(rows, users, table, order, payer)
  {
    if rows != [] {
      var p := rows[..|rows| - 1];
      assert rows == p + [rows[|rows| - 1]];
      PendingSelection(p, users, table, order, payer);
    }
  }

  /** A row is marked as reminded after the result loop exactly when it was
      already, or some "sent" result's recipient leads to it. */
  lemma {:induction false} ApplyResultsMarks(rows: seq<Split>, results: seq<SmsResult>, target: map<string, int>, now: int)
    ensures forall i :: 0 <= i < |rows| ==>
              (ApplyResults(rows, results, target, now)[i].reminderSent <==>
                 rows[i].reminderSent || exists k :: 0 <= k < |results| && SentTo(results[k], target, rows[i].id))
  {
    if results != [] {
      var p := results[..|results| - 1];
      var res := results[|results| - 1];
      ApplyResultsMarks(rows, p, target, now);
      forall i | 0 <= i < |rows|
        ensures ApplyResults(rows, results, target, now)[i].reminderSent <==>
                  rows[i].reminderSent || exists k :: 0 <= k < |results| && SentTo(results[k], target, rows[i].id)
      {
        if exists k :: 0 <= k < |p| && SentTo(p[k], target, rows[i].id) {
          var k :| 0 <= k < |p| && SentTo(p[k], target, rows[i].id);
          assert results[k] == p[k];
        }
        if exists k :: 0 <= k < |results| && SentTo(results[k], target, rows[i].id) {
          var k :| 0 <= k < |results| && SentTo(results[k], target, rows[i].id);
          if k < |p| {
            assert p[k] == results[k];
          }
        }
      }
    }
  }

  /** Every split that `split_map` leads to is an unpaid split of `rows`. */
  lemma TargetsAreUnpaid(rows: seq<Split>, users: map<int, User>, table: seq<Item>, order: OrderRow, payer: User)
    ensures forall id :: id in Targets(PendingOf(rows, users, table, order, payer)).Values ==>
              exists s :: s in rows && s.id == id && !s.paidStatus
  {
    var ps := PendingOf(rows, users, table, order, payer);
    PendingSelection(rows, users, table, order, payer);
    TargetsLastWins(ps);
    forall id | id in Targets(ps).Values
      ensures exists s :: s in rows && s.id == id && !s.paidStatus
    {
      var phone :| phone in Targets(ps) && Targets(ps)[phone] == id;
      var i :| 0 <= i < |ps| && ps[i].reminder.recipientPhone == phone && Targets(ps)[phone] == ps[i].splitId &&
               forall j :: i < j < |ps| ==> ps[j].reminder.recipientPhone != phone;
      assert ps[i] in ps;
    }
  }

  // ---------------------------------------------------------------------
  // The split table

  /** Split ids grow along the table (rows are kept in insertion order). */
  predicate IdsIncreasing(rows: seq<Split>) {
    forall i, j :: 0 <= i < j < |rows| ==> rows[i].id < rows[j].id
  }

  predicate IdsBelow(rows: seq<Split>, bound: int) {
    forall s :: s in rows ==> s.id < bound
  }

  lemma {:induction false} WithoutOrderIncreasing(rows: seq<Split>, orderId: int)
    requires IdsIncreasing(rows)
    ensures IdsIncreasing(WithoutOrder(rows, orderId))
  {
    if rows != [] {
      var p, last := rows[..|rows| - 1], rows[|rows| - 1];
      WithoutOrderIncreasing(p, orderId);
      assert IdsBelow(p, last.id) by {
        forall s | s in p ensures s.id < last.id {
          var i :| 0 <= i < |p| && p[i] == s;
          assert rows[i] == s;
        }
      }
      AppendIncreasing(WithoutOrder(p, orderId), if last.orderId != orderId then [last] else []);
    }
  }

  lemma AppendIncreasing(a: seq<Split>, b: seq<Split>)
    requires IdsIncreasing(a) && IdsIncreasing(b)
    requires forall s, t :: s in a && t in b ==> s.id < t.id
    ensures IdsIncreasing(a + b)
  {
    forall i, j | 0 <= i < j < |a + b| ensures (a + b)[i].id < (a + b)[j].id {
      if j < |a| {
        assert (a + b)[i] == a[i] && (a + b)[j] == a[j];
      } else if i >= |a| {
        assert (a + b)[i] == b[i - |a|] && (a + b)[j] == b[j - |a|];
      } else {
        assert (a + b)[i] in a && (a + b)[j] in b;
      }
    }
  }

  /** With increasing ids, two different rows have different ids. */
  lemma DistinctRowsDistinctIds(rows: seq<Split>, i: int, s: Split)
    requires IdsIncreasing(rows) && 0 <= i < |rows|
    requires s in rows && s != rows[i]
    ensures s.id != rows[i].id
  {
    var j :| 0 <= j < |rows| && rows[j] == s;
    assert i != j;
  }

  /** Rewriting rows without touching their ids keeps the id invariant. */
  lemma SameIdsValid(a: seq<Split>, b: seq<Split>, bound: int)
    requires |a| == |b| && forall i :: 0 <= i < |a| ==> a[i].id == b[i].id
    requires IdsIncreasing(a) && IdsBelow(a, bound)
    ensures IdsIncreasing(b) && IdsBelow(b, bound)
  {
    forall t | t in b ensures t.id < bound {
      var i :| 0 <= i < |b| && b[i] == t;
      assert a[i] in a;
    }
  }

  /** Deleting an order's rows and appending rows with fresh consecutive ids
      keeps the id invariant. */
  lemma BulkKeepsValid(rows: seq<Split>, orderId: int, created: seq<Split>, firstId: int)
    requires IdsIncreasing(rows) && IdsBelow(rows, firstId)
    requires forall k :: 0 <= k < |created| ==> created[k].id == firstId + k
    ensures IdsIncreasing(WithoutOrder(rows, orderId) + created)
    ensures IdsBelow(WithoutOrder(rows, orderId) + created, firstId + |created|)
  {
    var kept := WithoutOrder(rows, orderId);
    WithoutOrderIncreasing(rows, orderId);
    forall s, t | s in kept && t in created ensures s.id < t.id {
      var k :| 0 <= k < |created| && created[k] == t;
    }
    AppendIncreasing(kept, created);
    assert IdsBelow(created, firstId + |created|) by {
      forall t | t in created ensures t.id < firstId + |created| {
        var k :| 0 <= k < |created| && created[k] == t;
      }
    }
    assert IdsBelow(kept, firstId);
  }

  /** Send-all never targets a paid split or a split of another order. */
  lemma UntouchedBySendAll(table: seq<Split>, orderId: int, users: map<int, User>, items: seq<Item>,
                           order: OrderRow, payer: User)
    requires IdsIncreasing(table)
    ensures forall i :: 0 <= i < |table| && (table[i].paidStatus || table[i].orderId != orderId) ==>
              table[i].id !in Targets(PendingOf(SplitsOf(table, orderId), users, items, order, payer)).Values
  {
    var rows := SplitsOf(table, orderId);
    TargetsAreUnpaid(rows, users, items, order, payer);
    forall i | 0 <= i < |table| && (table[i].paidStatus || table[i].orderId != orderId)
      ensures table[i].id !in Targets(PendingOf(rows, users, items, order, payer)).Values
    {
      forall s | s in rows && !s.paidStatus ensures s.id != table[i].id {
        DistinctRowsDistinctIds(table, i, s);
      }
    }
  }

  /** The response of `send_reminder_for_split`. */
  datatype ReminderResponse = ReminderResponse(splitId: int, smsResult: SmsResult, split: Split)

  /** The message of send-all: the fixed text when nothing was sent, else
      "Sent {n} reminders". */
  datatype BulkMessage = NothingToSend | SentCount(count: nat)

  datatype BulkResponse = BulkResponse(message: BulkMessage, results: seq<SmsResult>)

  /** The tables the router works on: orders by id, the item table, users by
      id, the split table in insertion order, and the next split id the
      database will hand out. */
  class SplitStore {
    var orders: map<int, OrderRow>
    var items: seq<Item>
    var users: map<int, User>
    var splits: seq<Split>
    var nextSplitId: int

    predicate Valid()
      reads this
    {
      IdsIncreasing(splits) && IdsBelow(splits, nextSplitId)
    }

    constructor(orders: map<int, OrderRow>, items: seq<Item>, users: map<int, User>)
      ensures Valid()
      ensures this.orders == orders && this.items == items && this.users == users
      ensures splits == [] && nextSplitId == 1
    {
      this.orders := orders;
      this.items := items;
      this.users := users;
      splits := [];
      nextSplitId := 1;
    }

    /** `PUT /splits/{split_id}/paid` (splits.py:41-51). */
    method MarkSplitPaid(splitId: int, paid: bool) returns (r: Result<Split>)
      requires Valid()
      modifies this
      ensures Valid()
      ensures orders == old(orders) && items == old(items) && users == old(users) && nextSplitId == old(nextSplitId)
      ensures FindSplit(old(splits), splitId).None? ==>
                r == Err(HttpError(404, "Split not found")) && splits == old(splits)
      ensures FindSplit(old(splits), splitId).Some? ==>
                var k := FindSplit(old(splits), splitId).value;
                splits == old(splits)[k := old(splits)[k].(paidStatus := paid)] && r == Ok(splits[k])
    {
      var found := FindSplit(splits, splitId);
      if found.None? {
        return Err(HttpError(404, "Split not found"));
      }
      var k := found.value;
      splits := splits[k := splits[k].(paidStatus := paid)];
      assert forall i :: 0 <= i < |splits| ==> splits[i].id == old(splits)[i].id;
      assert forall s :: s in splits ==> exists i :: 0 <= i < |splits| && splits[i] == s;
      r := Ok(splits[k]);
    }

    /** `POST /splits/{split_id}/send-reminder` (splits.py:54-112). */
    method SendReminderForSplit(splitId: int, send: Reminder -> Delivery, now: int)
      returns (r: Result<ReminderResponse>)
      requires Valid()
      modifies this
      ensures Valid()
      ensures orders == old(orders) && items == old(items) && users == old(users) && nextSplitId == old(nextSplitId)
      ensures FindSplit(old(splits), splitId).None? ==>
                r == Err(HttpError(404, "Split not found")) && splits == old(splits)
      ensures FindSplit(old(splits), splitId).Some? ==>
                var k := FindSplit(old(splits), splitId).value;
                var s := old(splits)[k];
                (s.userId !in users ==> r == Err(HttpError(404, "User not found")) && splits == old(splits)) &&
                (s.userId in users && s.orderId !in orders ==>
                   r == Err(HttpError(404, "Order not found")) && splits == old(splits)) &&
                (s.userId in users && s.orderId in orders && orders[s.orderId].paidByUserId !in users ==>
                   r == Err(HttpError(404, "Payer not found")) && splits == old(splits)) &&
                (s.userId in users && s.orderId in orders && orders[s.orderId].paidByUserId in users ==>
                   var order := orders[s.orderId];
                   var res := Deliver(send, ReminderFor(s, users[s.userId], order, users[order.paidByUserId], items));
                   splits == (if res.status == Sent then old(splits)[k := Reminded(s, res.messageSid, now)] else old(splits)) &&
                   r == Ok(ReminderResponse(splitId, res, splits[k])))
    {
      var found := FindSplit(splits, splitId);
      if found.None? {
        return Err(HttpError(404, "Split not found"));
      }
      var k := found.value;
      var split := splits[k];
      if split.userId !in users {
        return Err(HttpError(404, "User not found"));
      }
      var user := users[split.userId];
      if split.orderId !in orders {
        return Err(HttpError(404, "Order not found"));
      }
      var order := orders[split.orderId];
      if order.paidByUserId !in users {
        return Err(HttpError(404, "Payer not found"));
      }
      var payer := users[order.paidByUserId];
      var itemNames := ItemNames(items, split.itemIds);
      var recipientPhone := if Truthy(user.whatsappNumber) then user.whatsappNumber.value else user.phone;
      var paymentMethod := if Truthy(payer.paymentHandle) then payer.paymentHandle.value else "Venmo/Zelle/Cash";
      var reminder := Reminder(user.name, recipientPhone, payer.name, order.restaurant, split.amountOwed,
                               itemNames, paymentMethod);
      assert reminder == ReminderFor(split, user, order, payer, items);
      var result := Deliver(send, reminder);
      if result.status == Sent {
        var updated := splits[k := Reminded(split, result.messageSid, now)];
        assert forall i :: 0 <= i < |splits| ==> updated[i].id == splits[i].id;
        SameIdsValid(splits, updated, nextSplitId);
        splits := updated;
      }
      r := Ok(ReminderResponse(splitId, result, splits[k]));
    }

    /** `POST /splits/order/{order_id}/send-all-reminders` (splits.py:115-194).
        Paid splits and splits of other orders are never touched, and no
        row changes outside its reminder columns. */
    method SendAllReminders(orderId: int, send: Reminder -> Delivery, now: int)
      returns (r: Result<BulkResponse>)
      requires Valid()
      modifies this
      ensures Valid()
      ensures orders == old(orders) && items == old(items) && users == old(users) && nextSplitId == old(nextSplitId)
      ensures orderId !in orders ==> r == Err(HttpError(404, "Order not found")) && splits == old(splits)
      ensures orderId in orders && orders[orderId].paidByUserId !in users ==>
                r == Err(HttpError(404, "Payer not found")) && splits == old(splits)
      ensures orderId in orders && orders[orderId].paidByUserId in users && SplitsOf(old(splits), orderId) == [] ==>
                r == Err(HttpError(404, "No splits found for this order")) && splits == old(splits)
      ensures orderId in orders && orders[orderId].paidByUserId in users && SplitsOf(old(splits), orderId) != [] ==>
                var order := orders[orderId];
                var ps := PendingOf(SplitsOf(old(splits), orderId), users, items, order, users[order.paidByUserId]);
                (ps == [] ==> r == Ok(BulkResponse(NothingToSend, [])) && splits == old(splits)) &&
                (ps != [] ==>
                   var results := Deliveries(send, Reminders(ps));
                   r == Ok(BulkResponse(SentCount(|results|), results)) &&
                   splits == ApplyResults(old(splits), results, Targets(ps), now))
      ensures |splits| == |old(splits)|
      ensures forall i :: 0 <= i < |splits| ==> SameExceptReminder(splits[i], old(splits)[i])
      ensures forall i :: 0 <= i < |splits| && (old(splits)[i].paidStatus || old(splits)[i].orderId != orderId) ==>
                splits[i] == old(splits)[i]
    {
      if orderId !in orders {
        return Err(HttpError(404, "Order not found"));
      }
      var order := orders[orderId];
      if order.paidByUserId !in users {
        return Err(HttpError(404, "Payer not found"));
      }
      var payer := users[order.paidByUserId];
      var rows := SplitsOf(splits, orderId);
      if rows == [] {
        return Err(HttpError(404, "No splits found for this order"));
      }
      var reminders, splitMap := CollectReminders(rows, users, items, order, payer);
      if reminders == [] {
        return Ok(BulkResponse(NothingToSend, []));
      }
      var results := Deliveries(send, reminders);
      UntouchedBySendAll(splits, orderId, users, items, order, payer);
      var updated := ApplyDeliveries(splits, results, splitMap, now);
      SameIdsValid(splits, updated, nextSplitId);
      splits := updated;
      r := Ok(BulkResponse(SentCount(|results|), results));
    }

    /** `POST /splits/bulk` (splits.py:197-252). A missing order fails with
        404 before anything changes; otherwise the order's old splits are
        deleted (and committed) first, a request with no valid assignment then
        fails with 400, and a valid one appends one new split per credited user
        that exists. */
    method CreateBulkSplits(orderId: int, assignments: seq<Assignment>, roundCents: real -> real)
      returns (r: Result<seq<Split>>)
      requires Valid()
      modifies this
      ensures Valid()
      ensures orders == old(orders) && items == old(items) && users == old(users)
      ensures orderId !in orders ==>
                r == Err(HttpError(404, "Order not found")) && splits == old(splits) && nextSplitId == old(nextSplitId)
      ensures orderId in orders ==>
                var t := Allocate(ItemMap(ItemsOfOrder(items, orderId)), assignments);
                (t.subtotals.keys == [] ==>
                   r == Err(HttpError(400, "No valid assignments provided")) &&
                   splits == WithoutOrder(old(splits), orderId) && nextSplitId == old(nextSplitId)) &&
                (t.subtotals.keys != [] ==>
                   var created := CreatedSplits(orderId, t, users, OrderFees(orders[orderId]), old(nextSplitId), roundCents);
                   r == Ok(created) &&
                   splits == WithoutOrder(old(splits), orderId) + created &&
                   nextSplitId == old(nextSplitId) + |created|)
    {
      if orderId !in orders {
        return Err(HttpError(404, "Order not found"));
      }
      var order := orders[orderId];
      WithoutOrderIncreasing(splits, orderId);
      var kept := WithoutOrder(splits, orderId);
      splits := kept;
      var itemMap := ItemMap(ItemsOfOrder(items, orderId));
      var userSubtotals, userItemIds := AccumulateAssignments(itemMap, assignments);
      if userSubtotals.keys == [] {
        return Err(HttpError(400, "No valid assignments provided"));
      }
      var fees := OrZero(order.tax) + OrZero(order.deliveryFee) + OrZero(order.tip) - OrZero(order.discount);
      var t := Tally(userSubtotals, userItemIds);
      assert t == Allocate(itemMap, assignments);
      assert fees == OrderFees(orders[orderId]);
      var created := BuildSplits(orderId, t, users, fees, nextSplitId, roundCents);
      assert forall k :: 0 <= k < |created| ==> created[k].id == nextSplitId + k;
      BulkKeepsValid(old(splits), orderId, created, nextSplitId);
      splits := kept + created;
      nextSplitId := nextSplitId + |created|;
      r := Ok(created);
    }
  }
}
