/** The four-step page that strings the screens together: upload a receipt,
    review it and pick the payer, assign the items, send the reminders. */
module Wizard {
  import opened Domain

  // ---------------------------------------------------------------------
  // The step indicator

  /** `STEPS` (page.tsx:12-17). */
  const StepLabels: seq<string> := ["Upload", "Review", "Assign", "Send"]

  /** How a step is drawn: done (green, with a tick), the current one
      (blue), or still ahead (grey). */
  datatype StepStatus = Done | Current | Ahead

  /** `StepIndicator`'s choice of colour for step `number` (lines 27-31, 34). */
  function StatusOf(number: int, current: int): (s: StepStatus)
    ensures s == Done <==> number < current
    ensures s == Current <==> number == current
  {
    if number < current then Done
    else if number == current then Current
    else Ahead
  }

  /** The connector after a step is green exactly when the step is done
      (line 57). */
  function ConnectorGreen(number: int, current: int): (green: bool)
    ensures green <==> StatusOf(number, current) == Done
  {
    number < current
  }

  /** The statuses of the four steps, left to right. */
  function Indicator(current: int): (r: seq<StepStatus>)
    ensures |r| == |StepLabels|
    ensures forall k :: 0 <= k < |r| ==> r[k] == StatusOf(k + 1, current)
  {
    [StatusOf(1, current), StatusOf(2, current), StatusOf(3, current), StatusOf(4, current)]
  }

  /** On every page the indicator shows exactly one current step, with the
      steps before it done and the ones after it ahead. */
  lemma IndicatorShape(current: int)
    requires 1 <= current <= 4
    ensures Indicator(current)[current - 1] == Current
    ensures multiset(Indicator(current))[Current] == 1
    ensures multiset(Indicator(current))[Done] == current - 1
    ensures multiset(Indicator(current))[Ahead] == 4 - current
  {
    var r := Indicator(current);
    if current == 1 {
      assert r == [Current, Ahead, Ahead, Ahead];
    } else if current == 2 {
      assert r == [Done, Current, Ahead, Ahead];
    } else if current == 3 {
      assert r == [Done, Done, Current, Ahead];
    } else {
      assert r == [Done, Done, Done, Current];
    }
  }

  // ---------------------------------------------------------------------
  // The order request

  /** The body of `POST /api/orders/` built at lines 104-120. */
  datatype OrderPayload = OrderPayload(
    restaurant: string, total: real,
    subtotal: Option<real>, tax: Option<real>, deliveryFee: Option<real>, tip: Option<real>,
    discount: real, paidByUserId: int,
    imageUrl: Option<string>, ocrRawText: Option<string>,
    items: seq<ReceiptLine>)

  /** `s || null` on a string: the empty string is sent as null. */
  function OrNull(s: string): (r: Option<string>)
    ensures r.None? <==> s == ""
    ensures r.Some? ==> r.value == s
  {
    if s == "" then None else Some(s)
  }

  function BuildOrderPayload(data: ReceiptData, payerId: int, imageUrl: string, ocrText: string): (p: OrderPayload)
    ensures p.restaurant == data.restaurant && p.total == data.total && p.paidByUserId == payerId
    ensures p.subtotal == data.subtotal && p.tax == data.tax && p.deliveryFee == data.deliveryFee && p.tip == data.tip
    ensures p.discount == OrZero(data.discount)
    ensures p.imageUrl == OrNull(imageUrl) && p.ocrRawText == OrNull(ocrText)
    ensures p.items == data.items
  {
    OrderPayload(data.restaurant, data.total, data.subtotal, data.tax, data.deliveryFee, data.tip,
                 if data.discount.Some? then data.discount.value else 0.0,
                 payerId, OrNull(imageUrl), OrNull(ocrText),
                 seq(|data.items|, k requires 0 <= k < |data.items| =>
                   ReceiptLine(data.items[k].name, data.items[k].quantity, data.items[k].price)))
  }

  /** Sending a missing discount as 0 does not change the fees the split
      step later spreads over the people: they are the receipt's own net
      fees. */
  lemma PayloadKeepsFees(data: ReceiptData, payerId: int, imageUrl: string, ocrText: string)
    ensures var p := BuildOrderPayload(data, payerId, imageUrl, ocrText);
      NetFees(p.tax, p.deliveryFee, p.tip, Some(p.discount)) ==
      NetFees(data.tax, data.deliveryFee, data.tip, data.discount)
  {
  }

  // ---------------------------------------------------------------------
  // The page

  /** How the order request ends. */
  datatype OrderOutcome =
    | Saved(order: Order)                // 2xx with the stored order
    | Rejected(detail: Option<string>)   // an error status; `detail` from its body
    | Threw(message: Option<string>)     // something threw: an `Error` and its message, or another value

  /** The screen under the indicator (lines 171-205). */
  datatype Screen =
    | UploadScreen
    | ReviewScreen(data: ReceiptData)
    | AssignScreen(order: Order)
    | SendScreen(order: Order, splits: seq<Split>)
    | NoScreen

  class Home {
    var step: int
    var users: seq<User>
    var parsedData: Option<ReceiptData>
    var ocrText: string
    var imageUrl: string
    var order: Option<Order>
    var savingOrder: bool
    var splits: seq<Split>

    /** Each step has what its screen needs. */
    predicate Valid()
      reads this
    {
      1 <= step <= 4 &&
      (step == 2 ==> parsedData.Some?) &&
      (step >= 3 ==> order.Some?)
    }

    /** What the page renders under the indicator. */
    function Shown(): (s: Screen)
      reads this
      ensures Valid() ==> !s.NoScreen?
      ensures Valid() ==> (s.UploadScreen? <==> step == 1) && (s.ReviewScreen? <==> step == 2) &&
                          (s.AssignScreen? <==> step == 3) && (s.SendScreen? <==> step == 4)
    {
      if step == 1 then UploadScreen
      else if step == 2 && parsedData.Some? then ReviewScreen(parsedData.value)
      else if step == 3 && order.Some? then AssignScreen(order.value)
      else if step == 4 && order.Some? then SendScreen(order.value, splits)
      else NoScreen
    }

    /** The state of lines 68-81. */
    constructor()
      ensures Valid() && step == 1 && users == [] && parsedData == None
      ensures ocrText == "" && imageUrl == "" && order == None && !savingOrder && splits == []
    {
      step := 1;
      users := [];
      parsedData := None;
      ocrText := "";
      imageUrl := "";
      order := None;
      savingOrder := false;
      splits := [];
    }

    /** The user list fetched on mount (lines 83-88); a failed fetch is
        ignored. */
    method LoadUsers(fetched: Option<seq<User>>)
      requires Valid()
      modifies this
      ensures Valid()
      ensures users == (if fetched.Some? then fetched.value else old(users))
      ensures step == old(step) && parsedData == old(parsedData) && order == old(order)
      ensures ocrText == old(ocrText) && imageUrl == old(imageUrl)
      ensures savingOrder == old(savingOrder) && splits == old(splits)
    {
      if fetched.Some? {
        users := fetched.value;
      }
    }

    /** `handleUploadComplete` (lines 90-99). */
    method HandleUploadComplete(data: ReceiptData, ocrRawText: string, image: string)
      requires Valid()
      modifies this
      ensures Valid() && step == 2
      ensures parsedData == Some(data) && ocrText == ocrRawText && imageUrl == image
      ensures users == old(users) && order == old(order)
      ensures savingOrder == old(savingOrder) && splits == old(splits)
    {
      parsedData := Some(data);
      ocrText := ocrRawText;
      imageUrl := image;
      step := 2;
    }

    /** `onEdit` (line 183): the review screen's saved edits replace the
        parsed data. */
    method OnEdit(updated: ReceiptData)
      requires Valid()
      modifies this
      ensures Valid() && parsedData == Some(updated)
      ensures step == old(step) && users == old(users) && order == old(order)
      ensures ocrText == old(ocrText) && imageUrl == old(imageUrl)
      ensures savingOrder == old(savingOrder) && splits == old(splits)
    {
      parsedData := Some(updated);
    }

    /** `handleSaveOrder` (lines 101-141), from the click to the `finally`:
        returns the request it sends and the alert it raises, if any. Only
        a stored order moves the page on. */
    method HandleSaveOrder(data: ReceiptData, payerId: int, outcome: OrderOutcome)
      returns (request: OrderPayload, alert: Option<string>)
      requires Valid()
      modifies this
      ensures Valid() && !savingOrder
      ensures request == BuildOrderPayload(data, payerId, old(imageUrl), old(ocrText))
      ensures outcome.Saved? ==> alert == None && order == Some(outcome.order) && step == 3
      ensures !outcome.Saved? ==> order == old(order) && step == old(step)
      ensures outcome.Rejected? ==>
                alert == Some(if Truthy(outcome.detail) then outcome.detail.value else "Failed to save order")
      ensures outcome.Threw? ==>
                alert == Some(if outcome.message.Some? then outcome.message.value else "Failed to save order")
      ensures users == old(users) && parsedData == old(parsedData) && splits == old(splits)
      ensures ocrText == old(ocrText) && imageUrl == old(imageUrl)
    {
      savingOrder := true;
      request := BuildOrderPayload(data, payerId, imageUrl, ocrText);
      alert := None;
      match outcome {
        case Saved(o) =>
          order := Some(o);
          step := 3;
        case Rejected(detail) =>
          alert := Some(if Truthy(detail) then detail.value else "Failed to save order");
        case Threw(message) =>
          alert := Some(if message.Some? then message.value else "Failed to save order");
      }
      savingOrder := false;
    }

    /** `handleSaveSplits` (lines 143-146), called by the assignment screen,
        which is only shown once an order is stored. */
    method HandleSaveSplits(newSplits: seq<Split>)
      requires Valid() && order.Some?
      modifies this
      ensures Valid() && step == 4 && splits == newSplits
      ensures users == old(users) && parsedData == old(parsedData) && order == old(order)
      ensures ocrText == old(ocrText) && imageUrl == old(imageUrl) && savingOrder == old(savingOrder)
    {
      splits := newSplits;
      step := 4;
    }

    /** `handleDone` (lines 148-155): back to an empty first step; only the
        user list is kept. */
    method HandleDone()
      requires Valid()
      modifies this
      ensures Valid() && step == 1 && parsedData == None && order == None && splits == []
      ensures ocrText == "" && imageUrl == ""
      ensures users == old(users) && savingOrder == old(savingOrder)
    {
      step := 1;
      parsedData := None;
      ocrText := "";
      imageUrl := "";
      order := None;
      splits := [];
    }
  }
}
