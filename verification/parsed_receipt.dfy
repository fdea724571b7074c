/** The review screen for a parsed receipt: the user may correct the lines
    and amounts the language model read, then picks who paid and saves the
    order. */
module ParsedReceipt {
  import opened Domain

  // ---------------------------------------------------------------------
  // Editing the lines

  /** The field of one line an input changes, with the value it writes. */
  datatype LineEdit =
    | SetName(name: string)
    | SetQuantity(quantity: int)
    | SetPrice(price: real)

  /** `{ ...line, [field]: value }`: the one field changes, the other two
      are kept. */
  function WithEdit(line: ReceiptLine, e: LineEdit): (r: ReceiptLine)
    ensures r.name == (if e.SetName? then e.name else line.name)
    ensures r.quantity == (if e.SetQuantity? then e.quantity else line.quantity)
    ensures r.price == (if e.SetPrice? then e.price else line.price)
  {
    match e
    case SetName(n) => line.(name := n)
    case SetQuantity(q) => line.(quantity := q)
    case SetPrice(p) => line.(price := p)
  }

  /** `parseFloat(v) || 0`: a number that did not parse (`None`,
      JavaScript's `NaN`) or parsed as zero gives the fallback. */
  function NumberOr(parsed: Option<real>, fallback: real): (r: real)
    ensures parsed.Some? && parsed.value != 0.0 ==> r == parsed.value
    ensures parsed.None? || parsed.value == 0.0 ==> r == fallback
  {
    if parsed.Some? && parsed.value != 0.0 then parsed.value else fallback
  }

  /** `parseInt(v) || 1` on the quantity input: `parsed` is what `parseInt`
      read, the leading integer of the text (so "2.7" reads as 2 and "-3"
      as -3), or `None` for `NaN`. A zero or `NaN` gives the fallback, so
      with a non-zero fallback the result is never 0. */
  function IntOr(parsed: Option<int>, fallback: int): (r: int)
    ensures parsed.Some? && parsed.value != 0 ==> r == parsed.value
    ensures parsed.None? || parsed.value == 0 ==> r == fallback
    ensures fallback != 0 ==> r != 0
  {
    if parsed.Some? && parsed.value != 0 then parsed.value else fallback
  }

  /** The line `addItem` appends. */
  const BlankLine: ReceiptLine := ReceiptLine("", 1, 0.0)

  /** `items.filter((_, i) => i !== index)`, one position at a time. */
  function WithoutIndex(s: seq<ReceiptLine>, index: int): (r: seq<ReceiptLine>)
    ensures |r| <= |s|
  {
    if s == [] then []
    else WithoutIndex(s[..|s| - 1], index) + (if |s| - 1 == index then [] else [s[|s| - 1]])
  }

  /** Filtering out a position removes exactly that line when it exists,
      and nothing when it does not. */
  lemma {:induction false} WithoutIndexMeaning(s: seq<ReceiptLine>, index: int)
    ensures 0 <= index < |s| ==> WithoutIndex(s, index) == s[..index] + s[index + 1..]
    ensures !(0 <= index < |s|) ==> WithoutIndex(s, index) == s
  {
    if s != [] {
      var p, last := s[..|s| - 1], s[|s| - 1];
      WithoutIndexMeaning(p, index);
      if 0 <= index < |p| {
        assert WithoutIndex(s, index) == WithoutIndex(p, index) + [last];
        assert p[..index] == s[..index];
        assert p[index + 1..] + [last] == s[index + 1..];
        assert (p[..index] + p[index + 1..]) + [last] == p[..index] + (p[index + 1..] + [last]);
      } else if index == |p| {
        assert WithoutIndex(s, index) == WithoutIndex(p, index);
        assert s[..index] == p;
        assert s[index + 1..] == [];
      } else {
        assert WithoutIndex(s, index) == WithoutIndex(p, index) + [last];
        assert p + [last] == s;
      }
    }
  }

  /** Removing the line just added gives back the lines before it. */
  lemma AddThenRemove(s: seq<ReceiptLine>)
    ensures WithoutIndex(s + [BlankLine], |s|) == s
  {
    WithoutIndexMeaning(s + [BlankLine], |s|);
    assert (s + [BlankLine])[..|s|] == s;
  }

  /** The amounts of the fees table (ParsedReceipt.tsx:221-227). */
  datatype FeeKey = Subtotal | Tax | DeliveryFee | Tip | Discount

  /** `{ ...data, [key]: value }` for a fee key. */
  function WithFee(data: ReceiptData, key: FeeKey, value: real): (r: ReceiptData)
    ensures r.restaurant == data.restaurant && r.items == data.items && r.total == data.total
    ensures r.subtotal == (if key == Subtotal then Some(value) else data.subtotal)
    ensures r.tax == (if key == Tax then Some(value) else data.tax)
    ensures r.deliveryFee == (if key == DeliveryFee then Some(value) else data.deliveryFee)
    ensures r.tip == (if key == Tip then Some(value) else data.tip)
    ensures r.discount == (if key == Discount then Some(value) else data.discount)
  {
    match key
    case Subtotal => data.(subtotal := Some(value))
    case Tax => data.(tax := Some(value))
    case DeliveryFee => data.(deliveryFee := Some(value))
    case Tip => data.(tip := Some(value))
    case Discount => data.(discount := Some(value))
  }

  // ---------------------------------------------------------------------
  // The component

  class ReceiptEditor {
    /** The `parsedData` prop; the page replaces it with what `onEdit`
        hands up (page.tsx:183). */
    var parsedData: ReceiptData
    var isEditing: bool
    var editedData: ReceiptData
    /** `payerId`: `""` until a user is picked. */
    var payerId: Option<int>
    var payerError: bool

    /** Outside edit mode the working copy is the saved data. */
    predicate Valid()
      reads this
    {
      !isEditing ==> editedData == parsedData
    }

    /** `displayData` (line 71). */
    function DisplayData(): (d: ReceiptData)
      reads this
      ensures Valid() ==> d == editedData
    {
      if isEditing then editedData else parsedData
    }

    /** The state of lines 25-29 on first render. */
    constructor(parsedData: ReceiptData)
      ensures Valid()
      ensures this.parsedData == parsedData && editedData == parsedData
      ensures !isEditing && payerId == None && !payerError
    {
      this.parsedData := parsedData;
      isEditing := false;
      editedData := parsedData;
      payerId := None;
      payerError := false;
    }

    /** The "Edit" button (line 87). */
    method StartEditing()
      requires Valid()
      modifies this
      ensures Valid() && isEditing
      ensures parsedData == old(parsedData) && editedData == old(editedData)
      ensures payerId == old(payerId) && payerError == old(payerError)
    {
      isEditing := true;
    }

    /** `handleSaveEdits` (lines 31-34): the working copy goes up through
        `onEdit` and becomes the saved data. */
    method HandleSaveEdits() returns (edited: ReceiptData)
      requires Valid()
      modifies this
      ensures Valid() && !isEditing
      ensures edited == old(editedData) && parsedData == edited && editedData == edited
      ensures payerId == old(payerId) && payerError == old(payerError)
    {
      edited := editedData;
      parsedData := edited;
      isEditing := false;
    }

    /** `handleCancelEdits` (lines 36-39): the working copy is thrown away. */
    method HandleCancelEdits()
      requires Valid()
      modifies this
      ensures Valid() && !isEditing
      ensures parsedData == old(parsedData) && editedData == parsedData
      ensures payerId == old(payerId) && payerError == old(payerError)
    {
      editedData := parsedData;
      isEditing := false;
    }

    /** `updateItem` (lines 41-45): line `index` gets one field changed,
        every other line and every other amount is kept. The inputs that
        call it exist only in edit mode, one per displayed line. */
    method UpdateItem(index: int, e: LineEdit)
      requires Valid() && isEditing && 0 <= index < |editedData.items|
      modifies this
      ensures Valid() && isEditing && parsedData == old(parsedData)
      ensures editedData == old(editedData).(items := old(editedData).items[index := WithEdit(old(editedData).items[index], e)])
      ensures payerId == old(payerId) && payerError == old(payerError)
    {
      var newItems := editedData.items;
      newItems := newItems[index := WithEdit(newItems[index], e)];
      editedData := editedData.(items := newItems);
    }

    /** The quantity input of line `index` (line 180): `updateItem(index,
        "quantity", parseInt(v) || 1)`, so the quantity it writes is never 0. */
    method EditQuantity(index: int, parsed: Option<int>)
      requires Valid() && isEditing && 0 <= index < |editedData.items|
      modifies this
      ensures Valid() && isEditing && parsedData == old(parsedData)
      ensures editedData == old(editedData).(items := old(editedData).items[index := old(editedData).items[index].(quantity := IntOr(parsed, 1))])
      ensures editedData.items[index].quantity != 0
      ensures payerId == old(payerId) && payerError == old(payerError)
    {
      UpdateItem(index, SetQuantity(IntOr(parsed, 1)));
    }

    /** `addItem` (lines 47-52): a blank line at the end. */
    method AddItem()
      requires Valid() && isEditing
      modifies this
      ensures Valid() && isEditing && parsedData == old(parsedData)
      ensures editedData == old(editedData).(items := old(editedData).items + [BlankLine])
      ensures payerId == old(payerId) && payerError == old(payerError)
    {
      editedData := editedData.(items := editedData.items + [BlankLine]);
    }

    /** `removeItem` (lines 54-59): the line at `index` goes, if there is one. */
    method RemoveItem(index: int)
      requires Valid() && isEditing
      modifies this
      ensures Valid() && isEditing && parsedData == old(parsedData)
      ensures editedData == old(editedData).(items := WithoutIndex(old(editedData).items, index))
      ensures payerId == old(payerId) && payerError == old(payerError)
    {
      editedData := editedData.(items := WithoutIndex(editedData.items, index));
    }

    /** The restaurant input (line 127). */
    method EditRestaurant(name: string)
      requires Valid() && isEditing
      modifies this
      ensures Valid() && isEditing && parsedData == old(parsedData)
      ensures editedData == old(editedData).(restaurant := name)
      ensures payerId == old(payerId) && payerError == old(payerError)
    {
      editedData := editedData.(restaurant := name);
    }

    /** The total input (line 142): `parseFloat(v) || 0`. */
    method EditTotal(parsed: Option<real>)
      requires Valid() && isEditing
      modifies this
      ensures Valid() && isEditing && parsedData == old(parsedData)
      ensures editedData == old(editedData).(total := NumberOr(parsed, 0.0))
      ensures payerId == old(payerId) && payerError == old(payerError)
    {
      editedData := editedData.(total := NumberOr(parsed, 0.0));
    }

    /** One fee input (line 238): `parseFloat(v) || 0`. */
    method EditFee(key: FeeKey, parsed: Option<real>)
      requires Valid() && isEditing
      modifies this
      ensures Valid() && isEditing && parsedData == old(parsedData)
      ensures editedData == WithFee(old(editedData), key, NumberOr(parsed, 0.0))
      ensures payerId == old(payerId) && payerError == old(payerError)
    {
      editedData := WithFee(editedData, key, NumberOr(parsed, 0.0));
    }

    /** A payer button (lines 277-280). */
    method SelectPayer(userId: int)
      requires Valid()
      modifies this
      ensures Valid() && payerId == Some(userId) && !payerError
      ensures parsedData == old(parsedData) && editedData == old(editedData) && isEditing == old(isEditing)
    {
      payerId := Some(userId);
      payerError := false;
    }

    /** `handleSaveOrder` (lines 61-69): with no payer picked (`!payerId`
        also holds for the id 0) the error shows and nothing is saved;
        otherwise the data on screen, unsaved edits included, goes to
        `onSaveOrder` with the payer. */
    method HandleSaveOrder() returns (call: Option<(ReceiptData, int)>)
      requires Valid()
      modifies this
      ensures Valid()
      ensures parsedData == old(parsedData) && editedData == old(editedData) && isEditing == old(isEditing)
      ensures payerId == old(payerId)
      ensures call.None? <==> payerId.None? || payerId.value == 0
      ensures call.None? ==> payerError
      ensures call.Some? ==> !payerError && call.value == (DisplayData(), payerId.value)
    {
      if payerId.None? || payerId.value == 0 {
        payerError := true;
        call := None;
        return;
      }
      payerError := false;
      call := Some((editedData, payerId.value));
    }
  }
}
