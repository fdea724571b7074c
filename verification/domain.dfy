/** Entities shared by the splits router and the frontend components, and
    small sequence helpers used throughout. Money is `real`; quantities are
    `int`. */
module Domain {

  datatype Option<T> = None | Some(value: T)

  /** A receipt line of the items table; `orderId` is its order. */
  datatype Item = Item(id: int, orderId: int, name: string, price: real, quantity: int)

  /** A person who can pay or owe. `whatsappNumber` and `paymentHandle` are nullable columns. */
  datatype User = User(id: int, name: string, phone: string,
                       whatsappNumber: Option<string>, paymentHandle: Option<string>)

  /** A row of the orders table. Each fee column is nullable. */
  datatype OrderRow = OrderRow(id: int, restaurant: string, total: real,
                               subtotal: Option<real>, tax: Option<real>,
                               deliveryFee: Option<real>, tip: Option<real>,
                               discount: Option<real>, paidByUserId: int)

  /** An order as the API returns it to the browser: its row and its items. */
  datatype Order = Order(row: OrderRow, items: seq<Item>)

  /** A row of the splits table: what one user owes for one order. */
  datatype Split = Split(id: int, orderId: int, userId: int, itemIds: seq<int>,
                         amountOwed: real, paidStatus: bool, reminderSent: bool,
                         reminderSentAt: Option<int>, messageSid: Option<string>)

  /** One entry of a bulk split request: the users who shared one item. */
  datatype Assignment = Assignment(itemId: int, userIds: seq<int>)

  /** What one receipt line costs: `price * quantity`. */
  function LineTotal(item: Item): real {
    item.price * (item.quantity as real)
  }

  /** A nullable amount read with `x or 0` (Python) or `x || 0` (JavaScript). */
  function OrZero(x: Option<real>): real {
    if x.Some? then x.value else 0.0
  }

  /** The order-level fees that are spread over the payers:
      tax + delivery fee + tip - discount, a missing value counting as 0. */
  function NetFees(tax: Option<real>, deliveryFee: Option<real>, tip: Option<real>,
                   discount: Option<real>): (fees: real)
    ensures tax == None && deliveryFee == None && tip == None && discount == None ==> fees == 0.0
    ensures discount == None ==> fees == OrZero(tax) + OrZero(deliveryFee) + OrZero(tip)
  {
    OrZero(tax) + OrZero(deliveryFee) + OrZero(tip) - OrZero(discount)
  }

  function OrderFees(row: OrderRow): real {
    NetFees(row.tax, row.deliveryFee, row.tip, row.discount)
  }

  predicate NoDups<T(==)>(s: seq<T>) {
    forall i, j :: 0 <= i < j < |s| ==> s[i] != s[j]
  }

  /** The distinct elements of `s`, each at its first occurrence (what an
      insertion-ordered set or dict keeps). */
  function Dedup<T(==,!new)>(s: seq<T>): (r: seq<T>)
    ensures NoDups(r)
    ensures forall x :: x in r <==> x in s
    ensures |r| <= |s|
  {
    if s == [] then []
    else
      var p := Dedup(s[..|s| - 1]);
      if s[|s| - 1] in s[..|s| - 1] then p else p + [s[|s| - 1]]
  }

  lemma DedupSnoc<T(!new)>(s: seq<T>, x: T)
    ensures Dedup(s + [x]) == if x in s then Dedup(s) else Dedup(s) + [x]
  {
    assert (s + [x])[..|s|] == s;
  }

  lemma {:induction false} DedupOfNoDups<T(!new)>(s: seq<T>)
    requires NoDups(s)
    ensures Dedup(s) == s
  {
    if s != [] {
      DedupOfNoDups(s[..|s| - 1]);
    }
  }

  /** Python `x or default` and JavaScript `x || default` on a nullable string:
      the value counts only when present and non-empty. */
  predicate Truthy(x: Option<string>) {
    x.Some? && x.value != ""
  }

  /** Dropping the last element of a sequence without repeats leaves one
      without repeats that does not hold that element. */
  lemma NoDupsSnoc<T>(s: seq<T>)
    requires NoDups(s) && s != []
    ensures NoDups(s[..|s| - 1]) && s[|s| - 1] !in s[..|s| - 1]
  {
    var p := s[..|s| - 1];
    forall i | 0 <= i < |p| ensures p[i] != s[|s| - 1] {
      assert p[i] == s[i];
    }
  }

  /** A non-empty sequence is its front followed by its last element. */
  lemma SnocLast<T>(s: seq<T>)
    requires s != []
    ensures s[..|s| - 1] + [s[|s| - 1]] == s
  {
  }

  /** JavaScript `parts.join(sep)`. */
  function Join(parts: seq<string>, sep: string): (r: string)
    ensures parts == [] ==> r == []
    ensures |parts| == 1 ==> r == parts[0]
  {
    if parts == [] then []
    else if |parts| == 1 then parts[0]
    else Join(parts[..|parts| - 1], sep) + sep + parts[|parts| - 1]
  }

  /** One receipt line as the language model reads it, before it is saved. */
  datatype ReceiptLine = ReceiptLine(name: string, quantity: int, price: real)

  /** The parsed receipt the browser edits before saving the order. The
      amounts the receipt does not show are absent. */
  datatype ReceiptData = ReceiptData(restaurant: string, items: seq<ReceiptLine>,
                                     subtotal: Option<real>, tax: Option<real>,
                                     deliveryFee: Option<real>, tip: Option<real>,
                                     discount: Option<real>, total: real)
}
