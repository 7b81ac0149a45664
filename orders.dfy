/** The cart engine (src/models/Order.ts).

    A user's cart is the first order, in natural order, whose `userId` is the
    user and whose `status` is "cart"; reading the cart creates an empty one
    when there is none.  Line items are stored in the order's `items` field
    as a list of `{productId, quantity}` objects.

    Each operation that touches the orders collection is specified by a
    function from the collection's state (rows, next identifier) to the new
    state and the returned value (a `Step`), and the lemmas below say what
    the next read of the cart sees.
 */
module Orders {
  import opened Docs
  import opened DocStore
  import opened Validation
  import opened ModelBase
  import opened Numbers
  import opened Catalog

  /** A line of a cart: a product and how many of it. */
  datatype LineItem = LineItem(productId: Id, quantity: int)

  const CART := "cart"

  // ---------------------------------------------------------------------
  // Line items as stored

  function EncodeItem(item: LineItem): (v: Value)
    ensures DecodeItem(v) == Some(item)
  {
    Obj(map["productId" := Ref(item.productId), "quantity" := Num(item.quantity as real)])
  }

  /** A stored line item, when the value has that shape. */
  function DecodeItem(v: Value): (r: Option<LineItem>) {
    if v.Obj? && "productId" in v.fields && "quantity" in v.fields
       && v.fields["productId"].Ref? && v.fields["quantity"].Num?
       && v.fields["quantity"].x.Floor as real == v.fields["quantity"].x
    then Some(LineItem(v.fields["productId"].id, v.fields["quantity"].x.Floor))
    else None
  }

  function EncodeItems(items: seq<LineItem>): (v: Value)
    ensures v.List? && |v.items| == |items|
    ensures forall i | 0 <= i < |items| :: v.items[i] == EncodeItem(items[i])
  {
    List(seq(|items|, i requires 0 <= i < |items| => EncodeItem(items[i])))
  }

  function DecodeAll(vs: seq<Value>): Option<seq<LineItem>> {
    if vs == [] then Some([])
    else
      match DecodeAll(vs[..|vs| - 1])
      case None => None
      case Some(items) =>
        match DecodeItem(vs[|vs| - 1])
        case None => None
        case Some(item) => Some(items + [item])
  }

  /** The cart's `items` field read back as line items; none when it is not
      a list of line items. */
  function DecodeItems(v: Value): Option<seq<LineItem>> {
    if v.List? then DecodeAll(v.items) else None
  }

  /** Decoding goes element by element: it succeeds iff every element is a
      line item, and then gives one line item per element, in order. */
  lemma {:induction false} DecodeAllElementwise(vs: seq<Value>)
    ensures DecodeAll(vs).Some? <==> forall i | 0 <= i < |vs| :: DecodeItem(vs[i]).Some?
    ensures DecodeAll(vs).Some? ==>
              |DecodeAll(vs).value| == |vs| && forall i | 0 <= i < |vs| :: DecodeItem(vs[i]) == Some(DecodeAll(vs).value[i])
  {
    if vs != [] {
      var n := |vs| - 1;
      assert forall i | 0 <= i < n :: vs[..n][i] == vs[i];
      DecodeAllElementwise(vs[..n]);
    }
  }

  /** The stored `items` field reads back exactly when it is a list whose
      every element is a line item, and then as one line item per element. */
  lemma DecodeItemsElementwise(v: Value)
    ensures DecodeItems(v).Some? <==> v.List? && forall i | 0 <= i < |v.items| :: DecodeItem(v.items[i]).Some?
    ensures DecodeItems(v).Some? ==>
              |DecodeItems(v).value| == |v.items| && forall i | 0 <= i < |v.items| :: DecodeItem(v.items[i]) == Some(DecodeItems(v).value[i])
  {
    if v.List? {
      DecodeAllElementwise(v.items);
    }
  }

  lemma {:induction false} DecodeAllOfEncoded(items: seq<LineItem>)
    ensures DecodeAll(EncodeItems(items).items) == Some(items)
  {
    if items != [] {
      var n := |items| - 1;
      var vs := EncodeItems(items).items;
      assert vs[..n] == EncodeItems(items[..n]).items;
      DecodeAllOfEncoded(items[..n]);
      assert DecodeItem(vs[n]) == Some(items[n]);
      assert items[..n] + [items[n]] == items;
    }
  }

  /** What is written to `items` reads back unchanged. */
  lemma DecodeEncodedItems(items: seq<LineItem>)
    ensures DecodeItems(EncodeItems(items)) == Some(items)
  {
    DecodeAllOfEncoded(items);
  }

  /** The `$set` payload `{items}`. */
  function ItemsDoc(items: seq<LineItem>): Doc {
    map["items" := EncodeItems(items)]
  }

  // ---------------------------------------------------------------------
  // Finding the cart

  /** `{userId, status: 'cart'}` */
  function CartFilter(userId: Id): (f: Filter)
    ensures forall r: Row :: Matches(r, f) <==> Lookup(r, "userId") == Ref(userId) && Lookup(r, "status") == Str(CART)
  {
    map["userId" := Eq(Ref(userId)), "status" := Eq(Str(CART))]
  }

  /** The document `createCart` inserts: no addresses, no payment method, no
      items, status "cart". */
  function NewCartDoc(userId: Id): (d: Doc)
    ensures Get(d, "userId") == Ref(userId) && Get(d, "status") == Str(CART) && Get(d, "items") == List([])
  {
    map["userId" := Ref(userId), "billingAddress" := Obj(map[]), "shippingAddress" := Obj(map[]),
        "paymentMethod" := Str(""), "status" := Str(CART), "items" := List([])]
  }

  /** The user's cart: the first stored cart order of this user. */
  function CartOf(rows: seq<Row>, userId: Id): (c: Option<Row>)
    ensures c.None? <==> forall i | 0 <= i < |rows| :: !(Lookup(rows[i], "userId") == Ref(userId) && Lookup(rows[i], "status") == Str(CART))
    ensures c.Some? ==> c.value in rows && Lookup(c.value, "userId") == Ref(userId) && Lookup(c.value, "status") == Str(CART)
  {
    First(rows, CartFilter(userId))
  }

  /** The line items a read of the user's cart sees: those of the stored cart,
      or none at all when the cart does not exist yet. */
  function CartItems(rows: seq<Row>, userId: Id): Option<seq<LineItem>> {
    match CartOf(rows, userId)
    case None => Some([])
    case Some(c) => DecodeItems(Get(c.doc, "items"))
  }

  /** `getCartFromUserId(userId)`: the existing cart, or `createCart(userId)`. */
  function GetCartStep(rules: Option<Rules>, rows: seq<Row>, nextId: Id, userId: Id): (s: Step<Row>)
    ensures CartOf(rows, userId).Some? ==> s == Step(rows, nextId, Ok(CartOf(rows, userId).value))
    ensures CartOf(rows, userId).None? ==> s == CreateStep(rules, rows, nextId, NewCartDoc(userId))
    ensures s.outcome.Ok? ==> CartOf(s.rows, userId) == Some(s.outcome.value)
    ensures s.outcome.Err? ==> s.rows == rows && s.nextId == nextId
    ensures ValidState(rows, nextId) ==> ValidState(s.rows, s.nextId)
  {
    match CartOf(rows, userId)
    case Some(c) => Step(rows, nextId, Ok(c))
    case None =>
      FirstAppend(rows, Row(nextId, NewCartDoc(userId)), CartFilter(userId));
      CreateStep(rules, rows, nextId, NewCartDoc(userId))
  }

  lemma DistinctRowsDistinctIds(rows: seq<Row>, a: Row, b: Row)
    requires DistinctIds(rows) && a in rows && b in rows && a != b
    ensures a.id != b.id
  {
    var i :| 0 <= i < |rows| && rows[i] == a;
    var j :| 0 <= j < |rows| && rows[j] == b;
    assert i != j;
  }

  /** Reading the cart shows the items the user's cart had (none when it is
      created), and touches no other user's cart. */
  lemma GetCartKeepsItems(rules: Option<Rules>, rows: seq<Row>, nextId: Id, userId: Id, other: Id)
    requires ValidState(rows, nextId)
    ensures var s := GetCartStep(rules, rows, nextId, userId);
            && (s.outcome.Ok? ==> CartItems(s.rows, userId) == CartItems(rows, userId))
            && (s.outcome.Ok? && CartOf(rows, userId).None? ==>
                  s.outcome.value.doc == NewCartDoc(userId) && CartItems(s.rows, userId) == Some([]))
            && (other != userId ==> CartOf(s.rows, other) == CartOf(rows, other))
  {
    var s := GetCartStep(rules, rows, nextId, userId);
    if CartOf(rows, userId).None? {
      var created := Row(nextId, NewCartDoc(userId));
      FirstAppend(rows, created, CartFilter(other));
      if s.outcome.Ok? {
        assert DecodeItems(Get(created.doc, "items")) == Some([]);
      }
    }
  }

  /** After the user's cart gets `{items}` `$set`, reading the cart gives
      exactly those items, and every other user's cart is as it was. */
  lemma {:induction false} SetItemsIsSeen(rows: seq<Row>, userId: Id, cart: Row, items: seq<LineItem>, other: Id)
    requires DistinctIds(rows) && CartOf(rows, userId) == Some(cart)
    ensures CartItems(SetFields(rows, cart.id, ItemsDoc(items)), userId) == Some(items)
    ensures other != userId ==> CartOf(SetFields(rows, cart.id, ItemsDoc(items)), other) == CartOf(rows, other)
  {
    var fields := ItemsDoc(items);
    FirstAfterSetFields(rows, cart.id, fields, CartFilter(userId));
    assert Get(Merge(cart.doc, fields), "items") == EncodeItems(items);
    DecodeEncodedItems(items);
    if other != userId {
      FirstAfterSetFields(rows, cart.id, fields, CartFilter(other));
      if CartOf(rows, other).Some? {
        var c := CartOf(rows, other).value;
        assert Lookup(c, "userId") != Lookup(cart, "userId");
        DistinctRowsDistinctIds(rows, c, cart);
      }
    }
  }

  // ---------------------------------------------------------------------
  // Adding to the cart

  /** `items.findIndex(item => item.productId === productId)` */
  function FindIndex(items: seq<LineItem>, productId: Id): (k: int)
    ensures -1 <= k < |items|
    ensures k == -1 <==> forall i | 0 <= i < |items| :: items[i].productId != productId
    ensures k != -1 ==> items[k].productId == productId && forall i | 0 <= i < k :: items[i].productId != productId
  {
    if items == [] then -1
    else if items[0].productId == productId then 0
    else
      var k := FindIndex(items[1..], productId);
      if k == -1 then -1 else k + 1
  }

  /** The items after adding `quantity` of a product: the quantity of the
      product's line goes up, or a new line goes at the end. */
  function AddItem(items: seq<LineItem>, productId: Id, quantity: int): seq<LineItem> {
    var k := FindIndex(items, productId);
    if k == -1 then items + [LineItem(productId, quantity)]
    else items[k := items[k].(quantity := items[k].quantity + quantity)]
  }

  /** No two lines are for the same product. */
  predicate DistinctProducts(items: seq<LineItem>) {
    forall i, j | 0 <= i < j < |items| :: items[i].productId != items[j].productId
  }

  /** A product already in the cart: its (first) line's quantity goes up by
      `quantity`; the number of lines and every other line stay as they were. */
  lemma AddExistingIncrements(items: seq<LineItem>, productId: Id, quantity: int, k: nat)
    requires k < |items| && items[k].productId == productId
    requires forall i | 0 <= i < k :: items[i].productId != productId
    ensures |AddItem(items, productId, quantity)| == |items|
    ensures AddItem(items, productId, quantity)[k] == LineItem(productId, items[k].quantity + quantity)
    ensures forall i | 0 <= i < |items| && i != k :: AddItem(items, productId, quantity)[i] == items[i]
  {
    assert FindIndex(items, productId) == k;
  }

  /** A product not yet in the cart: exactly one line `{productId, quantity}`
      goes at the end. */
  lemma AddNewAppends(items: seq<LineItem>, productId: Id, quantity: int)
    requires forall i | 0 <= i < |items| :: items[i].productId != productId
    ensures AddItem(items, productId, quantity) == items + [LineItem(productId, quantity)]
  {
  }

  /** Adding keeps one line per product. */
  lemma AddKeepsDistinctProducts(items: seq<LineItem>, productId: Id, quantity: int)
    requires DistinctProducts(items)
    ensures DistinctProducts(AddItem(items, productId, quantity))
  {
    var r := AddItem(items, productId, quantity);
    if FindIndex(items, productId) != -1 {
      assert forall i | 0 <= i < |r| :: r[i].productId == items[i].productId;
    }
  }

  /** `getNumberOfItemsInCart(items)`: the sum of the quantities. */
  function NumberOfItems(items: seq<LineItem>): int {
    if items == [] then 0
    else NumberOfItems(items[..|items| - 1]) + items[|items| - 1].quantity
  }

  /** Total quantity of one product over the lines. */
  function QuantityOf(items: seq<LineItem>, productId: Id): int {
    if items == [] then 0
    else QuantityOf(items[..|items| - 1], productId)
         + (if items[|items| - 1].productId == productId then items[|items| - 1].quantity else 0)
  }

  lemma {:induction false} NumberOfItemsAppend(a: seq<LineItem>, b: seq<LineItem>)
    ensures NumberOfItems(a + b) == NumberOfItems(a) + NumberOfItems(b)
  {
    if b == [] {
      assert a + b == a;
    } else {
      assert (a + b)[..|a + b| - 1] == a + b[..|b| - 1];
      NumberOfItemsAppend(a, b[..|b| - 1]);
    }
  }

  lemma {:induction false} QuantityOfAppend(a: seq<LineItem>, b: seq<LineItem>, productId: Id)
    ensures QuantityOf(a + b, productId) == QuantityOf(a, productId) + QuantityOf(b, productId)
  {
    if b == [] {
      assert a + b == a;
    } else {
      assert (a + b)[..|a + b| - 1] == a + b[..|b| - 1];
      QuantityOfAppend(a, b[..|b| - 1], productId);
    }
  }

  /** The sum over the lines with line `k` replaced. */
  lemma ReplaceLine(items: seq<LineItem>, k: nat, line: LineItem, productId: Id)
    requires k < |items|
    ensures NumberOfItems(items[k := line]) == NumberOfItems(items) - items[k].quantity + line.quantity
    ensures QuantityOf(items[k := line], productId) ==
              QuantityOf(items, productId)
              - (if items[k].productId == productId then items[k].quantity else 0)
              + (if line.productId == productId then line.quantity else 0)
  {
    var pre, post := items[..k], items[k + 1..];
    assert items == pre + [items[k]] + post;
    assert items[k := line] == pre + [line] + post;
    NumberOfItemsAppend(pre + [items[k]], post);
    NumberOfItemsAppend(pre, [items[k]]);
    NumberOfItemsAppend(pre + [line], post);
    NumberOfItemsAppend(pre, [line]);
    QuantityOfAppend(pre + [items[k]], post, productId);
    QuantityOfAppend(pre, [items[k]], productId);
    QuantityOfAppend(pre + [line], post, productId);
    QuantityOfAppend(pre, [line], productId);
    assert [items[k]][..0] == [] && [line][..0] == [];
  }

  /** Adding `quantity` of a product raises the cart's item count by
      `quantity`, raises that product's quantity by `quantity`, and leaves
      every other product's quantity as it was. */
  lemma AddItemCounts(items: seq<LineItem>, productId: Id, quantity: int, other: Id)
    ensures NumberOfItems(AddItem(items, productId, quantity)) == NumberOfItems(items) + quantity
    ensures QuantityOf(AddItem(items, productId, quantity), other) ==
              QuantityOf(items, other) + (if other == productId then quantity else 0)
  {
    var k := FindIndex(items, productId);
    var line := LineItem(productId, quantity);
    if k == -1 {
      NumberOfItemsAppend(items, [line]);
      QuantityOfAppend(items, [line], other);
      assert [line][..0] == [];
    } else {
      ReplaceLine(items, k, items[k].(quantity := items[k].quantity + quantity), other);
    }
  }

  /** `addToCart(userId, productId, quantity)` */
  function AddToCartStep(rules: Option<Rules>, rows: seq<Row>, nextId: Id, userId: Id, productId: Id, quantity: int): Step<Option<Row>> {
    var got := GetCartStep(rules, rows, nextId, userId);
    match got.outcome
    case Err(e) => Step(got.rows, got.nextId, Err(e))
    case Ok(cart) =>
      match DecodeItems(Get(cart.doc, "items"))
      case None => Step(got.rows, got.nextId, Err(Malformed))
      case Some(items) => UpdateStep(rules, got.rows, got.nextId, cart.id, ItemsDoc(AddItem(items, productId, quantity)))
  }

  /** A successful `addToCart` leaves the user's cart holding the previous
      items with the product added; a failed one leaves the cart's items as
      they were; no other user's cart changes either way. */
  lemma AddToCartAddsToTheCart(rules: Option<Rules>, rows: seq<Row>, nextId: Id, userId: Id, productId: Id, quantity: int, other: Id)
    requires ValidState(rows, nextId)
    ensures var s := AddToCartStep(rules, rows, nextId, userId, productId, quantity);
            && ValidState(s.rows, s.nextId)
            && (s.outcome.Ok? ==> CartItems(rows, userId).Some?
                                  && CartItems(s.rows, userId) == Some(AddItem(CartItems(rows, userId).value, productId, quantity)))
            && (s.outcome.Err? ==> CartItems(s.rows, userId) == CartItems(rows, userId))
            && (s.outcome.Err? && CartOf(rows, userId).Some? ==> s.rows == rows)
            && (other != userId ==> CartOf(s.rows, other) == CartOf(rows, other))
  {
    var got := GetCartStep(rules, rows, nextId, userId);
    GetCartKeepsItems(rules, rows, nextId, userId, other);
    if got.outcome.Ok? {
      var cart := got.outcome.value;
      var decoded := DecodeItems(Get(cart.doc, "items"));
      if decoded.Some? {
        SetItemsIsSeen(got.rows, userId, cart, AddItem(decoded.value, productId, quantity), other);
      }
    }
  }

  // ---------------------------------------------------------------------
  // Rewriting the cart

  /** A row of the cart form: the product, the quantity as typed, and the
      `delete` box (absent when not ticked). */
  datatype RawLine = RawLine(productId: Id, quantity: string, delete: Option<string>)

  /** `!rawLineItem.delete` */
  predicate Kept(line: RawLine) {
    line.delete.None? || line.delete.value == ""
  }

  /** The reduce in `updateCart`: the rows not marked for deletion, in
      submission order, with the quantity parsed as a decimal integer.  A
      quantity that does not parse stops the model (see README). */
  function KeptItems(lines: seq<RawLine>): Result<seq<LineItem>> {
    if lines == [] then Ok([])
    else
      var n := |lines| - 1;
      match KeptItems(lines[..n])
      case Err(e) => Err(e)
      case Ok(kept) =>
        if !Kept(lines[n]) then Ok(kept)
        else
          match ParseInt(lines[n].quantity)
          case None => Err(Malformed)
          case Some(q) => Ok(kept + [LineItem(lines[n].productId, q)])
  }

  /** Positions of the rows not marked for deletion, in increasing order. */
  function KeptIndices(lines: seq<RawLine>): (idx: seq<nat>)
    ensures forall k | 0 <= k < |idx| :: idx[k] < |lines| && Kept(lines[idx[k]])
    ensures forall k, m | 0 <= k < m < |idx| :: idx[k] < idx[m]
    ensures forall i | 0 <= i < |lines| && Kept(lines[i]) :: i in idx
  {
    if lines == [] then []
    else
      var n := |lines| - 1;
      var pre := KeptIndices(lines[..n]);
      if Kept(lines[n]) then pre + [n] else pre
  }

  /** An unmarked row whose quantity has no leading integer. */
  predicate Unparsable(line: RawLine) {
    Kept(line) && ParseInt(line.quantity).None?
  }

  /** The parse of the form fails exactly when some unmarked row's quantity
      has no leading integer. */
  lemma {:induction false} KeptItemsFailIff(lines: seq<RawLine>)
    ensures KeptItems(lines).Err? <==> exists i | 0 <= i < |lines| :: Unparsable(lines[i])
    ensures KeptItems(lines).Err? ==> KeptItems(lines).error == Malformed
  {
    if lines != [] {
      var n := |lines| - 1;
      var pre := lines[..n];
      KeptItemsFailIff(pre);
      assert KeptItems(lines).Err? <==> KeptItems(pre).Err? || Unparsable(lines[n]);
      assert (exists i | 0 <= i < |lines| :: Unparsable(lines[i])) <==>
             (exists i | 0 <= i < n :: Unparsable(pre[i])) || Unparsable(lines[n]) by {
        assert forall i | 0 <= i < n :: pre[i] == lines[i];
      }
    }
  }

  /** The kept rows are exactly the unmarked ones, in submission order, each
      with its product and its parsed quantity. */
  lemma {:induction false} KeptItemsAreTheUnmarkedRows(lines: seq<RawLine>)
    requires KeptItems(lines).Ok?
    ensures var kept := KeptItems(lines).value;
            var idx := KeptIndices(lines);
            && |kept| == |idx|
            && forall k | 0 <= k < |kept| ::
                 kept[k].productId == lines[idx[k]].productId
                 && ParseInt(lines[idx[k]].quantity) == Some(kept[k].quantity)
  {
    if lines != [] {
      var n := |lines| - 1;
      var pre := lines[..n];
      assert KeptItems(pre).Ok?;
      KeptItemsAreTheUnmarkedRows(pre);
      var idx := KeptIndices(pre);
      var before := KeptItems(pre).value;
      var kept := KeptItems(lines).value;
      var all := KeptIndices(lines);
      if Kept(lines[n]) {
        assert kept == before + [LineItem(lines[n].productId, ParseInt(lines[n].quantity).value)];
        assert all == idx + [n];
      } else {
        assert kept == before && all == idx;
      }
      forall k | 0 <= k < |kept|
        ensures kept[k].productId == lines[all[k]].productId
        ensures ParseInt(lines[all[k]].quantity) == Some(kept[k].quantity)
      {
        if k < |idx| {
          assert kept[k] == before[k] && all[k] == idx[k];
          assert lines[idx[k]] == pre[idx[k]];
        } else {
          assert all[k] == n;
        }
      }
    }
  }

  /** `updateCart(userId, rows)`: returns the kept rows' item count. */
  function UpdateCartStep(rules: Option<Rules>, rows: seq<Row>, nextId: Id, userId: Id, lines: seq<RawLine>): Step<int> {
    match KeptItems(lines)
    case Err(e) => Step(rows, nextId, Err(e))
    case Ok(kept) =>
      var got := GetCartStep(rules, rows, nextId, userId);
      match got.outcome
      case Err(e) => Step(got.rows, got.nextId, Err(e))
      case Ok(cart) =>
        var updated := UpdateStep(rules, got.rows, got.nextId, cart.id, ItemsDoc(kept));
        Step(updated.rows, updated.nextId,
             if updated.outcome.Err? then Err(updated.outcome.error) else Ok(NumberOfItems(kept)))
  }

  /** A successful `updateCart` leaves the user's cart holding exactly the
      kept rows and returns their item count; a failed one leaves the cart's
      items as they were; no other user's cart changes either way. */
  lemma UpdateCartReplacesItems(rules: Option<Rules>, rows: seq<Row>, nextId: Id, userId: Id, lines: seq<RawLine>, other: Id)
    requires ValidState(rows, nextId)
    ensures var s := UpdateCartStep(rules, rows, nextId, userId, lines);
            && ValidState(s.rows, s.nextId)
            && (s.outcome.Ok? ==> KeptItems(lines).Ok?
                                  && CartItems(s.rows, userId) == Some(KeptItems(lines).value)
                                  && s.outcome.value == NumberOfItems(KeptItems(lines).value))
            && (s.outcome.Err? ==> CartItems(s.rows, userId) == CartItems(rows, userId))
            && (KeptItems(lines).Err? ==> s == Step(rows, nextId, Err(Malformed)))
            && (other != userId ==> CartOf(s.rows, other) == CartOf(rows, other))
  {
    KeptItemsFailIff(lines);
    if KeptItems(lines).Ok? {
      var got := GetCartStep(rules, rows, nextId, userId);
      GetCartKeepsItems(rules, rows, nextId, userId, other);
      if got.outcome.Ok? {
        SetItemsIsSeen(got.rows, userId, got.outcome.value, KeptItems(lines).value, other);
      }
    }
  }

  /** `getNumberOfItemsInCartFromUserId(userId)` */
  function NumberOfItemsStep(rules: Option<Rules>, rows: seq<Row>, nextId: Id, userId: Id): Step<int> {
    var got := GetCartStep(rules, rows, nextId, userId);
    match got.outcome
    case Err(e) => Step(got.rows, got.nextId, Err(e))
    case Ok(cart) =>
      match DecodeItems(Get(cart.doc, "items"))
      case None => Step(got.rows, got.nextId, Err(Malformed))
      case Some(items) => Step(got.rows, got.nextId, Ok(NumberOfItems(items)))
  }

  /** The count is the item count of what a read of the cart sees, and the
      cart's items do not change. */
  lemma NumberOfItemsIsCartCount(rules: Option<Rules>, rows: seq<Row>, nextId: Id, userId: Id)
    requires ValidState(rows, nextId)
    ensures var s := NumberOfItemsStep(rules, rows, nextId, userId);
            && ValidState(s.rows, s.nextId)
            && CartItems(s.rows, userId) == CartItems(rows, userId)
            && (s.outcome.Ok? ==> CartItems(rows, userId).Some? && s.outcome.value == NumberOfItems(CartItems(rows, userId).value))
            && (CartItems(rows, userId).None? ==> s.outcome.Err?)
            && (CartOf(rows, userId).Some? ==> s.rows == rows)
  {
    GetCartKeepsItems(rules, rows, nextId, userId, userId);
  }

  // ---------------------------------------------------------------------
  // Displaying the cart

  /** A line as the cart page shows it. */
  datatype ParsedLine = ParsedLine(productId: Id, name: Value, description: Value, quantity: int,
                                   price: real, category: Value, supplierName: Value)

  /** `product.supplier ? product.supplier.name : product.supplierId` */
  function SupplierName(product: Joined): Value {
    if product.supplier.Some? then Get(product.supplier.value.doc, "name")
    else Get(product.product.doc, "supplierId")
  }

  /** One iteration of `parseLineItems`: the line's product is read with its
      supplier; a missing product is a null dereference, a price that is not
      a number stops the model. */
  function ParseLine(item: LineItem, products: seq<Row>, suppliers: seq<Row>): Result<ParsedLine>
  {
    match FindById(products, suppliers, item.productId)
    case None => Err(Fault)
    case Some(product) =>
      var unit := Get(product.product.doc, "price");
      if !unit.Num? then Err(Malformed)
      else
        Ok(ParsedLine(product.product.id, Get(product.product.doc, "name"), Get(product.product.doc, "description"),
                      item.quantity, CeilCents(unit.x * item.quantity as real),
                      Get(product.product.doc, "category"), SupplierName(product)))
  }

  /** A parsed line is the item's product as stored, with its joined
      supplier's name, the item's quantity, and the exact line price rounded
      up to whole cents; a missing product is a fault. */
  lemma ParseLineCopiesTheProduct(item: LineItem, products: seq<Row>, suppliers: seq<Row>)
    ensures var r := ParseLine(item, products, suppliers);
            var found := FindById(products, suppliers, item.productId);
            && (found.None? ==> r == Err(Fault))
            && (found.Some? && !Get(found.value.product.doc, "price").Num? ==> r == Err(Malformed))
            && (r.Ok? ==>
                  var product := found.value;
                  var unit := Get(product.product.doc, "price").x;
                  && r.value.productId == item.productId
                  && r.value.quantity == item.quantity
                  && r.value.name == Get(product.product.doc, "name")
                  && r.value.description == Get(product.product.doc, "description")
                  && r.value.category == Get(product.product.doc, "category")
                  && r.value.supplierName == SupplierName(product)
                  && unit * item.quantity as real <= r.value.price < unit * item.quantity as real + 0.01
                  && WholeCents(r.value.price))
            && (found.Some? && Get(found.value.product.doc, "price").Num? ==> r.Ok?)
  {
  }

  /** Each item through a step that may fail, in order, stopping at the first
      failure (a loop whose body may throw). */
  function MapUntilError<A, B>(items: seq<A>, f: A -> Result<B>): Result<seq<B>> {
    if items == [] then Ok([])
    else
      var n := |items| - 1;
      match MapUntilError(items[..n], f)
      case Err(e) => Err(e)
      case Ok(done) =>
        match f(items[n])
        case Err(e) => Err(e)
        case Ok(b) => Ok(done + [b])
  }

  lemma {:induction false} MapUntilErrorLineByLine<A, B>(items: seq<A>, f: A -> Result<B>)
    ensures MapUntilError(items, f).Ok? <==> forall i | 0 <= i < |items| :: f(items[i]).Ok?
    ensures MapUntilError(items, f).Ok? ==>
              var done := MapUntilError(items, f).value;
              |done| == |items| && forall i | 0 <= i < |items| :: f(items[i]) == Ok(done[i])
  {
    if items != [] {
      var n := |items| - 1;
      var pre := items[..n];
      MapUntilErrorLineByLine(pre, f);
      assert forall i | 0 <= i < n :: pre[i] == items[i];
    }
  }

  lemma {:induction false} MapUntilErrorFirstError<A, B>(items: seq<A>, f: A -> Result<B>)
    requires MapUntilError(items, f).Err?
    ensures exists i | 0 <= i < |items| ::
              && f(items[i]) == Err(MapUntilError(items, f).error)
              && forall j | 0 <= j < i :: f(items[j]).Ok?
  {
    var n := |items| - 1;
    var pre := items[..n];
    var e := MapUntilError(items, f).error;
    if MapUntilError(pre, f).Err? {
      MapUntilErrorFirstError(pre, f);
      var i :| 0 <= i < n && f(pre[i]) == Err(e) && forall j | 0 <= j < i :: f(pre[j]).Ok?;
      assert forall j | 0 <= j <= i :: pre[j] == items[j];
    } else {
      MapUntilErrorLineByLine(pre, f);
      assert forall j | 0 <= j < n :: pre[j] == items[j];
    }
  }

  lemma {:induction false} MapUntilErrorPersists<A, B>(items: seq<A>, n: nat, f: A -> Result<B>)
    requires n <= |items| && MapUntilError(items[..n], f).Err?
    ensures MapUntilError(items, f) == MapUntilError(items[..n], f)
  {
    if n < |items| {
      var m := |items| - 1;
      assert items[..m][..n] == items[..n];
      MapUntilErrorPersists(items[..m], n, f);
    } else {
      assert items[..n] == items;
    }
  }

  /** What the loop of `parseLineItems` computes. */
  function ParsedLines(items: seq<LineItem>, products: seq<Row>, suppliers: seq<Row>): Result<seq<ParsedLine>> {
    MapUntilError(items, item => ParseLine(item, products, suppliers))
  }

  /** `parseLineItems` succeeds exactly when every line does, and then has
      one parsed line per item, in the same order. */
  lemma ParsedLinesLineByLine(items: seq<LineItem>, products: seq<Row>, suppliers: seq<Row>)
    ensures ParsedLines(items, products, suppliers).Ok? <==>
              forall i | 0 <= i < |items| :: ParseLine(items[i], products, suppliers).Ok?
    ensures ParsedLines(items, products, suppliers).Ok? ==>
              var parsed := ParsedLines(items, products, suppliers).value;
              |parsed| == |items| && forall i | 0 <= i < |items| :: ParseLine(items[i], products, suppliers) == Ok(parsed[i])
  {
    MapUntilErrorLineByLine(items, item => ParseLine(item, products, suppliers));
  }

  /** A failing `parseLineItems` fails with the error of its first failing
      line: a fault when that line's product is missing. */
  lemma ParsedLinesFirstError(items: seq<LineItem>, products: seq<Row>, suppliers: seq<Row>)
    requires ParsedLines(items, products, suppliers).Err?
    ensures exists i | 0 <= i < |items| ::
              && ParseLine(items[i], products, suppliers) == Err(ParsedLines(items, products, suppliers).error)
              && forall j | 0 <= j < i :: ParseLine(items[j], products, suppliers).Ok?
  {
    MapUntilErrorFirstError(items, item => ParseLine(item, products, suppliers));
  }

  /** Total of the line prices. */
  function SumPrices(parsed: seq<ParsedLine>): real {
    if parsed == [] then 0.0
    else SumPrices(parsed[..|parsed| - 1]) + parsed[|parsed| - 1].price
  }

  /** `getTotalCostOfItems(parsed)`: the sum of the line prices rounded up to
      the cent. */
  function TotalCost(parsed: seq<ParsedLine>): (r: real)
    ensures SumPrices(parsed) <= r < SumPrices(parsed) + 0.01
    ensures WholeCents(r)
  {
    CeilCents(SumPrices(parsed))
  }

  lemma WholeCentsSum(x: real, y: real)
    requires WholeCents(x) && WholeCents(y)
    ensures WholeCents(x + y)
  {
    var m, n := (x * 100.0).Floor, (y * 100.0).Floor;
    assert (x + y) * 100.0 == (m + n) as real;
  }

  lemma {:induction false} SumOfWholeCents(parsed: seq<ParsedLine>)
    requires forall i | 0 <= i < |parsed| :: WholeCents(parsed[i].price)
    ensures WholeCents(SumPrices(parsed))
  {
    if parsed == [] {
      assert 0.0 * 100.0 == 0 as real;
    } else {
      var n := |parsed| - 1;
      SumOfWholeCents(parsed[..n]);
      WholeCentsSum(SumPrices(parsed[..n]), parsed[n].price);
    }
  }

  /** Every line price is already in whole cents, so the total of a parsed
      cart is exactly the sum of its line prices. */
  lemma TotalOfParsedCart(items: seq<LineItem>, products: seq<Row>, suppliers: seq<Row>)
    requires ParsedLines(items, products, suppliers).Ok?
    ensures TotalCost(ParsedLines(items, products, suppliers).value) == SumPrices(ParsedLines(items, products, suppliers).value)
  {
    var parsed := ParsedLines(items, products, suppliers).value;
    ParsedLinesLineByLine(items, products, suppliers);
    SumOfWholeCents(parsed);
    CeilCentsOfCents(SumPrices(parsed));
  }

  // ---------------------------------------------------------------------
  // The model class

  /** `Order`'s static operations, bound to the orders collection (with its
      rules) and to the products and suppliers collections they read. */
  class Order {
    const orders: Model
    const products: Collection
    const suppliers: Collection

    constructor (orders: Model, products: Collection, suppliers: Collection)
      ensures this.orders == orders && this.products == products && this.suppliers == suppliers
    {
      this.orders := orders;
      this.products := products;
      this.suppliers := suppliers;
    }

    /** `createCart(userId)` */
    method CreateCart(userId: Id) returns (cart: Result<Row>)
      requires orders.store.Valid()
      modifies orders.store
      ensures orders.store.Valid()
      ensures Step(orders.store.rows, orders.store.nextId, cart) ==
                CreateStep(orders.rules, old(orders.store.rows), old(orders.store.nextId), NewCartDoc(userId))
    {
      cart := orders.Create(NewCartDoc(userId));
    }

    /** `getCartFromUserId(userId)` */
    method GetCartFromUserId(userId: Id) returns (cart: Result<Row>)
      requires orders.store.Valid()
      modifies orders.store
      ensures orders.store.Valid()
      ensures Step(orders.store.rows, orders.store.nextId, cart) ==
                GetCartStep(orders.rules, old(orders.store.rows), old(orders.store.nextId), userId)
    {
      var result := orders.FindAll(CartFilter(userId));
      SelectHeadIsFirst(orders.store.rows, CartFilter(userId));
      if |result| == 0 {
        cart := CreateCart(userId);
      } else {
        cart := Ok(result[0]);
      }
    }

    /** `addToCart(userId, productId, quantity)`: returns what the update of
        the cart returned. */
    method AddToCart(userId: Id, productId: Id, quantity: int) returns (result: Result<Option<Row>>)
      requires orders.store.Valid()
      modifies orders.store
      ensures orders.store.Valid()
      ensures Step(orders.store.rows, orders.store.nextId, result) ==
                AddToCartStep(orders.rules, old(orders.store.rows), old(orders.store.nextId), userId, productId, quantity)
    {
      ghost var step := GetCartStep(orders.rules, orders.store.rows, orders.store.nextId, userId);
      var got := GetCartFromUserId(userId);
      assert step == Step(orders.store.rows, orders.store.nextId, got);
      if got.Err? {
        return Err(got.error);
      }
      var cart := got.value;
      var decoded := DecodeItems(Get(cart.doc, "items"));
      if decoded.None? {
        return Err(Malformed);
      }
      var items := decoded.value;
      var itemIndex := FindIndex(items, productId);
      if itemIndex == -1 {
        items := items + [LineItem(productId, quantity)];
      } else {
        items := items[itemIndex := items[itemIndex].(quantity := items[itemIndex].quantity + quantity)];
      }
      assert items == AddItem(decoded.value, productId, quantity);
      result := orders.Update(cart.id, ItemsDoc(items));
    }

    /** `updateCart(userId, rows)`: returns the number of items now in the
        cart. */
    method UpdateCart(userId: Id, lines: seq<RawLine>) returns (result: Result<int>)
      requires orders.store.Valid()
      modifies orders.store
      ensures orders.store.Valid()
      ensures Step(orders.store.rows, orders.store.nextId, result) ==
                UpdateCartStep(orders.rules, old(orders.store.rows), old(orders.store.nextId), userId, lines)
    {
      var lineItems: seq<LineItem> := [];
      var i := 0;
      while i < |lines|
        invariant 0 <= i <= |lines|
        invariant KeptItems(lines[..i]) == Ok(lineItems)
      {
        assert lines[..i + 1][..i] == lines[..i];
        if Kept(lines[i]) {
          var quantity := ParseInt(lines[i].quantity);
          if quantity.None? {
            KeptErrorPersists(lines, i + 1);
            return Err(Malformed);
          }
          lineItems := lineItems + [LineItem(lines[i].productId, quantity.value)];
        }
        i := i + 1;
      }
      assert lines[..|lines|] == lines;
      var numItemsInCart := NumberOfItems(lineItems);
      var got := GetCartFromUserId(userId);
      if got.Err? {
        return Err(got.error);
      }
      var updated := orders.Update(got.value.id, ItemsDoc(lineItems));
      if updated.Err? {
        return Err(updated.error);
      }
      return Ok(numItemsInCart);
    }

    /** `parseLineItems(items)` */
    method ParseLineItems(lineItems: seq<LineItem>) returns (result: Result<seq<ParsedLine>>)
      ensures result == ParsedLines(lineItems, products.rows, suppliers.rows)
    {
      var productRows, supplierRows := products.rows, suppliers.rows;
      var parsed: seq<ParsedLine> := [];
      var i := 0;
      while i < |lineItems|
        invariant 0 <= i <= |lineItems|
        invariant ParsedLines(lineItems[..i], products.rows, suppliers.rows) == Ok(parsed)
      {
        assert lineItems[..i + 1][..i] == lineItems[..i];
        var line := ParseLine(lineItems[i], products.rows, suppliers.rows);
        if line.Err? {
          MapUntilErrorPersists(lineItems, i + 1, item => ParseLine(item, productRows, supplierRows));
          return Err(line.error);
        }
        parsed := parsed + [line.value];
        i := i + 1;
      }
      assert lineItems[..|lineItems|] == lineItems;
      return Ok(parsed);
    }

    /** `getNumberOfItemsInCartFromUserId(userId)` */
    method GetNumberOfItemsInCartFromUserId(userId: Id) returns (result: Result<int>)
      requires orders.store.Valid()
      modifies orders.store
      ensures orders.store.Valid()
      ensures Step(orders.store.rows, orders.store.nextId, result) ==
                NumberOfItemsStep(orders.rules, old(orders.store.rows), old(orders.store.nextId), userId)
    {
      var got := GetCartFromUserId(userId);
      if got.Err? {
        return Err(got.error);
      }
      var decoded := DecodeItems(Get(got.value.doc, "items"));
      if decoded.None? {
        return Err(Malformed);
      }
      return Ok(NumberOfItems(decoded.value));
    }
  }

  /** Once a prefix of the form fails to parse, the whole form does. */
  lemma {:induction false} KeptErrorPersists(lines: seq<RawLine>, n: nat)
    requires n <= |lines| && KeptItems(lines[..n]).Err?
    ensures KeptItems(lines) == KeptItems(lines[..n])
  {
    if n < |lines| {
      var m := |lines| - 1;
      assert lines[..m][..n] == lines[..n];
      KeptErrorPersists(lines[..m], n);
    } else {
      assert lines[..n] == lines;
    }
  }
}
