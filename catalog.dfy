/** The product catalog (src/models/Product.ts).

    Every read of products joins each product to its supplier: the first
    supplier whose `_id` equals the product's `supplierId`, or none (Mongo's
    `$lookup` followed by `$arrayElemAt: [..., 0]`, a left outer join).  The
    store page derives its category and supplier check boxes from the stored
    products and suppliers, and builds the product filter from the boxes
    ticked in the query string.
 */
module Catalog {
  import opened Docs
  import opened DocStore

  /** A product as the reads return it: the stored record, plus the joined
      supplier when one matched. */
  datatype Joined = Joined(product: Row, supplier: Option<Row>)

  /** The `$lookup` condition: the supplier's `_id` equals `supplierId`. */
  function SupplierFilter(product: Row): (f: Filter)
    ensures forall s: Row :: Matches(s, f) <==> Ref(s.id) == Lookup(product, "supplierId")
  {
    var f := map["_id" := Eq(Lookup(product, "supplierId"))];
    assert forall s: Row :: Lookup(s, "_id") == Ref(s.id);
    f
  }

  /** The supplier the join attaches to a product. */
  function SupplierOf(product: Row, suppliers: seq<Row>): (s: Option<Row>)
    ensures s.None? <==> forall i | 0 <= i < |suppliers| :: Ref(suppliers[i].id) != Lookup(product, "supplierId")
    ensures s.Some? ==> s.value in suppliers && Ref(s.value.id) == Lookup(product, "supplierId")
    ensures s.Some? ==> exists i | 0 <= i < |suppliers| :: suppliers[i] == s.value
                          && forall j | 0 <= j < i :: Ref(suppliers[j].id) != Lookup(product, "supplierId")
  {
    First(suppliers, SupplierFilter(product))
  }

  /** `Product.findAll(query)`: the matching products in natural order, each
      with its supplier attached and its own fields as stored. */
  function FindAll(products: seq<Row>, suppliers: seq<Row>, query: Filter): (r: seq<Joined>)
    ensures |r| == |Select(products, query)|
    ensures forall i | 0 <= i < |r| :: r[i].product == Select(products, query)[i]
    ensures forall j :: j in r <==> j.product in products && Matches(j.product, query)
                                    && j.supplier == SupplierOf(j.product, suppliers)
  {
    var selected := Select(products, query);
    var r := seq(|selected|, i requires 0 <= i < |selected| => Joined(selected[i], SupplierOf(selected[i], suppliers)));
    assert forall j :: j in r <==> j.product in selected && j.supplier == SupplierOf(j.product, suppliers) by {
      forall j ensures j in r <==> j.product in selected && j.supplier == SupplierOf(j.product, suppliers) {
        if j.product in selected && j.supplier == SupplierOf(j.product, suppliers) {
          var k :| 0 <= k < |selected| && selected[k] == j.product;
          assert r[k] == j;
        }
      }
    }
    r
  }

  /** `Product.findById(id)`: the product with this id, joined, or null. */
  function FindById(products: seq<Row>, suppliers: seq<Row>, id: Id): (r: Option<Joined>)
    ensures r.None? <==> forall i | 0 <= i < |products| :: products[i].id != id
    ensures r.Some? ==> r.value.product in products && r.value.product.id == id
    ensures r.Some? ==> r.value.supplier == SupplierOf(r.value.product, suppliers)
  {
    match FindRow(products, id)
    case None => None
    case Some(p) => Some(Joined(p, SupplierOf(p, suppliers)))
  }

  /** `Product.getNameFromId(id)`: the product's `name`; with no such product
      the read of `name` on null throws. */
  function GetNameFromId(products: seq<Row>, suppliers: seq<Row>, id: Id): (r: Result<Value>)
    ensures r.Err? <==> forall i | 0 <= i < |products| :: products[i].id != id
    ensures r.Err? ==> r.error == Fault
    ensures r.Ok? ==> exists i | 0 <= i < |products| :: products[i].id == id && r.value == Get(products[i].doc, "name")
  {
    match FindById(products, suppliers, id)
    case None => Err(Fault)
    case Some(j) => Ok(Get(j.product.doc, "name"))
  }

  // ---------------------------------------------------------------------
  // Store filters

  /** One check box of the store page's filter form. */
  datatype Checkbox = Checkbox(name: Value, id: Option<Id>, isSet: bool)

  /** `setFilters ? setFilters : []` */
  function OrEmpty<T>(filters: Option<seq<T>>): seq<T> {
    if filters.Some? then filters.value else []
  }

  /** `product.category` */
  function Category(product: Row): Value {
    Get(product.doc, "category")
  }

  /** `products.map(product => product.category)` */
  function CategoryColumn(products: seq<Row>): (r: seq<Value>)
    ensures |r| == |products|
    ensures forall i | 0 <= i < |r| :: r[i] == Category(products[i])
  {
    seq(|products|, i requires 0 <= i < |products| => Category(products[i]))
  }

  /** `[...new Set(xs)]`: each value once, in the order of first occurrence. */
  function Distinct(xs: seq<Value>): (r: seq<Value>)
    ensures forall v :: v in r <==> v in xs
    ensures forall i, j | 0 <= i < j < |r| :: r[i] != r[j]
  {
    if xs == [] then []
    else
      var d := Distinct(xs[..|xs| - 1]);
      var last := xs[|xs| - 1];
      assert forall v :: v in xs <==> v in xs[..|xs| - 1] || v == last by {
        assert xs == xs[..|xs| - 1] + [last];
      }
      if last in d then d else d + [last]
  }

  /** Position of the first occurrence of `v` in `xs`. */
  function FirstIndex(xs: seq<Value>, v: Value): (k: nat)
    requires v in xs
    ensures k < |xs| && xs[k] == v && forall j | 0 <= j < k :: xs[j] != v
  {
    if xs[0] == v then 0 else 1 + FirstIndex(xs[1..], v)
  }

  lemma FirstIndexInPrefix(xs: seq<Value>, n: nat, v: Value)
    requires n <= |xs| && v in xs[..n]
    ensures FirstIndex(xs, v) == FirstIndex(xs[..n], v)
  {
    var k := FirstIndex(xs[..n], v);
    var m := FirstIndex(xs, v);
    assert xs[k] == v;
    assert m <= k;
    assert xs[..n][m] == v;
  }

  /** The distinct values come in the order in which they first occur. */
  lemma {:induction false} DistinctKeepsFirstOccurrenceOrder(xs: seq<Value>)
    ensures forall i, j | 0 <= i < j < |Distinct(xs)| ::
              FirstIndex(xs, Distinct(xs)[i]) < FirstIndex(xs, Distinct(xs)[j])
  {
    if xs != [] {
      var n := |xs| - 1;
      var p := xs[..n];
      DistinctKeepsFirstOccurrenceOrder(p);
      var d := Distinct(p);
      var r := Distinct(xs);
      forall v | v in d ensures FirstIndex(xs, v) == FirstIndex(p, v) {
        FirstIndexInPrefix(xs, n, v);
      }
      if xs[n] !in d {
        forall v | v in d ensures FirstIndex(xs, v) < FirstIndex(xs, xs[n]) {
          assert xs[n] !in p;
        }
        assert forall i | 0 <= i < |d| :: r[i] == d[i];
      }
    }
  }

  /** `getCategories(setFilters)`: one box per distinct product category, in
      first-occurrence order, ticked when its name is among the filters. */
  function GetCategories(products: seq<Row>, setFilters: Option<seq<string>>): (r: seq<Checkbox>)
    ensures |r| == |Distinct(CategoryColumn(products))|
    ensures forall i | 0 <= i < |r| :: r[i].name == Distinct(CategoryColumn(products))[i] && r[i].id.None?
    ensures forall i | 0 <= i < |r| :: r[i].isSet <==> r[i].name.Str? && r[i].name.s in OrEmpty(setFilters)
  {
    var filters := OrEmpty(setFilters);
    var names := Distinct(CategoryColumn(products));
    seq(|names|, i requires 0 <= i < |names| =>
      Checkbox(names[i], None, names[i].Str? && names[i].s in filters))
  }

  /** No category gets two boxes. */
  lemma CategoryBoxesDistinct(products: seq<Row>, setFilters: Option<seq<string>>)
    ensures var r := GetCategories(products, setFilters);
            forall i, j | 0 <= i < j < |r| :: r[i].name != r[j].name
  {
    var names := Distinct(CategoryColumn(products));
    assert forall i, j | 0 <= i < j < |names| :: names[i] != names[j];
  }

  /** Every product's category has a box, and every box is some product's
      category. */
  lemma CategoryBoxesCoverProducts(products: seq<Row>, setFilters: Option<seq<string>>)
    ensures var r := GetCategories(products, setFilters);
            && (forall p :: p in products ==> exists i | 0 <= i < |r| :: r[i].name == Category(p))
            && (forall i | 0 <= i < |r| :: exists p :: p in products && r[i].name == Category(p))
  {
    var r := GetCategories(products, setFilters);
    var column := CategoryColumn(products);
    var names := Distinct(column);
    forall p | p in products ensures exists i | 0 <= i < |r| :: r[i].name == Category(p) {
      var m :| 0 <= m < |products| && products[m] == p;
      assert column[m] == Category(p);
      assert Category(p) in names;
      var k :| 0 <= k < |names| && names[k] == Category(p);
      assert r[k].name == names[k];
    }
    forall i | 0 <= i < |r| ensures exists p :: p in products && r[i].name == Category(p) {
      assert names[i] in column;
      var m :| 0 <= m < |column| && column[m] == names[i];
      assert products[m] in products;
    }
  }

  /** `getSuppliers(setFilters)`: one box per supplier, in natural order,
      ticked when its id is among the filters. */
  function GetSuppliers(suppliers: seq<Row>, setFilters: Option<seq<Id>>): (r: seq<Checkbox>)
    ensures |r| == |suppliers|
    ensures forall i | 0 <= i < |r| :: r[i].name == Get(suppliers[i].doc, "name") && r[i].id == Some(suppliers[i].id)
    ensures forall i | 0 <= i < |r| :: r[i].isSet <==> suppliers[i].id in OrEmpty(setFilters)
  {
    var filters := OrEmpty(setFilters);
    seq(|suppliers|, i requires 0 <= i < |suppliers| =>
      Checkbox(Get(suppliers[i].doc, "name"), Some(suppliers[i].id), suppliers[i].id in filters))
  }

  function Strs(names: seq<string>): (r: seq<Value>)
    ensures forall v: Value :: v in r <==> v.Str? && v.s in names
  {
    var r := seq(|names|, i requires 0 <= i < |names| => Str(names[i]));
    assert forall v: Value :: v.Str? && v.s in names ==> v in r by {
      forall v: Value | v.Str? && v.s in names ensures v in r {
        var k :| 0 <= k < |names| && names[k] == v.s;
        assert r[k] == v;
      }
    }
    r
  }

  /** `suppliers.map(id => new ObjectId(id))` */
  function Refs(ids: seq<Id>): (r: seq<Value>)
    ensures forall v: Value :: v in r <==> v.Ref? && v.id in ids
  {
    var r := seq(|ids|, i requires 0 <= i < |ids| => Ref(ids[i]));
    assert forall v: Value :: v.Ref? && v.id in ids ==> v in r by {
      forall v: Value | v.Ref? && v.id in ids ensures v in r {
        var k :| 0 <= k < |ids| && ids[k] == v.id;
        assert r[k] == v;
      }
    }
    r
  }

  /** A product passes the store filters: its category is among the selected
      categories, when some were given, and its supplier among the selected
      suppliers, when some were given. */
  ghost predicate Selected(product: Row, categories: Option<seq<string>>, suppliers: Option<seq<Id>>) {
    && (categories.Some? ==> Lookup(product, "category").Str? && Lookup(product, "category").s in categories.value)
    && (suppliers.Some? ==> Lookup(product, "supplierId").Ref? && Lookup(product, "supplierId").id in suppliers.value)
  }

  /** `buildQuery(req)` from `req.query.categories` and `req.query.suppliers`:
      a category clause exactly when categories were given, a supplier clause
      exactly when suppliers were given, and nothing else. */
  method BuildQuery(categories: Option<seq<string>>, suppliers: Option<seq<Id>>) returns (query: Filter)
    ensures "category" in query <==> categories.Some?
    ensures "supplierId" in query <==> suppliers.Some?
    ensures query.Keys <= {"category", "supplierId"}
    ensures categories.None? && suppliers.None? ==> query == map[]
    ensures forall p: Row :: Matches(p, query) <==> Selected(p, categories, suppliers)
  {
    var supplierIds: Option<seq<Value>> := None;
    if suppliers.Some? {
      supplierIds := Some(Refs(suppliers.value));
    }
    query := map[];
    if categories.Some? {
      query := query["category" := In(Strs(categories.value))];
    }
    if supplierIds.Some? {
      query := query["supplierId" := In(supplierIds.value)];
    }
  }
}
