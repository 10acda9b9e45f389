/** The product store: an ordered collection of product records held in
    memory and written back in full to one JSON file after every successful
    change. Ids are assigned by the store; codes must be present, numeric
    and not already in use. */
module Products {

  import opened Outcomes
  import opened JsValues
  import opened Search
  import opened DocumentStore
  import Ids

  /** A stored product record. Every field except `id` keeps whatever value
      the request body carried. */
  datatype Product = Product(
    id: int,
    title: JsValue,
    description: JsValue,
    price: JsValue,
    thumbnail: JsValue,
    code: JsValue,
    stock: JsValue)

  /** The body of an add request; a key it does not carry is `Undefined`.
      `id` is listed only to show that it is never read. */
  datatype NewProduct = NewProduct(
    id: JsValue,
    title: JsValue,
    description: JsValue,
    price: JsValue,
    thumbnail: JsValue,
    code: JsValue,
    stock: JsValue)

  /** The body of an update request: `None` for a key it does not carry. */
  datatype ProductPatch = ProductPatch(
    id: Option<int>,
    title: Option<JsValue>,
    description: Option<JsValue>,
    price: Option<JsValue>,
    thumbnail: Option<JsValue>,
    code: Option<JsValue>,
    stock: Option<JsValue>)

  /** The errors the store throws. */
  datatype ProductError =
    | MissingData              // "Missing data"
    | DuplicateCode(code: JsValue)  // "The code <code> already exists"
    | CodeNotNumber            // "The code must be a number"
    | ProductNotFound(id: int) // "No product found with id <id>"

  function ProductIds(ps: seq<Product>): seq<int>
  {
    Ids.IdsOf(ps, (p: Product) => p.id)
  }

  /** The strict-equality test `product => product.id === id`. */
  function HasId(id: int): Product -> bool
  {
    (p: Product) => p.id == id
  }

  /** The strict-equality test `product => product.code === code`. */
  function HasCode(code: JsValue): Product -> bool
  {
    (p: Product) => p.code == code
  }

  predicate UniqueIds(ps: seq<Product>)
  {
    forall i, j :: 0 <= i < j < |ps| ==> ps[i].id != ps[j].id
  }

  predicate UniqueCodes(ps: seq<Product>)
  {
    forall i, j :: 0 <= i < j < |ps| ==> ps[i].code != ps[j].code
  }

  /** The six fields an add request must carry, each truthy. */
  predicate HasRequiredFields(c: NewProduct)
  {
    && Truthy(c.title) && Truthy(c.description) && Truthy(c.price)
    && Truthy(c.thumbnail) && Truthy(c.code) && Truthy(c.stock)
  }

  /** The checks of an add request against collection `ps`, in the order
      the store makes them: missing data, then a duplicate code, then a code
      that is not a number. */
  function CheckNewProduct(ps: seq<Product>, c: NewProduct): (r: Outcome<ProductError>)
    ensures r == Pass <==>
      && HasRequiredFields(c)
      && (forall i :: 0 <= i < |ps| ==> ps[i].code != c.code)
      && IsNumeric(c.code)
    ensures !HasRequiredFields(c) ==> r == Fail(MissingData)
    ensures HasRequiredFields(c) && (exists i :: 0 <= i < |ps| && ps[i].code == c.code) ==>
      r == Fail(DuplicateCode(c.code))
    ensures HasRequiredFields(c) && (forall i :: 0 <= i < |ps| ==> ps[i].code != c.code) && !IsNumeric(c.code) ==>
      r == Fail(CodeNotNumber)
  {
    if !HasRequiredFields(c) then Fail(MissingData)
    else if FindIndex(ps, HasCode(c.code)) != -1 then Fail(DuplicateCode(c.code))
    else if !IsNumeric(c.code) then Fail(CodeNotNumber)
    else Pass
  }

  /** The record an accepted add request appends to `ps`. */
  function NewRecord(ps: seq<Product>, c: NewProduct): Product
  {
    Product(Ids.NextId(ProductIds(ps)), c.title, c.description, c.price, c.thumbnail, c.code, c.stock)
  }

  function Pick<T>(patched: Option<T>, current: T): T
  {
    match patched
    case Some(v) => v
    case None => current
  }

  /** `{ ...p, ...patch }`: the shallow merge of an update. */
  function Merge(p: Product, patch: ProductPatch): Product
  {
    Product(
      Pick(patch.id, p.id),
      Pick(patch.title, p.title),
      Pick(patch.description, p.description),
      Pick(patch.price, p.price),
      Pick(patch.thumbnail, p.thumbnail),
      Pick(patch.code, p.code),
      Pick(patch.stock, p.stock))
  }

  /** `ps.splice(i, 1)`: the collection without its element at `i`, the rest
      in their order. */
  function RemoveAt(ps: seq<Product>, i: nat): (r: seq<Product>)
    requires i < |ps|
    ensures |r| == |ps| - 1
    ensures forall j :: 0 <= j < i ==> r[j] == ps[j]
    ensures forall j :: i <= j < |r| ==> r[j] == ps[j + 1]
  {
    ps[..i] + ps[i + 1..]
  }

  class ProductManager {
    const path: string
    /** The collection, in order. */
    var products: seq<Product>
    /** What the file at `path` holds as far as the store knows: the
        collection last written, or `None` when the file was absent or did
        not parse at load time and nothing has been written since. */
    ghost var saved: Option<seq<Product>>

    /** The file and the collection agree: loading the file again gives
        back the collection the store holds. */
    ghost predicate Synced()
      reads this
    {
      Load(saved) == products
    }

    /** A store whose load of the file has completed, `stored` being what
        the file held (`None`: absent or unparseable). */
    constructor (path: string, stored: Option<seq<Product>>)
      ensures this.path == path
      ensures products == Load(stored) && saved == stored
      ensures Synced()
    {
      this.path := path;
      products := Load(stored);
      saved := stored;
    }

    /** The id of the next record: above every id present, 1 when empty. */
    function GenerateId(): (id: int)
      reads this
      ensures forall i :: 0 <= i < |products| ==> products[i].id < id
      ensures |products| == 0 ==> id == 1
    {
      Ids.NextId(ProductIds(products))
    }

    method AddProduct(candidate: NewProduct) returns (r: Outcome<ProductError>)
      requires Synced()
      modifies this
      ensures Synced()
      ensures r == CheckNewProduct(old(products), candidate)
      ensures r.Fail? ==> products == old(products) && saved == old(saved)
      ensures r.Pass? ==>
        && products == old(products) + [NewRecord(old(products), candidate)]
        && saved == Some(products)
      ensures r.Pass? && UniqueIds(old(products)) ==> UniqueIds(products)
      ensures r.Pass? && UniqueCodes(old(products)) ==> UniqueCodes(products)
    {
      if !HasRequiredFields(candidate) {
        return Fail(MissingData);
      }
      var duplicate := FindIndex(products, HasCode(candidate.code));
      if duplicate != -1 {
        return Fail(DuplicateCode(candidate.code));
      }
      if !IsNumeric(candidate.code) {
        return Fail(CodeNotNumber);
      }
      var product := Product(GenerateId(), candidate.title, candidate.description,
                             candidate.price, candidate.thumbnail, candidate.code, candidate.stock);
      AddKeepsUnique(products, candidate);
      products := products + [product];
      saved := Some(products);
      r := Pass;
    }

    method GetProducts() returns (ps: seq<Product>)
      ensures ps == products
    {
      ps := products;
    }

    method GetProductById(id: int) returns (r: Result<Product, ProductError>)
      ensures r.Success? <==> exists i :: 0 <= i < |products| && products[i].id == id
      ensures r.Success? ==>
        && r.value.id == id
        && exists i :: 0 <= i < |products| && products[i] == r.value &&
             forall j :: 0 <= j < i ==> products[j].id != id
      ensures r.Failure? ==> r.error == ProductNotFound(id)
    {
      var i := FindIndex(products, HasId(id));
      if i == -1 {
        return Failure(ProductNotFound(id));
      }
      return Success(products[i]);
    }

    method UpdateProduct(id: int, patch: ProductPatch) returns (r: Outcome<ProductError>)
      requires Synced()
      modifies this
      ensures Synced()
      ensures var i := FindIndex(old(products), HasId(id));
        if i == -1 then
          r == Fail(ProductNotFound(id)) && products == old(products) && saved == old(saved)
        else
          && r == Pass
          && products == old(products)[i := Merge(old(products)[i], patch)]
          && saved == Some(products)
    {
      var index := FindIndex(products, HasId(id));
      if index == -1 {
        return Fail(ProductNotFound(id));
      }
      products := products[index := Merge(products[index], patch)];
      saved := Some(products);
      r := Pass;
    }

    method DeleteProduct(id: int) returns (r: Outcome<ProductError>)
      requires Synced()
      modifies this
      ensures Synced()
      ensures var i := FindIndex(old(products), HasId(id));
        if i == -1 then
          r == Fail(ProductNotFound(id)) && products == old(products) && saved == old(saved)
        else
          r == Pass && products == RemoveAt(old(products), i) && saved == Some(products)
    {
      var index := FindIndex(products, HasId(id));
      if index == -1 {
        return Fail(ProductNotFound(id));
      }
      products := RemoveAt(products, index);
      saved := Some(products);
      r := Pass;
    }
  }

  // ---------------------------------------------------------------------
  // Adding

  /** The appended record has a fresh id, copies the six fields of the
      request and does not depend on any id the request carries. */
  lemma NewRecordIsFreshCopy(ps: seq<Product>, c: NewProduct, otherId: JsValue)
    ensures forall i :: 0 <= i < |ps| ==> ps[i].id != NewRecord(ps, c).id
    ensures NewRecord(ps, c.(id := otherId)) == NewRecord(ps, c)
    ensures var p := NewRecord(ps, c);
      && p.title == c.title && p.description == c.description && p.price == c.price
      && p.thumbnail == c.thumbnail && p.code == c.code && p.stock == c.stock
  {
  }

  /** A price or a stock of 0 is falsy, so such a request is refused as
      missing data. */
  lemma ZeroPriceOrStockRejected(ps: seq<Product>, c: NewProduct)
    requires c.price == Num(0) || c.stock == Num(0)
    ensures CheckNewProduct(ps, c) == Fail(MissingData)
  {
  }

  /** An accepted add keeps ids and codes unique. */
  lemma AddKeepsUnique(ps: seq<Product>, c: NewProduct)
    requires CheckNewProduct(ps, c) == Pass
    ensures UniqueIds(ps) ==> UniqueIds(ps + [NewRecord(ps, c)])
    ensures UniqueCodes(ps) ==> UniqueCodes(ps + [NewRecord(ps, c)])
  {
    var p := NewRecord(ps, c);
    var qs := ps + [p];
    assert forall i :: 0 <= i < |ps| ==> qs[i] == ps[i] && ps[i].id != p.id && ps[i].code != p.code;
  }

  /** After an accepted add, looking up the new id finds the new record. */
  lemma LookupAfterAdd(ps: seq<Product>, c: NewProduct)
    ensures var p := NewRecord(ps, c);
      FindIndex(ps + [p], HasId(p.id)) == |ps|
  {
    var ids := ProductIds(ps);
    var p := NewRecord(ps, c);
    assert forall j :: 0 <= j < |ps| ==> ids[j] < p.id;
    var matches := HasId(p.id);
    forall j | 0 <= j < |ps|
      ensures !matches(ps[j])
    {
      assert ids[j] == ps[j].id;
    }
    FindIndexAppend(ps, p, matches);
  }

  // ---------------------------------------------------------------------
  // Updating

  /** The patch that carries no key. */
  const NoChanges := ProductPatch(None, None, None, None, None, None, None)

  /** Shallow merge: a key of the patch wins, a key it does not carry keeps
      its value; an empty patch changes nothing; merging twice is merging once. */
  lemma MergeLaws(p: Product, patch: ProductPatch)
    ensures var m := Merge(p, patch);
      && (patch.id.Some? ==> m.id == patch.id.value) && (patch.id.None? ==> m.id == p.id)
      && (patch.title.Some? ==> m.title == patch.title.value) && (patch.title.None? ==> m.title == p.title)
      && (patch.description.Some? ==> m.description == patch.description.value)
      && (patch.description.None? ==> m.description == p.description)
      && (patch.price.Some? ==> m.price == patch.price.value) && (patch.price.None? ==> m.price == p.price)
      && (patch.thumbnail.Some? ==> m.thumbnail == patch.thumbnail.value)
      && (patch.thumbnail.None? ==> m.thumbnail == p.thumbnail)
      && (patch.code.Some? ==> m.code == patch.code.value) && (patch.code.None? ==> m.code == p.code)
      && (patch.stock.Some? ==> m.stock == patch.stock.value) && (patch.stock.None? ==> m.stock == p.stock)
    ensures Merge(p, NoChanges) == p
    ensures Merge(Merge(p, patch), patch) == Merge(p, patch)
  {
  }

  /** A patch carrying only a price changes only the price. */
  lemma PriceOnlyPatch(p: Product, price: JsValue)
    ensures Merge(p, NoChanges.(price := Some(price))) == p.(price := price)
  {
  }

  /** When the patch leaves the id alone (or repeats it), the record is still
      found at the same place, now merged, and the collection keeps its length. */
  lemma LookupAfterUpdate(ps: seq<Product>, id: int, patch: ProductPatch)
    requires FindIndex(ps, HasId(id)) != -1
    requires patch.id == None || patch.id == Some(id)
    ensures var i := FindIndex(ps, HasId(id));
      var qs := ps[i := Merge(ps[i], patch)];
      FindIndex(qs, HasId(id)) == i && qs[i] == Merge(ps[i], patch)
  {
    var i := FindIndex(ps, HasId(id));
    var qs := ps[i := Merge(ps[i], patch)];
    assert HasId(id)(qs[i]);
    assert forall j :: 0 <= j < i ==> qs[j] == ps[j] && !HasId(id)(qs[j]);
  }

  /** A patch that carries a different id moves the record to that id: with
      unique ids the old id is no longer found, and when the new id belongs
      to another record, ids are no longer unique. */
  lemma UpdateCanReassignId(ps: seq<Product>, id: int, patch: ProductPatch)
    requires UniqueIds(ps)
    requires FindIndex(ps, HasId(id)) != -1
    requires patch.id.Some? && patch.id.value != id
    ensures var i := FindIndex(ps, HasId(id));
      var qs := ps[i := Merge(ps[i], patch)];
      && FindIndex(qs, HasId(id)) == -1
      && ((exists j :: 0 <= j < |ps| && j != i && ps[j].id == patch.id.value) ==> !UniqueIds(qs))
  {
    var i := FindIndex(ps, HasId(id));
    var qs := ps[i := Merge(ps[i], patch)];
    forall j | 0 <= j < |qs|
      ensures !HasId(id)(qs[j])
    {
      if j != i {
        assert ps[j].id != ps[i].id by {
          if j < i { assert ps[j].id != ps[i].id; } else { assert ps[i].id != ps[j].id; }
        }
      }
    }
    if exists j :: 0 <= j < |ps| && j != i && ps[j].id == patch.id.value {
      var j :| 0 <= j < |ps| && j != i && ps[j].id == patch.id.value;
      assert qs[j].id == qs[i].id;
      if j < i {
        assert !(qs[j].id != qs[i].id);
      } else {
        assert !(qs[i].id != qs[j].id);
      }
    }
  }

  /** An update keeps ids unique exactly when its patch leaves the id alone,
      repeats it, or moves the record to an id no other record holds (the
      converse of `UpdateCanReassignId`). */
  lemma UpdateKeepsUniqueIds(ps: seq<Product>, id: int, patch: ProductPatch)
    requires UniqueIds(ps)
    requires FindIndex(ps, HasId(id)) != -1
    requires var i := FindIndex(ps, HasId(id));
      || patch.id.None?
      || patch.id.value == id
      || forall j :: 0 <= j < |ps| && j != i ==> ps[j].id != patch.id.value
    ensures var i := FindIndex(ps, HasId(id));
      UniqueIds(ps[i := Merge(ps[i], patch)])
  {
    var i := FindIndex(ps, HasId(id));
    var qs := ps[i := Merge(ps[i], patch)];
    forall a, b | 0 <= a < b < |qs|
      ensures qs[a].id != qs[b].id
    {
      if a != i && b != i {
        assert qs[a] == ps[a] && qs[b] == ps[b];
      } else if a == i {
        assert qs[b] == ps[b] && ps[a].id != ps[b].id;
      } else {
        assert qs[a] == ps[a] && ps[a].id != ps[b].id;
      }
    }
  }

  /** An update keeps codes unique when its patch carries no code, repeats
      the record's code, or carries a code no other record holds (the
      converse of `UpdateCanDuplicateCode`). */
  lemma UpdateKeepsUniqueCodes(ps: seq<Product>, id: int, patch: ProductPatch)
    requires UniqueCodes(ps)
    requires FindIndex(ps, HasId(id)) != -1
    requires var i := FindIndex(ps, HasId(id));
      || patch.code.None?
      || patch.code.value == ps[i].code
      || forall j :: 0 <= j < |ps| && j != i ==> ps[j].code != patch.code.value
    ensures var i := FindIndex(ps, HasId(id));
      UniqueCodes(ps[i := Merge(ps[i], patch)])
  {
    var i := FindIndex(ps, HasId(id));
    var qs := ps[i := Merge(ps[i], patch)];
    forall a, b | 0 <= a < b < |qs|
      ensures qs[a].code != qs[b].code
    {
      if a != i && b != i {
        assert qs[a] == ps[a] && qs[b] == ps[b];
      } else if a == i {
        assert qs[b] == ps[b] && ps[a].code != ps[b].code;
      } else {
        assert qs[a] == ps[a] && ps[a].code != ps[b].code;
      }
    }
  }

  /** Updates never check codes: with unique codes, a patch carrying the
      code of another record leaves two records with that code. Unique
      codes are kept by adds only. */
  lemma UpdateCanDuplicateCode(ps: seq<Product>, id: int, patch: ProductPatch, j: nat)
    requires UniqueCodes(ps)
    requires FindIndex(ps, HasId(id)) != -1
    requires j < |ps| && j != FindIndex(ps, HasId(id))
    requires patch.code == Some(ps[j].code)
    ensures var i := FindIndex(ps, HasId(id));
      var qs := ps[i := Merge(ps[i], patch)];
      && qs[i].code == qs[j].code
      && !UniqueCodes(qs)
  {
    var i := FindIndex(ps, HasId(id));
    var qs := ps[i := Merge(ps[i], patch)];
    assert qs[i].code == qs[j].code;
    if j < i {
      assert !(qs[j].code != qs[i].code);
    } else {
      assert !(qs[i].code != qs[j].code);
    }
  }

  // ---------------------------------------------------------------------
  // Deleting

  /** Putting the removed record back where it was gives the collection as
      it was before the delete. */
  lemma RemoveAtUndone(ps: seq<Product>, i: nat)
    requires i < |ps|
    ensures RemoveAt(ps, i)[..i] + [ps[i]] + RemoveAt(ps, i)[i..] == ps
    ensures multiset(RemoveAt(ps, i)) + multiset{ps[i]} == multiset(ps)
  {
    var r := RemoveAt(ps, i);
    assert r[..i] == ps[..i];
    assert r[i..] == ps[i + 1..];
    assert ps == ps[..i] + [ps[i]] + ps[i + 1..];
  }

  /** With unique ids, a deleted id is no longer found, and ids and codes
      stay unique. */
  lemma LookupAfterDelete(ps: seq<Product>, id: int)
    requires UniqueIds(ps)
    requires FindIndex(ps, HasId(id)) != -1
    ensures var qs := RemoveAt(ps, FindIndex(ps, HasId(id)));
      && FindIndex(qs, HasId(id)) == -1
      && UniqueIds(qs)
      && (UniqueCodes(ps) ==> UniqueCodes(qs))
  {
    var i := FindIndex(ps, HasId(id));
    var qs := RemoveAt(ps, i);
    forall j | 0 <= j < |qs|
      ensures !HasId(id)(qs[j])
    {
      if j >= i {
        assert qs[j] == ps[j + 1];
        assert ps[i].id != ps[j + 1].id;
      }
    }
    forall a, b | 0 <= a < b < |qs|
      ensures qs[a].id != qs[b].id
      ensures UniqueCodes(ps) ==> qs[a].code != qs[b].code
    {
      var a' := if a < i then a else a + 1;
      var b' := if b < i then b else b + 1;
      assert qs[a] == ps[a'] && qs[b] == ps[b'] && a' < b';
    }
  }
}
