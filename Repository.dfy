/** The service's module-level `products` array with the seven route
    handlers as operations on it. */
module Repository {
  import opened Wrappers
  import opened Catalog
  import opened Queries
  import opened Updates

  /** The collection the handlers share, in insertion order. */
  class Store {
    var products: seq<Product>

    /** The collection starts empty when the process starts. */
    constructor ()
      ensures products == []
    {
      products := [];
    }

    /** POST /products: appends the record as it is, with no id check. */
    method Insert(p: Product) returns (stored: Product)
      modifies this
      ensures products == old(products) + [p]
      ensures stored == p
    {
      products := products + [p];
      stored := p;
    }

    /** DELETE /products/:id: drops every record with that id and always
        succeeds, whether or not one matched. */
    method Delete(key: Parsed<int>)
      modifies this
      ensures products == Deleted(old(products), key)
      ensures forall p :: p in products <==> p in old(products) && !HasId(p, key)
      ensures IsSubsequence(products, old(products))
      ensures Lookup(old(products), key) == None ==> products == old(products)
    {
      ghost var before := products;
      products := Keep(products, IdIsNot(key));
      if Lookup(before, key) == None {
        DeletedMissing(before, key);
      }
    }

    /** GET /products: the records every supplied filter admits, in order. */
    function List(q: Query): (r: seq<Product>)
      reads this
      ensures forall p :: p in r <==> p in products && Wanted(q, p)
      ensures IsSubsequence(r, products)
      ensures r == Keep(products, AllOf(q))
    {
      ListingOrder(products, [], q);
      ListingIsOneFilter(products, q);
      Listing(products, q)
    }

    /** GET /products/:id: the first record with that id, or None (404). */
    function GetById(key: Parsed<int>): (r: Option<Product>)
      reads this
      ensures r.None? <==> forall j :: 0 <= j < |products| ==> !HasId(products[j], key)
      ensures r.Some? ==> exists i :: IsFirstMatch(products, key, i) && r.value == products[i]
    {
      Lookup(products, key)
    }

    /** PUT /products/:id: rebuilds the first match from the path id and
        the body; None (404) and no change when nothing matches. */
    method Replace(key: Parsed<int>, body: Body) returns (r: Option<Product>)
      modifies this
      ensures products == Replaced(old(products), key, body)
      ensures |products| == |old(products)|
      ensures forall j :: 0 <= j < |products| ==>
        products[j] == if IsFirstMatch(old(products), key, j) then FromBody(old(products)[j].id, body) else old(products)[j]
      ensures r == Lookup(products, key)
      ensures r.None? <==> Lookup(old(products), key).None?
    {
      ghost var before := products;
      var found := FirstMatch(products, key);
      if found.None? {
        return None;
      }
      var i := found.value;
      var record := FromBody(key.value, body);
      products := products[i := record];
      r := Some(record);
      forall j | 0 <= j < |products|
        ensures products[j] == if IsFirstMatch(before, key, j) then FromBody(before[j].id, body) else before[j]
      {
        ReplacedAt(before, key, body, j);
      }
      LookupAfterReplace(before, key, body);
    }

    /** PATCH /products/:id/preco: sets the first match's price to exactly
        preco; None (404) and no change when nothing matches. */
    method PatchPrice(key: Parsed<int>, preco: real) returns (r: Option<Product>)
      modifies this
      ensures products == PricePatched(old(products), key, preco)
      ensures |products| == |old(products)|
      ensures forall j :: 0 <= j < |products| ==>
        products[j] == if IsFirstMatch(old(products), key, j) then old(products)[j].(preco := preco) else old(products)[j]
      ensures r == Lookup(products, key)
      ensures r.None? <==> Lookup(old(products), key).None?
    {
      ghost var before := products;
      var found := FirstMatch(products, key);
      if found.None? {
        return None;
      }
      var i := found.value;
      var product := products[i].(preco := preco);
      assert Lookup(before, key) == Some(before[i]);
      products := products[i := product];
      assert products == PricePatched(before, key, preco);
      r := Some(product);
      forall j | 0 <= j < |products|
        ensures products[j] == if IsFirstMatch(before, key, j) then before[j].(preco := preco) else before[j]
      {
        PricePatchedAt(before, key, preco, j);
      }
      LookupAfterPricePatch(before, key, preco);
    }

    /** PATCH /products/:id/estoque: adds quantidade to the first match's
        stock, with no floor; None (404) and no change when nothing matches. */
    method PatchQuantity(key: Parsed<int>, quantidade: int) returns (r: Option<Product>)
      modifies this
      ensures products == StockPatched(old(products), key, quantidade)
      ensures |products| == |old(products)|
      ensures forall j :: 0 <= j < |products| ==>
        products[j] == if IsFirstMatch(old(products), key, j)
          then old(products)[j].(quantidade := old(products)[j].quantidade + quantidade)
          else old(products)[j]
      ensures r == Lookup(products, key)
      ensures r.None? <==> Lookup(old(products), key).None?
    {
      ghost var before := products;
      var found := FirstMatch(products, key);
      if found.None? {
        return None;
      }
      var i := found.value;
      var product := products[i].(quantidade := products[i].quantidade + quantidade);
      assert Lookup(before, key) == Some(before[i]);
      products := products[i := product];
      assert products == StockPatched(before, key, quantidade);
      r := Some(product);
      forall j | 0 <= j < |products|
        ensures products[j] == if IsFirstMatch(before, key, j)
          then before[j].(quantidade := before[j].quantidade + quantidade)
          else before[j]
      {
        StockPatchedAt(before, key, quantidade, j);
      }
      LookupAfterStockPatch(before, key, quantidade);
    }
  }

  /** A client of the store: create, read, adjust the stock, delete, read again. */
  method MouseScenario()
  {
    var store := new Store();
    var mouse := Product(1, "Mouse", "", 50.0, 5, "", 4.5);
    var created := store.Insert(mouse);
    assert store.GetById(Num(1)) == Some(mouse);
    var adjusted := store.PatchQuantity(Num(1), -2);
    assert adjusted == Some(mouse.(quantidade := 3));
    store.Delete(Num(1));
    assert store.GetById(Num(1)) == None;
  }
}
