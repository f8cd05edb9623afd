/** The state changes of the DELETE, PUT and two PATCH handlers, as
    functions from the collection before the request to the one after. */
module Updates {
  import opened Wrappers
  import opened Catalog
  import opened Queries

  // ---------------------------------------------------------------------
  // Writing the first match

  /** `products[i] = q` at the first match i; nothing changes when there is none. */
  function Overwrite(s: seq<Product>, key: Parsed<int>, q: Product): (r: seq<Product>)
    ensures |r| == |s|
  {
    match FirstMatch(s, key)
    case None => s
    case Some(i) => s[i := q]
  }

  /** Exactly the first matching index receives q; every other index keeps its record. */
  lemma OverwriteAt(s: seq<Product>, key: Parsed<int>, q: Product, j: int)
    requires 0 <= j < |s|
    ensures Overwrite(s, key, q)[j] == if IsFirstMatch(s, key, j) then q else s[j]
  {
    match FirstMatch(s, key)
    case None =>
    case Some(i) =>
      if IsFirstMatch(s, key, j) {
        FirstMatchUnique(s, key, i, j);
      }
  }

  /** A record written with the looked-up id is what the next lookup finds. */
  lemma LookupAfterOverwrite(s: seq<Product>, key: Parsed<int>, q: Product)
    requires key == Num(q.id)
    ensures Lookup(Overwrite(s, key, q), key) == if Lookup(s, key).Some? then Some(q) else None
  {
    match FirstMatch(s, key)
    case None =>
    case Some(i) =>
      var t := s[i := q];
      assert forall j :: 0 <= j < |s| ==> t[j].id == s[j].id;
      FirstMatchSameIds(s, t, key);
  }

  /** A second write to the same id replaces the first one outright. */
  lemma OverwriteTwice(s: seq<Product>, key: Parsed<int>, q1: Product, q2: Product)
    requires key == Num(q1.id)
    ensures Overwrite(Overwrite(s, key, q1), key, q2) == Overwrite(s, key, q2)
  {
    match FirstMatch(s, key)
    case None =>
    case Some(i) =>
      var t := s[i := q1];
      assert forall j :: 0 <= j < |s| ==> t[j].id == s[j].id;
      FirstMatchSameIds(s, t, key);
      assert t[i := q2] == s[i := q2];
  }

  // ---------------------------------------------------------------------
  // DELETE /products/:id

  /** `products.filter(prod => prod.id !== key)`: every matching record goes,
      the others stay in their order. */
  function Deleted(s: seq<Product>, key: Parsed<int>): (r: seq<Product>)
    ensures forall p :: p in r <==> p in s && !HasId(p, key)
    ensures IsSubsequence(r, s)
  {
    KeepIsSubsequence(s, IdIsNot(key));
    Keep(s, IdIsNot(key))
  }

  /** After a delete no record with that id can be found. */
  lemma LookupAfterDelete(s: seq<Product>, key: Parsed<int>)
    ensures Lookup(Deleted(s, key), key) == None
  {
    var r := Deleted(s, key);
    assert forall j :: 0 <= j < |r| ==> r[j] in r;
  }

  /** A delete that matches nothing (also a NaN id) leaves the collection as it was. */
  lemma DeletedMissing(s: seq<Product>, key: Parsed<int>)
    requires Lookup(s, key) == None
    ensures Deleted(s, key) == s
  {
    KeepAll(s, IdIsNot(key));
  }

  /** Deleting the same id twice is deleting it once. */
  lemma DeletedIdempotent(s: seq<Product>, key: Parsed<int>)
    ensures Deleted(Deleted(s, key), key) == Deleted(s, key)
  {
    LookupAfterDelete(s, key);
    DeletedMissing(Deleted(s, key), key);
  }

  // ---------------------------------------------------------------------
  // PUT /products/:id

  /** The first match is rebuilt from the path id and the body; nothing
      changes when no record matches (a NaN id matches nothing). */
  function Replaced(s: seq<Product>, key: Parsed<int>, b: Body): (r: seq<Product>)
    ensures |r| == |s|
    ensures forall j :: 0 <= j < |s| ==> r[j].id == s[j].id
    ensures Lookup(s, key).None? ==> r == s
  {
    match key
    case NaN => s
    case Num(k) => Overwrite(s, key, FromBody(k, b))
  }

  /** Only the first matching index changes, to the id it had and the
      body's six fields; length and all other indices stay. */
  lemma ReplacedAt(s: seq<Product>, key: Parsed<int>, b: Body, j: int)
    requires 0 <= j < |s|
    ensures |Replaced(s, key, b)| == |s|
    ensures Replaced(s, key, b)[j] == if IsFirstMatch(s, key, j) then FromBody(s[j].id, b) else s[j]
  {
    match key
    case NaN =>
    case Num(k) => OverwriteAt(s, key, FromBody(k, b), j);
  }

  /** A replacement of a missing id is a no-op. */
  lemma ReplacedMissing(s: seq<Product>, key: Parsed<int>, b: Body)
    requires Lookup(s, key) == None
    ensures Replaced(s, key, b) == s
  {
  }

  /** The record the handler answers with is what a later GET returns. */
  lemma LookupAfterReplace(s: seq<Product>, key: Parsed<int>, b: Body)
    ensures Lookup(Replaced(s, key, b), key) ==
      match Lookup(s, key)
      case None => None
      case Some(p) => Some(FromBody(p.id, b))
  {
    match key
    case NaN =>
    case Num(k) => LookupAfterOverwrite(s, key, FromBody(k, b));
  }

  /** Repeating a replacement changes nothing more. */
  lemma ReplacedIdempotent(s: seq<Product>, key: Parsed<int>, b: Body)
    ensures Replaced(Replaced(s, key, b), key, b) == Replaced(s, key, b)
  {
    match key
    case NaN =>
    case Num(k) => OverwriteTwice(s, key, FromBody(k, b), FromBody(k, b));
  }

  // ---------------------------------------------------------------------
  // PATCH /products/:id/preco

  /** `product.preco = preco` on the record `find` returns. */
  function PricePatched(s: seq<Product>, key: Parsed<int>, preco: real): (r: seq<Product>)
    ensures |r| == |s|
    ensures forall j :: 0 <= j < |s| ==> r[j] == s[j].(preco := r[j].preco)
    ensures Lookup(s, key).None? ==> r == s
  {
    match Lookup(s, key)
    case None => s
    case Some(p) => Overwrite(s, key, p.(preco := preco))
  }

  /** Only the first match's price changes, to exactly preco. */
  lemma PricePatchedAt(s: seq<Product>, key: Parsed<int>, preco: real, j: int)
    requires 0 <= j < |s|
    ensures |PricePatched(s, key, preco)| == |s|
    ensures PricePatched(s, key, preco)[j] == if IsFirstMatch(s, key, j) then s[j].(preco := preco) else s[j]
  {
    match Lookup(s, key)
    case None =>
    case Some(p) =>
      OverwriteAt(s, key, p.(preco := preco), j);
      if IsFirstMatch(s, key, j) {
        var i :| IsFirstMatch(s, key, i) && p == s[i];
        FirstMatchUnique(s, key, i, j);
      }
  }

  /** The record the handler answers with is what a later GET returns. */
  lemma LookupAfterPricePatch(s: seq<Product>, key: Parsed<int>, preco: real)
    ensures Lookup(PricePatched(s, key, preco), key) ==
      match Lookup(s, key)
      case None => None
      case Some(p) => Some(p.(preco := preco))
  {
    match Lookup(s, key)
    case None =>
    case Some(p) => LookupAfterOverwrite(s, key, p.(preco := preco));
  }

  /** The price is set, not adjusted: the last patch wins, and repeating
      a patch is idempotent. */
  lemma PricePatchedTwice(s: seq<Product>, key: Parsed<int>, first: real, second: real)
    ensures PricePatched(PricePatched(s, key, first), key, second) == PricePatched(s, key, second)
    ensures PricePatched(PricePatched(s, key, second), key, second) == PricePatched(s, key, second)
  {
    match Lookup(s, key)
    case None =>
    case Some(p) =>
      LookupAfterOverwrite(s, key, p.(preco := first));
      OverwriteTwice(s, key, p.(preco := first), p.(preco := second));
      LookupAfterOverwrite(s, key, p.(preco := second));
      OverwriteTwice(s, key, p.(preco := second), p.(preco := second));
  }

  // ---------------------------------------------------------------------
  // PATCH /products/:id/estoque

  /** `product.quantidade += quantidade` on the record `find` returns. */
  function StockPatched(s: seq<Product>, key: Parsed<int>, delta: int): (r: seq<Product>)
    ensures |r| == |s|
    ensures forall j :: 0 <= j < |s| ==> r[j] == s[j].(quantidade := r[j].quantidade)
    ensures Lookup(s, key).None? ==> r == s
  {
    match Lookup(s, key)
    case None => s
    case Some(p) => Overwrite(s, key, p.(quantidade := p.quantidade + delta))
  }

  /** Only the first match's stock changes, by exactly delta. */
  lemma StockPatchedAt(s: seq<Product>, key: Parsed<int>, delta: int, j: int)
    requires 0 <= j < |s|
    ensures |StockPatched(s, key, delta)| == |s|
    ensures StockPatched(s, key, delta)[j] ==
      if IsFirstMatch(s, key, j) then s[j].(quantidade := s[j].quantidade + delta) else s[j]
  {
    match Lookup(s, key)
    case None =>
    case Some(p) =>
      OverwriteAt(s, key, p.(quantidade := p.quantidade + delta), j);
      if IsFirstMatch(s, key, j) {
        var i :| IsFirstMatch(s, key, i) && p == s[i];
        FirstMatchUnique(s, key, i, j);
      }
  }

  /** The record the handler answers with is what a later GET returns. */
  lemma LookupAfterStockPatch(s: seq<Product>, key: Parsed<int>, delta: int)
    ensures Lookup(StockPatched(s, key, delta), key) ==
      match Lookup(s, key)
      case None => None
      case Some(p) => Some(p.(quantidade := p.quantidade + delta))
  {
    match Lookup(s, key)
    case None =>
    case Some(p) =>
      var i :| IsFirstMatch(s, key, i) && p == s[i];
      var q := p.(quantidade := p.quantidade + delta);
      assert StockPatched(s, key, delta) == Overwrite(s, key, q);
      LookupAfterOverwrite(s, key, q);
  }

  /** The stock is adjusted, not set: two patches add up. */
  lemma StockPatchedTwice(s: seq<Product>, key: Parsed<int>, first: int, second: int)
    ensures StockPatched(StockPatched(s, key, first), key, second) == StockPatched(s, key, first + second)
  {
    match Lookup(s, key)
    case None =>
    case Some(p) =>
      var i :| IsFirstMatch(s, key, i) && p == s[i];
      var q1 := p.(quantidade := p.quantidade + first);
      var q2 := q1.(quantidade := q1.quantidade + second);
      assert q2 == p.(quantidade := p.quantidade + (first + second));
      var t := Overwrite(s, key, q1);
      assert StockPatched(s, key, first) == t;
      LookupAfterOverwrite(s, key, q1);
      assert StockPatched(t, key, second) == Overwrite(t, key, q2);
      OverwriteTwice(s, key, q1, q2);
  }

  /** An illustration of StockPatchedAt on one input: there is no floor,
      so a stock of 5 patched by -7 becomes -2. */
  lemma StockHasNoFloor()
    ensures StockPatched([Product(1, "Mouse", "", 50.0, 5, "", 4.5)], Num(1), -7)[0].quantidade == -2
  {
    StockPatchedAt([Product(1, "Mouse", "", 50.0, 5, "", 4.5)], Num(1), -7, 0);
  }
}
