/** The read-only expressions of the handlers: `includes`, `filter`,
    `find`/`findIndex`, and the filtered listing of GET /products. */
module Queries {
  import opened Wrappers
  import opened Catalog

  // ---------------------------------------------------------------------
  // Substring test (`String.prototype.includes`)

  /** needle occupies the positions i .. i + |needle| - 1 of hay. */
  predicate OccursAt(hay: string, needle: string, i: int)
  {
    0 <= i && i + |needle| <= |hay| && hay[i..i + |needle|] == needle
  }

  /** `hay.includes(needle)`, case-sensitive; the empty needle is in every string. */
  predicate Contains(hay: string, needle: string)
    ensures needle == [] ==> Contains(hay, needle)
    ensures Contains(hay, needle) ==> |needle| <= |hay|
    decreases |hay|
  {
    needle <= hay || (hay != [] && Contains(hay[1..], needle))
  }

  /** An occurrence at position 0 is a prefix. */
  lemma OccursAtStart(hay: string, needle: string)
    ensures OccursAt(hay, needle, 0) <==> needle <= hay
  {
    if |needle| <= |hay| {
      assert hay[0..|needle|] == hay[..|needle|];
    }
  }

  /** Dropping the first character moves every occurrence one place left. */
  lemma OccursAtShift(hay: string, needle: string, i: int)
    requires hay != [] && 0 <= i
    ensures OccursAt(hay[1..], needle, i) <==> OccursAt(hay, needle, i + 1)
  {
    if 0 <= i && i + 1 + |needle| <= |hay| {
      assert hay[1..][i..i + |needle|] == hay[i + 1..i + 1 + |needle|];
    }
  }

  /** Contains finds the needle exactly when it occurs at some position. */
  lemma {:induction false} ContainsAt(hay: string, needle: string)
    ensures Contains(hay, needle) <==> exists i :: OccursAt(hay, needle, i)
    decreases |hay|
  {
    OccursAtStart(hay, needle);
    if hay == [] {
      assert forall i :: OccursAt(hay, needle, i) ==> i == 0;
    } else {
      var tail := hay[1..];
      ContainsAt(tail, needle);
      if Contains(hay, needle) && !(needle <= hay) {
        var i :| OccursAt(tail, needle, i);
        OccursAtShift(hay, needle, i);
      }
      if exists i :: OccursAt(hay, needle, i) {
        var i :| OccursAt(hay, needle, i);
        if i > 0 {
          OccursAtShift(hay, needle, i - 1);
        }
      }
    }
  }

  // ---------------------------------------------------------------------
  // Filtering (`Array.prototype.filter`)

  /** The predicates the handlers pass to `filter`, as data. */
  datatype Criterion =
    | Any
    | NameContains(needle: string)
    | PriceAtMost(max: Parsed<real>)
    | RatingAtLeast(min: Parsed<real>)
    | IdIsNot(key: Parsed<int>)
    | Both(left: Criterion, right: Criterion)

  /** Whether p passes c. A comparison with NaN is false, so a NaN bound
      admits nothing, while `!==` against NaN is true for every record. */
  predicate Holds(c: Criterion, p: Product)
    ensures c.PriceAtMost? && c.max == NaN ==> !Holds(c, p)
    ensures c.RatingAtLeast? && c.min == NaN ==> !Holds(c, p)
    ensures c.IdIsNot? && c.key == NaN ==> Holds(c, p)
  {
    match c
    case Any => true
    case NameContains(n) => Contains(p.nome, n)
    case PriceAtMost(m) => m.Num? && p.preco <= m.value
    case RatingAtLeast(m) => m.Num? && p.avaliacao >= m.value
    case IdIsNot(key) => !HasId(p, key)
    case Both(l, r) => Holds(l, p) && Holds(r, p)
  }

  /** r is s with some elements deleted, the rest in their original order. */
  predicate IsSubsequence<T(==)>(r: seq<T>, s: seq<T>)
    decreases |s|
  {
    r == [] || (s != [] && ((r[0] == s[0] && IsSubsequence(r[1..], s[1..])) || IsSubsequence(r, s[1..])))
  }

  /** `s.filter(p => Holds(c, p))`: a new sequence, s itself untouched. */
  function Keep(s: seq<Product>, c: Criterion): (r: seq<Product>)
    ensures |r| <= |s|
    ensures forall p :: p in r <==> p in s && Holds(c, p)
  {
    if s == [] then [] else (if Holds(c, s[0]) then [s[0]] else []) + Keep(s[1..], c)
  }

  /** Filtering keeps every passing record as many times as it occurs and
      drops every other one entirely. */
  lemma {:induction false} KeepCount(s: seq<Product>, c: Criterion, p: Product)
    ensures multiset(Keep(s, c))[p] == if Holds(c, p) then multiset(s)[p] else 0
  {
    if s != [] {
      KeepCount(s[1..], c, p);
      var head := if Holds(c, s[0]) then [s[0]] else [];
      assert s == [s[0]] + s[1..];
      assert multiset(s) == multiset([s[0]]) + multiset(s[1..]);
      assert multiset(Keep(s, c)) == multiset(head) + multiset(Keep(s[1..], c));
    }
  }

  /** Filtering keeps the relative order of the records it keeps. */
  lemma {:induction false} KeepIsSubsequence(s: seq<Product>, c: Criterion)
    ensures IsSubsequence(Keep(s, c), s)
  {
    if s != [] {
      KeepIsSubsequence(s[1..], c);
      var rest := Keep(s[1..], c);
      if Holds(c, s[0]) {
        assert Keep(s, c) == [s[0]] + rest;
        assert ([s[0]] + rest)[1..] == rest;
      } else {
        assert Keep(s, c) == rest;
        SubsequenceOfTail(rest, s);
      }
    }
  }

  /** A subsequence of the tail of s is a subsequence of s. */
  lemma SubsequenceOfTail(r: seq<Product>, s: seq<Product>)
    requires s != [] && IsSubsequence(r, s[1..])
    ensures IsSubsequence(r, s)
  {
  }

  /** Filtering a concatenation filters each part: the kept records of a
      come before those of b. */
  lemma {:induction false} KeepAppend(a: seq<Product>, b: seq<Product>, c: Criterion)
    ensures Keep(a + b, c) == Keep(a, c) + Keep(b, c)
  {
    if a == [] {
      assert a + b == b;
    } else {
      assert (a + b)[0] == a[0];
      assert (a + b)[1..] == a[1..] + b;
      KeepAppend(a[1..], b, c);
    }
  }

  /** Filtering with a criterion every record passes changes nothing. */
  lemma {:induction false} KeepAll(s: seq<Product>, c: Criterion)
    requires forall j :: 0 <= j < |s| ==> Holds(c, s[j])
    ensures Keep(s, c) == s
  {
    if s != [] {
      KeepAll(s[1..], c);
      assert [s[0]] + s[1..] == s;
    }
  }

  /** Filtering with a criterion no record passes leaves nothing. */
  lemma {:induction false} KeepNone(s: seq<Product>, c: Criterion)
    requires forall j :: 0 <= j < |s| ==> !Holds(c, s[j])
    ensures Keep(s, c) == []
  {
    if s != [] {
      KeepNone(s[1..], c);
    }
  }

  /** Two filters in a row are one filter by the conjunction. */
  lemma {:induction false} KeepKeep(s: seq<Product>, c1: Criterion, c2: Criterion)
    ensures Keep(Keep(s, c1), c2) == Keep(s, Both(c1, c2))
  {
    if s != [] {
      var head := if Holds(c1, s[0]) then [s[0]] else [];
      var rest := Keep(s[1..], c1);
      assert Keep(s, c1) == head + rest;
      KeepAppend(head, rest, c2);
      KeepKeep(s[1..], c1, c2);
      if Holds(c1, s[0]) {
        KeepOne(s[0], c2);
      }
    }
  }

  /** Filtering a single record keeps it exactly when it passes. */
  lemma KeepOne(x: Product, c: Criterion)
    ensures Keep([x], c) == if Holds(c, x) then [x] else []
  {
    assert [x][1..] == [];
  }

  // ---------------------------------------------------------------------
  // GET /products with the query parameters nome, precoMax, mediaAvaliacao

  /** The query string. `nome == ""` stands for a missing or empty `nome`
      (both falsy); None stands for a missing or empty threshold, and
      Some(NaN) for one `parseFloat` cannot read. */
  datatype Query = Query(
    nome: string,
    precoMax: Option<Parsed<real>>,
    mediaAvaliacao: Option<Parsed<real>>)

  /** The listing's test in plain words: every supplied filter holds; the
      bounds are inclusive and a NaN bound admits nothing. */
  predicate Wanted(q: Query, p: Product)
    ensures q == Query("", None, None) ==> Wanted(q, p)
    ensures q.precoMax == Some(NaN) || q.mediaAvaliacao == Some(NaN) ==> !Wanted(q, p)
  {
    && (q.nome != "" ==> Contains(p.nome, q.nome))
    && (q.precoMax.Some? ==> q.precoMax.value.Num? && p.preco <= q.precoMax.value.value)
    && (q.mediaAvaliacao.Some? ==> q.mediaAvaliacao.value.Num? && p.avaliacao >= q.mediaAvaliacao.value.value)
  }

  /** The three filters the handler applies one after the other; an absent
      parameter skips its filter. */
  function Listing(s: seq<Product>, q: Query): (r: seq<Product>)
    ensures forall p :: p in r <==> p in s && Wanted(q, p)
  {
    var byName := if q.nome != "" then Keep(s, NameContains(q.nome)) else s;
    var byPrice := match q.precoMax
      case None => byName
      case Some(m) => Keep(byName, PriceAtMost(m));
    match q.mediaAvaliacao
    case None => byPrice
    case Some(m) => Keep(byPrice, RatingAtLeast(m))
  }

  /** The single criterion that conjoins the supplied filters. */
  function AllOf(q: Query): (c: Criterion)
    ensures forall p :: Holds(c, p) <==> Wanted(q, p)
  {
    var byName := if q.nome != "" then NameContains(q.nome) else Any;
    var byPrice := match q.precoMax case None => Any case Some(m) => PriceAtMost(m);
    var byRating := match q.mediaAvaliacao case None => Any case Some(m) => RatingAtLeast(m);
    assert forall p :: Holds(Both(byName, byPrice), p) <==> Holds(byName, p) && Holds(byPrice, p);
    Both(Both(byName, byPrice), byRating)
  }

  /** The three successive filters are exactly one filter by their
      conjunction (the intersection of the supplied filters). */
  lemma ListingIsOneFilter(s: seq<Product>, q: Query)
    ensures Listing(s, q) == Keep(s, AllOf(q))
  {
    var c1 := if q.nome != "" then NameContains(q.nome) else Any;
    var c2 := match q.precoMax case None => Any case Some(m) => PriceAtMost(m);
    var c3 := match q.mediaAvaliacao case None => Any case Some(m) => RatingAtLeast(m);
    var s1 := if q.nome != "" then Keep(s, NameContains(q.nome)) else s;
    KeepAll(s, Any);
    assert s1 == Keep(s, c1);
    var s2 := match q.precoMax case None => s1 case Some(m) => Keep(s1, PriceAtMost(m));
    KeepAll(s1, Any);
    KeepKeep(s, c1, c2);
    assert s2 == Keep(s, Both(c1, c2));
    KeepAll(s2, Any);
    KeepKeep(s, Both(c1, c2), c3);
  }

  /** The listing keeps the collection's order, part by part. */
  lemma ListingOrder(a: seq<Product>, b: seq<Product>, q: Query)
    ensures IsSubsequence(Listing(a, q), a)
    ensures Listing(a + b, q) == Listing(a, q) + Listing(b, q)
  {
    ListingIsOneFilter(a, q);
    ListingIsOneFilter(b, q);
    ListingIsOneFilter(a + b, q);
    KeepIsSubsequence(a, AllOf(q));
    KeepAppend(a, b, AllOf(q));
  }

  /** With no parameter the listing is the whole collection, in order. */
  lemma ListingUnfiltered(s: seq<Product>)
    ensures Listing(s, Query("", None, None)) == s
  {
  }

  /** A threshold that is not a number empties the listing. */
  lemma ListingNaN(s: seq<Product>, q: Query)
    requires q.precoMax == Some(NaN) || q.mediaAvaliacao == Some(NaN)
    ensures Listing(s, q) == []
  {
    ListingIsOneFilter(s, q);
    KeepNone(s, AllOf(q));
  }

  // ---------------------------------------------------------------------
  // GET /products/:id and the lookups of PUT and PATCH

  /** i is the lowest index whose record has the id key. */
  predicate IsFirstMatch(s: seq<Product>, key: Parsed<int>, i: int)
  {
    0 <= i < |s| && HasId(s[i], key) && forall j :: 0 <= j < i ==> !HasId(s[j], key)
  }

  /** `products.findIndex(prod => prod.id === key)`, None standing for -1. */
  function FirstMatch(s: seq<Product>, key: Parsed<int>): (r: Option<nat>)
    ensures r.Some? ==> IsFirstMatch(s, key, r.value)
    ensures r.None? <==> forall j :: 0 <= j < |s| ==> !HasId(s[j], key)
  {
    if s == [] then None
    else if HasId(s[0], key) then Some(0)
    else match FirstMatch(s[1..], key)
      case None => None
      case Some(i) => Some(i + 1)
  }

  /** `products.find(prod => prod.id === key)`, None standing for undefined. */
  function Lookup(s: seq<Product>, key: Parsed<int>): (r: Option<Product>)
    ensures r.None? <==> forall j :: 0 <= j < |s| ==> !HasId(s[j], key)
    ensures r.Some? ==> exists i :: IsFirstMatch(s, key, i) && r.value == s[i]
  {
    match FirstMatch(s, key)
    case None => None
    case Some(i) => Some(s[i])
  }

  /** Only one index can be the first match. */
  lemma FirstMatchUnique(s: seq<Product>, key: Parsed<int>, i: int, j: int)
    requires IsFirstMatch(s, key, i) && IsFirstMatch(s, key, j)
    ensures i == j
  {
  }

  /** Lookups see only ids: two collections whose ids agree index by index
      have the same first match. */
  lemma {:induction false} FirstMatchSameIds(s: seq<Product>, t: seq<Product>, key: Parsed<int>)
    requires |s| == |t|
    requires forall j :: 0 <= j < |s| ==> s[j].id == t[j].id
    ensures FirstMatch(s, key) == FirstMatch(t, key)
  {
    if s != [] {
      FirstMatchSameIds(s[1..], t[1..], key);
    }
  }

  /** An append is invisible to a lookup that already succeeds, and a new
      id is found at the end: no uniqueness check, first record wins. */
  lemma {:induction false} LookupAfterAppend(s: seq<Product>, p: Product, key: Parsed<int>)
    ensures Lookup(s + [p], key) ==
      if Lookup(s, key).Some? then Lookup(s, key)
      else if HasId(p, key) then Some(p)
      else None
  {
    var t := s + [p];
    assert forall j :: 0 <= j < |s| ==> t[j] == s[j];
    assert t[|s|] == p;
    match FirstMatch(s, key)
    case Some(i) =>
      assert IsFirstMatch(t, key, i);
      FirstMatchUnique(t, key, i, FirstMatch(t, key).value);
    case None =>
      if HasId(p, key) {
        assert IsFirstMatch(t, key, |s|);
        FirstMatchUnique(t, key, |s|, FirstMatch(t, key).value);
      }
  }
}
