/** The property listing: which documents the listing query selects, the
    newest-first order and the 1000-document cap. */
module Listing {
  import opened Outcomes
  import opened Records

  /** The most documents one listing returns. */
  const ListLimit: nat := 1000

  /** The listing's query parameters; `includeSold` false covers an omitted
      parameter too. */
  datatype Query = Query(
    minPrice: Option<real>,
    maxPrice: Option<real>,
    propertyType: Option<string>,
    propertyCategory: Option<string>,
    caseType: Option<string>,
    ageType: Option<string>,
    includeSold: bool)

  /** The query with nothing but the defaults. */
  const DefaultQuery: Query := Query(None, None, None, None, None, None, false)

  /** An equality filter applies only when its parameter is truthy. */
  predicate FieldMatches(filter: Option<string>, value: Option<string>) {
    !Truthy(filter) || value == filter
  }

  /** Either bound given makes a price required; each given bound is inclusive. */
  predicate PriceMatches(price: Option<real>, minPrice: Option<real>, maxPrice: Option<real>) {
    (minPrice.None? && maxPrice.None?) ||
    (price.Some? &&
     (minPrice.None? || minPrice.value <= price.value) &&
     (maxPrice.None? || price.value <= maxPrice.value))
  }

  /** The listing query: the caller's documents, unsold ones only (a missing
      flag counts as unsold) unless sold ones are asked for, then the
      equality and price filters. */
  predicate Matches(p: Property, userId: string, q: Query) {
    p.userId == userId &&
    (q.includeSold || p.isSold != Some(true)) &&
    FieldMatches(q.propertyType, p.propertyType) &&
    FieldMatches(q.propertyCategory, p.propertyCategory) &&
    FieldMatches(q.caseType, p.caseType) &&
    FieldMatches(q.ageType, p.ageType) &&
    PriceMatches(p.price, q.minPrice, q.maxPrice)
  }

  /** With the default query the listing selects exactly the caller's
      properties not flagged sold. */
  lemma DefaultQuerySelectsUnsold(p: Property, userId: string)
    ensures Matches(p, userId, DefaultQuery) <==> p.userId == userId && p.isSold != Some(true)
  {
  }

  /** The price bounds are inclusive, and a document without a price never
      passes a price filter. */
  lemma PriceBoundsInclusive(p: Property, userId: string, q: Query)
    requires q.minPrice.Some? || q.maxPrice.Some?
    ensures Matches(p, userId, q) ==> p.price.Some?
    ensures p.price.Some? && Matches(p, userId, q.(minPrice := None, maxPrice := None)) ==>
              (Matches(p, userId, q) <==>
                 (q.minPrice.None? || q.minPrice.value <= p.price.value) &&
                 (q.maxPrice.None? || p.price.value <= q.maxPrice.value))
  {
  }

  predicate NewestFirst(s: seq<Property>) {
    forall i, j :: 0 <= i < j < |s| ==> s[i].createdAt >= s[j].createdAt
  }

  predicate NoDuplicates(s: seq<Property>) {
    forall i, j :: 0 <= i < j < |s| ==> s[i] != s[j]
  }

  /** Insert `p` into a newest-first sequence, after every document at least
      as new. */
  function InsertNewest(p: Property, s: seq<Property>): (r: seq<Property>)
    ensures multiset(r) == multiset(s) + multiset{p}
    ensures |r| == |s| + 1
    ensures forall x :: x in r <==> x == p || x in s
    ensures NewestFirst(s) ==> NewestFirst(r)
    ensures NoDuplicates(s) && p !in s ==> NoDuplicates(r)
    decreases |s|
  {
    if s == [] then [p]
    else if s[0].createdAt >= p.createdAt then
      var rest := InsertNewest(p, s[1..]);
      KeepHeadContents(p, s, rest);
      KeepHeadOrder(p, s, rest);
      KeepHeadDistinct(p, s, rest);
      [s[0]] + rest
    else
      ConsProperties(p, s);
      [p] + s
  }

  /** Keeping the head in front of a tail that received `p`: contents. */
  lemma KeepHeadContents(p: Property, s: seq<Property>, rest: seq<Property>)
    requires s != [] && multiset(rest) == multiset(s[1..]) + multiset{p}
    ensures multiset([s[0]] + rest) == multiset(s) + multiset{p}
    ensures |[s[0]] + rest| == |s| + 1
    ensures forall x :: x in [s[0]] + rest <==> x == p || x in s
  {
    assert s == [s[0]] + s[1..];
    assert forall x :: x in rest <==> x in multiset(rest);
  }

  /** Keeping the head, at least as new as `p`, in front: order. */
  lemma KeepHeadOrder(p: Property, s: seq<Property>, rest: seq<Property>)
    requires s != [] && s[0].createdAt >= p.createdAt
    requires forall x :: x in rest <==> x == p || x in s[1..]
    requires NewestFirst(s[1..]) ==> NewestFirst(rest)
    ensures NewestFirst(s) ==> NewestFirst([s[0]] + rest)
  {
    if NewestFirst(s) {
      HeadAndTail(s);
      ConsProperties(s[0], rest);
    }
  }

  /** Keeping the head in front: no duplicates when `p` was new. */
  lemma KeepHeadDistinct(p: Property, s: seq<Property>, rest: seq<Property>)
    requires s != []
    requires forall x :: x in rest <==> x == p || x in s[1..]
    requires NoDuplicates(s[1..]) && p !in s[1..] ==> NoDuplicates(rest)
    ensures NoDuplicates(s) && p !in s ==> NoDuplicates([s[0]] + rest)
  {
    if NoDuplicates(s) && p !in s {
      HeadAndTail(s);
      ConsProperties(s[0], rest);
    }
  }

  /** The head of a newest-first sequence is at least as new as the rest,
      and the rest is newest first; likewise for duplicates. */
  lemma HeadAndTail(s: seq<Property>)
    requires s != []
    ensures s == [s[0]] + s[1..]
    ensures multiset(s) == multiset{s[0]} + multiset(s[1..])
    ensures NewestFirst(s) ==> NewestFirst(s[1..]) && forall x :: x in s[1..] ==> s[0].createdAt >= x.createdAt
    ensures NoDuplicates(s) ==> NoDuplicates(s[1..]) && s[0] !in s[1..]
  {
    assert s == [s[0]] + s[1..];
  }

  /** What prepending one document does to order and duplicates. */
  lemma ConsProperties(x: Property, s: seq<Property>)
    ensures (forall y :: y in s ==> x.createdAt >= y.createdAt) && NewestFirst(s) ==> NewestFirst([x] + s)
    ensures x !in s && NoDuplicates(s) ==> NoDuplicates([x] + s)
  {
  }

  /** Order by `createdAt`, newest first. */
  function SortNewestFirst(s: seq<Property>): (r: seq<Property>)
    ensures multiset(r) == multiset(s)
    ensures |r| == |s|
    ensures forall x :: x in r <==> x in s
    ensures NewestFirst(r)
    ensures NoDuplicates(s) ==> NoDuplicates(r)
    decreases |s|
  {
    if s == [] then []
    else
      assert s == [s[0]] + s[1..];
      InsertNewest(s[0], SortNewestFirst(s[1..]))
  }

  /** The documents of `docs` the listing query selects for `userId`. */
  ghost function Selected(docs: set<Property>, userId: string, q: Query): set<Property> {
    set p | p in docs && Matches(p, userId, q)
  }

  /** Selecting from one more document adds it exactly when it matches. */
  lemma SelectedInsert(docs: set<Property>, p: Property, userId: string, q: Query)
    ensures Selected(docs + {p}, userId, q) ==
              (if Matches(p, userId, q) then Selected(docs, userId, q) + {p} else Selected(docs, userId, q))
  {
  }

  /** The ids of the stored documents the listing query selects. */
  ghost function SelectedIds(table: map<string, Property>, userId: string, q: Query): set<string> {
    set id | id in table && Matches(table[id], userId, q)
  }

  /** Every document of the table sits under its own id. */
  ghost predicate KeyedById(table: map<string, Property>) {
    forall id :: id in table ==> table[id].id == id
  }

  /** Taking one entry out of a table keyed by id takes exactly its document
      out of the table's documents. */
  lemma RemoveEntry(table: map<string, Property>, k: string)
    requires KeyedById(table) && k in table
    ensures KeyedById(table - {k}) && |table - {k}| == |table| - 1
    ensures table.Values == (table - {k}).Values + {table[k]}
    ensures table[k] !in (table - {k}).Values
  {
    var rest := table - {k};
    assert rest.Keys == table.Keys - {k};
    forall v | v in table.Values ensures v in rest.Values + {table[k]} {
      var id :| id in table && table[id] == v;
      if id != k { assert rest[id] == v; }
    }
    forall id | id in rest ensures rest[id] != table[k] {
      assert rest[id].id == id && table[k].id == k;
    }
  }

  /** How the selected documents and ids change when one entry is taken out. */
  lemma SelectedWithout(table: map<string, Property>, k: string, userId: string, q: Query)
    requires KeyedById(table) && k in table
    ensures Matches(table[k], userId, q) ==>
              Selected(table.Values, userId, q) == Selected((table - {k}).Values, userId, q) + {table[k]} &&
              SelectedIds(table, userId, q) == SelectedIds(table - {k}, userId, q) + {k}
    ensures !Matches(table[k], userId, q) ==>
              Selected(table.Values, userId, q) == Selected((table - {k}).Values, userId, q) &&
              SelectedIds(table, userId, q) == SelectedIds(table - {k}, userId, q)
  {
    RemoveEntry(table, k);
    SelectedInsert((table - {k}).Values, table[k], userId, q);
    SelectedIdsWithout(table, k, userId, q);
  }

  /** Taking one entry out takes its id out of the selected ids, if it was there. */
  lemma SelectedIdsWithout(table: map<string, Property>, k: string, userId: string, q: Query)
    requires k in table
    ensures SelectedIds(table, userId, q) ==
              (if Matches(table[k], userId, q) then SelectedIds(table - {k}, userId, q) + {k}
               else SelectedIds(table - {k}, userId, q))
  {
    var rest := table - {k};
    assert forall id :: id in rest ==> rest[id] == table[id];
  }

  /** In a table keyed by id, the selected documents and their ids are
      equally many: the listing counts stored documents. */
  lemma {:induction false} SelectedCountsDocuments(table: map<string, Property>, userId: string, q: Query)
    requires KeyedById(table)
    ensures |Selected(table.Values, userId, q)| == |SelectedIds(table, userId, q)|
    decreases |table|
  {
    if table != map[] {
      var k :| k in table;
      RemoveEntry(table, k);
      SelectedWithout(table, k, userId, q);
      SelectedCountsDocuments(table - {k}, userId, q);
    }
  }

  ghost function Elements(s: seq<Property>): set<Property> {
    set x | x in s
  }

  /** A sequence without duplicates has as many distinct elements as entries. */
  lemma {:induction false} DistinctCount(s: seq<Property>)
    requires NoDuplicates(s)
    ensures |Elements(s)| == |s|
  {
    if s != [] {
      DistinctCount(s[1..]);
      assert Elements(s) == {s[0]} + Elements(s[1..]);
    }
  }

  /** Appending a document not yet present keeps a sequence free of duplicates. */
  lemma AppendDistinct(s: seq<Property>, p: Property)
    requires NoDuplicates(s) && p !in s
    ensures NoDuplicates(s + [p])
    ensures Elements(s + [p]) == Elements(s) + {p}
  {
  }

  /** Cutting a newest-first sequence leaves out nothing newer than what it keeps. */
  lemma CutKeepsNewest(sorted: seq<Property>, n: nat)
    requires NewestFirst(sorted)
    ensures forall p, i :: p in sorted && p !in Take(sorted, n) && 0 <= i < |Take(sorted, n)| ==>
              p.createdAt <= Take(sorted, n)[i].createdAt
  {
    var r := Take(sorted, n);
    forall p, i | p in sorted && p !in r && 0 <= i < |r|
      ensures p.createdAt <= r[i].createdAt
    {
      var j :| 0 <= j < |sorted| && sorted[j] == p;
      assert j >= |r|;
      assert r[i] == sorted[i];
    }
  }

  /** The first `n` entries, or all of them when there are fewer. */
  function Take(s: seq<Property>, n: nat): (r: seq<Property>)
    ensures |r| == if |s| < n then |s| else n
    ensures r == s[..|r|]
  {
    if |s| <= n then s else s[..n]
  }
}
