/** The exact-key pass of `dealfinder/ingest.py`, which `aggregate` repeats on what it fetched: the
    cheapest product of every key, keys in order of first appearance. */
module Ingest {
  import opened Products

  /** Python's dict: replacing a value keeps the key's place. */
  datatype Catalog = Catalog(order: seq<string>, best: map<string, Product>)

  function Add(c: Catalog, p: Product): Catalog {
    var k := DedupKey(p);
    if k !in c.best then Catalog(c.order + [k], c.best[k := p])
    else if p.price < c.best[k].price then c.(best := c.best[k := p])
    else c
  }

  function AddAll(ps: seq<Product>): Catalog {
    if ps == [] then Catalog([], map[]) else Add(AddAll(ps[..|ps| - 1]), ps[|ps| - 1])
  }

  ghost predicate ValidCatalog(c: Catalog) {
    && (forall k :: k in c.order <==> k in c.best)
    && (forall i, j :: 0 <= i < j < |c.order| ==> c.order[i] != c.order[j])
  }

  lemma {:induction false} CatalogIsValid(ps: seq<Product>)
    ensures ValidCatalog(AddAll(ps))
  {
    hide DedupKey;
    if ps != [] { CatalogIsValid(ps[..|ps| - 1]); }
  }

  /** `list(best.values())` */
  function Values(c: Catalog): (r: seq<Product>)
    requires ValidCatalog(c)
    ensures |r| == |c.order| && forall i :: 0 <= i < |r| ==> r[i] == c.best[c.order[i]]
  {
    seq(|c.order|, i requires 0 <= i < |c.order| => assert c.order[i] in c.order; c.best[c.order[i]])
  }

  /** Product a of the list is the first cheapest of its key. */
  ghost predicate IsFirstCheapest(ps: seq<Product>, k: string, a: int) {
    && 0 <= a < |ps| && DedupKey(ps[a]) == k
    && (forall b :: 0 <= b < |ps| && DedupKey(ps[b]) == k ==> ps[a].price <= ps[b].price)
    && (forall b :: 0 <= b < a && DedupKey(ps[b]) == k ==> ps[a].price < ps[b].price)
  }

  /** Every key fetched is kept, with its first cheapest product, and nothing else is. */
  lemma {:induction false} KeepsFirstCheapest(ps: seq<Product>, k: string) returns (a: int)
    ensures k in AddAll(ps).best <==> exists b :: 0 <= b < |ps| && DedupKey(ps[b]) == k
    ensures k in AddAll(ps).best ==> IsFirstCheapest(ps, k, a) && AddAll(ps).best[k] == ps[a]
  {
    hide DedupKey;
    a := -1;
    if ps != [] {
      var n := |ps| - 1;
      var front, last := ps[..n], ps[n];
      assert ps == front + [last];
      a := KeepsFirstCheapest(front, k);
      if b :| 0 <= b < |front| && DedupKey(front[b]) == k {
        assert ps[b] == front[b];
      }
      if DedupKey(last) == k && (k !in AddAll(front).best || last.price < AddAll(front).best[k].price) {
        a := n;
      }
    }
  }

  /** `ingest`: pull every source's products in turn. */
  method IngestSources(sources: seq<seq<Product>>) returns (products: seq<Product>)
    ensures ValidCatalog(AddAll(Flatten(sources))) && products == Values(AddAll(Flatten(sources)))
  {
    var c := Catalog([], map[]);
    for i := 0 to |sources|
      invariant c == AddAll(Flatten(sources[..i]))
    {
      FlattenPush(sources, i);
      c := AddMore(Flatten(sources[..i]), c, sources[i]);
    }
    assert sources[..|sources|] == sources;
    CatalogIsValid(Flatten(sources));
    products := Values(c);
  }

  method AddMore(ghost before: seq<Product>, start: Catalog, ps: seq<Product>) returns (c: Catalog)
    requires start == AddAll(before)
    ensures c == AddAll(before + ps)
  {
    hide Add;
    c := start;
    assert before + ps[..0] == before;
    for i := 0 to |ps|
      invariant c == AddAll(before + ps[..i])
    {
      assert (before + ps[..i + 1])[..|before| + i] == before + ps[..i];
      c := Add(c, ps[i]);
    }
    assert ps[..|ps|] == ps;
  }

  function Flatten(xss: seq<seq<Product>>): seq<Product> {
    if xss == [] then [] else Flatten(xss[..|xss| - 1]) + xss[|xss| - 1]
  }

  lemma FlattenPush(xss: seq<seq<Product>>, i: nat)
    requires i < |xss|
    ensures Flatten(xss[..i + 1]) == Flatten(xss[..i]) + xss[i]
  {
    assert xss[..i + 1][..i] == xss[..i];
  }
}
