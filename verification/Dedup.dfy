/** The semantic dedup of `dealfinder/dedup.py`: a union-find with path halving over the
    pairwise "same product" test, then the cheapest item of every cluster. */
module Dedup {
  import opened Text
  import opened Products

  /** The two thresholds and the similarity of two titles (the embedding is a fixed function
      of the title, so the similarity of two items depends on their titles only). */
  datatype Config = Config(simThreshold: real, noModelThreshold: real, sim: (string, string) -> real)

  predicate HasDigit(w: string) { exists i :: 0 <= i < |w| && IsDigit(w[i]) }

  function ModelTokens(title: string): set<string> {
    set w | w in Words(Lower(title)) && HasDigit(w)
  }

  function FirstToken(title: string): string {
    var ws := Words(Lower(title));
    if ws == [] then "" else ws[0]
  }

  predicate SameProduct(cfg: Config, p: Product, q: Product) {
    if FirstToken(p.title) != FirstToken(q.title) then false
    else if ModelTokens(p.title) != {} && ModelTokens(q.title) != {} then
      ModelTokens(p.title) == ModelTokens(q.title) && cfg.sim(p.title, q.title) >= cfg.simThreshold
    else if ModelTokens(p.title) == {} && ModelTokens(q.title) == {} then
      cfg.sim(p.title, q.title) >= cfg.noModelThreshold
    else false
  }

  // ---------------------------------------------------------------- clusters, by meaning

  /** The pair loop compares each unordered pair once, smaller index first. */
  ghost predicate Adjacent(items: seq<Product>, cfg: Config, i: int, j: int) {
    && 0 <= i < |items| && 0 <= j < |items|
    && ((i < j && SameProduct(cfg, items[i], items[j])) || (j < i && SameProduct(cfg, items[j], items[i])))
  }

  ghost predicate Chain(items: seq<Product>, cfg: Config, p: seq<int>, i: int, j: int) {
    && |p| > 0 && p[0] == i && p[|p| - 1] == j
    && forall k :: 0 <= k < |p| - 1 ==> Adjacent(items, cfg, p[k], p[k + 1])
  }

  /** Some chain of same-product pairs joins i and j. */
  ghost predicate Linked(items: seq<Product>, cfg: Config, i: int, j: int) {
    exists p :: Chain(items, cfg, p, i, j)
  }

  lemma LinkedSelf(items: seq<Product>, cfg: Config, i: int)
    ensures Linked(items, cfg, i, i)
  {
    assert Chain(items, cfg, [i], i, i);
  }

  lemma LinkedStep(items: seq<Product>, cfg: Config, i: int, j: int)
    requires Adjacent(items, cfg, i, j)
    ensures Linked(items, cfg, i, j)
  {
    assert Chain(items, cfg, [i, j], i, j);
  }

  lemma LinkedTrans(items: seq<Product>, cfg: Config, i: int, j: int, k: int)
    requires Linked(items, cfg, i, j) && Linked(items, cfg, j, k)
    ensures Linked(items, cfg, i, k)
  {
    var p :| Chain(items, cfg, p, i, j);
    var q :| Chain(items, cfg, q, j, k);
    var r := p + q[1..];
    forall n | 0 <= n < |r| - 1
      ensures Adjacent(items, cfg, r[n], r[n + 1])
    {
      if n >= |p| - 1 {
        assert r[n] == q[n - |p| + 1] && r[n + 1] == q[n - |p| + 2];
      }
    }
    assert Chain(items, cfg, r, i, k);
  }

  lemma {:induction false} ChainReverse(items: seq<Product>, cfg: Config, p: seq<int>, i: int, j: int)
    requires Chain(items, cfg, p, i, j)
    ensures Linked(items, cfg, j, i)
    decreases |p|
  {
    if |p| == 1 {
      LinkedSelf(items, cfg, i);
    } else {
      ChainReverse(items, cfg, p[1..], p[1], j);
      assert Adjacent(items, cfg, p[0], p[0 + 1]);
      LinkedStep(items, cfg, p[1], i);
      LinkedTrans(items, cfg, j, p[1], i);
    }
  }

  lemma LinkedSym(items: seq<Product>, cfg: Config, i: int, j: int)
    requires Linked(items, cfg, i, j)
    ensures Linked(items, cfg, j, i)
  {
    var p :| Chain(items, cfg, p, i, j);
    ChainReverse(items, cfg, p, i, j);
  }

  // ---------------------------------------------------------------- the parent array

  /** `parent` is a forest: `root` names each node's root and `depth` falls along every link. */
  ghost predicate Forest(parent: seq<nat>, root: seq<nat>, depth: seq<nat>) {
    && |root| == |parent| && |depth| == |parent|
    && (forall x :: 0 <= x < |parent| ==> parent[x] < |parent|)
    && (forall x :: 0 <= x < |parent| ==> root[x] < |parent|)
    && (forall x :: 0 <= x < |parent| ==> parent[root[x]] == root[x])
    && (forall x :: 0 <= x < |parent| && parent[x] == x ==> root[x] == x)
    && (forall x :: 0 <= x < |parent| && parent[x] != x ==> root[parent[x]] == root[x] && depth[parent[x]] < depth[x])
  }

  /** x after k steps to the parent. */
  ghost function Climb(parent: seq<nat>, x: nat, k: nat): nat
    requires x < |parent| && forall y :: 0 <= y < |parent| ==> parent[y] < |parent|
    ensures Climb(parent, x, k) < |parent|
    decreases k
  {
    if k == 0 then x else Climb(parent, parent[x], k - 1)
  }

  /** `root` is what following parents reaches, so halving, which keeps `root`, changes no root. */
  lemma {:induction false} RootIsReached(parent: seq<nat>, root: seq<nat>, depth: seq<nat>, x: nat)
    requires x < |parent| && Forest(parent, root, depth)
    ensures exists k :: 0 <= k && Climb(parent, x, k) == root[x]
    ensures parent[root[x]] == root[x]
    decreases depth[x]
  {
    if parent[x] == x {
      assert Climb(parent, x, 0) == root[x];
    } else {
      RootIsReached(parent, root, depth, parent[x]);
      var k :| 0 <= k && Climb(parent, parent[x], k) == root[parent[x]];
      assert Climb(parent, x, k + 1) == root[x];
    }
  }

  method Find(parent: array<nat>, x: nat, ghost root: seq<nat>, ghost depth: seq<nat>) returns (r: nat)
    requires x < parent.Length && Forest(parent[..], root, depth)
    modifies parent
    ensures Forest(parent[..], root, depth)
    ensures r == root[x]
  {
    r := x;
    while parent[r] != r
      invariant r < parent.Length && Forest(parent[..], root, depth)
      invariant root[r] == root[x]
      decreases depth[r]
    {
      assert parent[..][r] == parent[r] && parent[..][parent[r]] == parent[parent[r]];
      ghost var before := parent[..];
      parent[r] := parent[parent[r]];
      assert parent[..] == before[r := before[before[r]]];
      r := parent[r];
    }
    assert parent[..][r] == r;
  }

  ghost function MergedRoots(root: seq<nat>, ra: nat, rb: nat): (r: seq<nat>)
    ensures |r| == |root|
  {
    seq(|root|, x requires 0 <= x < |root| => if root[x] == ra then rb else root[x])
  }

  ghost function MergedDepths(root: seq<nat>, depth: seq<nat>, ra: nat, rb: nat): (r: seq<nat>)
    requires |depth| == |root| && rb < |root|
    ensures |r| == |root|
  {
    seq(|root|, x requires 0 <= x < |root| => if root[x] == ra then depth[x] + depth[rb] + 1 else depth[x])
  }

  lemma LinkingKeepsForest(parent: seq<nat>, root: seq<nat>, depth: seq<nat>, ra: nat, rb: nat)
    requires Forest(parent, root, depth)
    requires ra < |parent| && rb < |parent| && root[ra] == ra && root[rb] == rb
    ensures Forest(parent[ra := rb], MergedRoots(root, ra, rb), MergedDepths(root, depth, ra, rb))
  {
  }

  method Union(parent: array<nat>, a: nat, b: nat, ghost root: seq<nat>, ghost depth: seq<nat>)
    returns (ghost root': seq<nat>, ghost depth': seq<nat>)
    requires a < parent.Length && b < parent.Length && Forest(parent[..], root, depth)
    modifies parent
    ensures Forest(parent[..], root', depth')
    ensures root' == MergedRoots(root, root[a], root[b])
  {
    var rb := Find(parent, b, root, depth);
    var ra := Find(parent, a, root, depth);
    assert parent[..][ra] == ra && parent[..][rb] == rb;
    LinkingKeepsForest(parent[..], root, depth, ra, rb);
    root' := MergedRoots(root, ra, rb);
    depth' := MergedDepths(root, depth, ra, rb);
    ghost var before := parent[..];
    parent[ra] := rb;
    assert parent[..] == before[ra := rb];
  }

  // ---------------------------------------------------------------- the pair loop

  /** Nodes with one root are linked. */
  ghost predicate Sound(items: seq<Product>, cfg: Config, root: seq<nat>) {
    |root| == |items| && forall x, y {:trigger Linked(items, cfg, x, y)} ::
      0 <= x < |root| && 0 <= y < |root| && root[x] == root[y] ==> Linked(items, cfg, x, y)
  }

  lemma MergeIsSound(items: seq<Product>, cfg: Config, root: seq<nat>, a: nat, b: nat)
    requires Sound(items, cfg, root) && a < b < |items| && SameProduct(cfg, items[a], items[b])
    ensures Sound(items, cfg, MergedRoots(root, root[a], root[b]))
  {
    var ra, rb := root[a], root[b];
    var root' := MergedRoots(root, ra, rb);
    LinkedStep(items, cfg, a, b);
    LinkedSym(items, cfg, a, b);
    forall x, y | 0 <= x < |root| && 0 <= y < |root| && root'[x] == root'[y]
      ensures Linked(items, cfg, x, y)
    {
      if root[x] == ra && root[y] == rb {
        LinkedTrans(items, cfg, x, a, b);
        LinkedTrans(items, cfg, x, b, y);
      } else if root[x] == rb && root[y] == ra {
        LinkedTrans(items, cfg, x, b, a);
        LinkedTrans(items, cfg, x, a, y);
      }
    }
  }

  /** Every pair compared before (i, j) and found the same has one root. */
  ghost predicate Complete(items: seq<Product>, cfg: Config, root: seq<nat>, i: int, j: int) {
    |root| == |items| && forall a, b {:trigger SameProduct(cfg, items[a], items[b])} ::
      0 <= a < b < |items| && (a < i || (a == i && b < j)) && SameProduct(cfg, items[a], items[b]) ==>
        root[a] == root[b]
  }

  lemma StartsSoundAndComplete(items: seq<Product>, cfg: Config, root: seq<nat>, depth: seq<nat>)
    requires |root| == |depth| == |items| && forall i :: 0 <= i < |root| ==> root[i] == i
    ensures Forest(root, root, depth)
    ensures Sound(items, cfg, root) && Complete(items, cfg, root, 0, 0)
  {
    forall x | 0 <= x < |items|
      ensures Linked(items, cfg, x, x)
    {
      LinkedSelf(items, cfg, x);
    }
  }

  /** The next pair is covered once it is merged, or when it is not the same product. */
  lemma NextPairIsComplete(items: seq<Product>, cfg: Config, root: seq<nat>, i: nat, j: nat)
    requires i < j < |items| && Complete(items, cfg, root, i, j)
    ensures Complete(items, cfg, MergedRoots(root, root[i], root[j]), i, j + 1)
    ensures !SameProduct(cfg, items[i], items[j]) ==> Complete(items, cfg, root, i, j + 1)
  {
  }

  lemma NextRowIsComplete(items: seq<Product>, cfg: Config, root: seq<nat>, i: nat)
    requires i < |items|
    requires Complete(items, cfg, root, i, |items|)
    ensures Complete(items, cfg, root, i + 1, 0)
  {
  }

  lemma RowStartIsComplete(items: seq<Product>, cfg: Config, root: seq<nat>, i: nat)
    requires Complete(items, cfg, root, i, 0)
    ensures Complete(items, cfg, root, i, i + 1)
  {
  }

  /** One comparison of the pair loop. */
  method ComparePair(items: seq<Product>, cfg: Config, parent: array<nat>, i: nat, j: nat, ghost root: seq<nat>,
                     ghost depth: seq<nat>)
    returns (ghost root': seq<nat>, ghost depth': seq<nat>)
    requires i < j < |items| == |root| == parent.Length && Forest(parent[..], root, depth)
    requires Sound(items, cfg, root) && Complete(items, cfg, root, i, j)
    modifies parent
    ensures |root'| == |items| && Forest(parent[..], root', depth')
    ensures Sound(items, cfg, root') && Complete(items, cfg, root', i, j + 1)
  {
    hide *;
    root', depth' := root, depth;
    NextPairIsComplete(items, cfg, root, i, j);
    if SameProduct(cfg, items[i], items[j]) {
      MergeIsSound(items, cfg, root, i, j);
      root', depth' := Union(parent, i, j, root, depth);
    }
  }

  /** One row of the pair loop: item i against every later item. */
  method MergeRow(items: seq<Product>, cfg: Config, parent: array<nat>, i: nat, ghost root: seq<nat>,
                  ghost depth: seq<nat>)
    returns (ghost root': seq<nat>, ghost depth': seq<nat>)
    requires i < |items| == |root| == parent.Length && Forest(parent[..], root, depth)
    requires Sound(items, cfg, root) && Complete(items, cfg, root, i, 0)
    modifies parent
    ensures |root'| == |items| && Forest(parent[..], root', depth')
    ensures Sound(items, cfg, root') && Complete(items, cfg, root', i + 1, 0)
  {
    hide *;
    root', depth' := root, depth;
    RowStartIsComplete(items, cfg, root, i);
    for j := i + 1 to |items|
      invariant |root'| == |items| && Forest(parent[..], root', depth')
      invariant Sound(items, cfg, root') && Complete(items, cfg, root', i, j)
    {
      root', depth' := ComparePair(items, cfg, parent, i, j, root', depth');
    }
    NextRowIsComplete(items, cfg, root', i);
  }

  method BuildForest(items: seq<Product>, cfg: Config)
    returns (parent: array<nat>, ghost root: seq<nat>, ghost depth: seq<nat>)
    ensures fresh(parent) && parent.Length == |items| == |root|
    ensures Forest(parent[..], root, depth)
    ensures Sound(items, cfg, root) && Complete(items, cfg, root, |items|, 0)
  {
    hide *;
    parent := new nat[|items|](i => i);
    root, depth := parent[..], parent[..];
    StartsSoundAndComplete(items, cfg, root, depth);
    for i := 0 to |items|
      invariant |root| == |items| && Forest(parent[..], root, depth)
      invariant Sound(items, cfg, root) && Complete(items, cfg, root, i, 0)
    {
      root, depth := MergeRow(items, cfg, parent, i, root, depth);
    }
  }

  lemma {:induction false} ChainSharesRoot(items: seq<Product>, cfg: Config, root: seq<nat>, p: seq<int>, i: int,
                                           j: int)
    requires Complete(items, cfg, root, |items|, 0) && Chain(items, cfg, p, i, j)
    requires 0 <= i < |items|
    ensures 0 <= j < |items| && root[i] == root[j]
    decreases |p|
  {
    if |p| > 1 {
      assert Adjacent(items, cfg, p[0], p[0 + 1]);
      ChainSharesRoot(items, cfg, root, p[1..], p[1], j);
    }
  }

  /** After the pair loop two items share a root exactly when a chain of same-product pairs links them. */
  lemma RootsAreClusters(items: seq<Product>, cfg: Config, root: seq<nat>, i: nat, j: nat)
    requires Sound(items, cfg, root) && Complete(items, cfg, root, |items|, 0)
    requires i < |items| && j < |items|
    ensures root[i] == root[j] <==> Linked(items, cfg, i, j)
  {
    if p :| Chain(items, cfg, p, i, j) {
      ChainSharesRoot(items, cfg, root, p, i, j);
    }
  }

  // ---------------------------------------------------------------- what survives

  ghost predicate LinkedEarlier(items: seq<Product>, cfg: Config, i: int) {
    exists j :: 0 <= j < i && Linked(items, cfg, j, i)
  }

  /** The indices below k that no earlier item is linked to, in order. */
  ghost function Leaders(items: seq<Product>, cfg: Config, k: nat): (r: seq<nat>)
    ensures forall c :: 0 <= c < |r| ==> r[c] < k
  {
    if k == 0 then []
    else if LinkedEarlier(items, cfg, k - 1) then Leaders(items, cfg, k - 1)
    else Leaders(items, cfg, k - 1) + [k - 1]
  }

  /** The indices below k linked to i, in order. */
  ghost function Members(items: seq<Product>, cfg: Config, i: int, k: nat): (r: seq<nat>)
    ensures forall x :: x in r <==> 0 <= x < k && Linked(items, cfg, i, x)
    ensures forall a :: 0 <= a < |r| ==> r[a] < k
    ensures forall a, b :: 0 <= a < b < |r| ==> r[a] < r[b]
  {
    if k == 0 then []
    else Members(items, cfg, i, k - 1) + (if Linked(items, cfg, i, k - 1) then [k - 1] else [])
  }

  ghost predicate FirstCheapest(items: seq<Product>, ms: seq<nat>, m: nat) {
    exists a :: 0 <= a < |ms| && ms[a] == m && CheapestAt(items, ms, a)
  }

  ghost predicate CheapestAt(items: seq<Product>, ms: seq<nat>, a: int)
  {
    && 0 <= a < |ms| && (forall b :: 0 <= b < |ms| ==> ms[b] < |items|)
    && (forall b :: 0 <= b < |ms| ==> items[ms[a]].price <= items[ms[b]].price)
    && (forall b :: 0 <= b < a ==> items[ms[a]].price < items[ms[b]].price)
  }

  /** `kept` holds, for the first clusters in order of first appearance, the first cheapest member. */
  ghost predicate KeptSoFar(items: seq<Product>, cfg: Config, picks: seq<nat>, kept: seq<Product>) {
    var ls := Leaders(items, cfg, |items|);
    && |kept| == |picks| <= |ls|
    && (forall c :: 0 <= c < |picks| ==> picks[c] < |items|)
    && (forall c :: 0 <= c < |picks| ==> kept[c] == items[picks[c]])
    && (forall c :: 0 <= c < |picks| ==> FirstCheapest(items, Members(items, cfg, ls[c], |items|), picks[c]))
  }

  ghost predicate KeepsCheapest(items: seq<Product>, cfg: Config, picks: seq<nat>, kept: seq<Product>) {
    KeptSoFar(items, cfg, picks, kept) && |kept| == |Leaders(items, cfg, |items|)|
  }

  ghost predicate IsDeduped(items: seq<Product>, cfg: Config, kept: seq<Product>) {
    exists picks :: KeepsCheapest(items, cfg, picks, kept)
  }

  /** The dictionary of clusters after the items below i: `order` is its insertion order. */
  ghost predicate Grouped(items: seq<Product>, cfg: Config, root: seq<nat>,
                          order: seq<nat>, clusters: map<nat, seq<nat>>, i: nat)
    requires |root| == |items|
  {
    var ls := Leaders(items, cfg, i);
    && i <= |items| && |order| == |ls|
    && (forall c :: 0 <= c < |order| ==> root[ls[c]] == order[c])
    && (forall c :: 0 <= c < |order| ==> order[c] in clusters && clusters[order[c]] == Members(items, cfg, ls[c], i))
    && (forall c, d :: 0 <= c < d < |order| ==> order[c] != order[d])
    && (forall r :: r in clusters <==> r in root[..i])
  }

  function AddToCluster(clusters: map<nat, seq<nat>>, r: nat, i: nat): map<nat, seq<nat>> {
    clusters[r := (if r in clusters then clusters[r] else []) + [i]]
  }

  function AddToOrder(order: seq<nat>, clusters: map<nat, seq<nat>>, r: nat): seq<nat> {
    if r in clusters then order else order + [r]
  }

  /** An item is a leader exactly when its root is a new key. */
  lemma LeaderIsNewKey(items: seq<Product>, cfg: Config, root: seq<nat>,
                       order: seq<nat>, clusters: map<nat, seq<nat>>, i: nat)
    requires i < |items| == |root| && Sound(items, cfg, root) && Complete(items, cfg, root, |items|, 0)
    requires Grouped(items, cfg, root, order, clusters, i)
    ensures root[i] in clusters <==> LinkedEarlier(items, cfg, i)
  {
    hide Sound, Complete, Linked;
    forall j | 0 <= j < i
      ensures root[j] == root[i] <==> Linked(items, cfg, j, i)
    {
      RootsAreClusters(items, cfg, root, j, i);
    }
    if root[i] in clusters {
      var j :| 0 <= j < i && root[..i][j] == root[i];
      assert Linked(items, cfg, j, i);
    }
    if j :| 0 <= j < i && Linked(items, cfg, j, i) {
      assert root[..i][j] == root[i];
    }
  }

  lemma NoMembersYet(items: seq<Product>, cfg: Config, i: nat)
    requires !LinkedEarlier(items, cfg, i)
    ensures Members(items, cfg, i, i) == []
  {
    var ms := Members(items, cfg, i, i);
    if ms != [] {
      assert ms[0] in ms;
      LinkedSym(items, cfg, i, ms[0]);
    }
  }

  /** An item whose root is a key joins that cluster, and no other cluster changes. */
  lemma JoinsItsCluster(items: seq<Product>, cfg: Config, root: seq<nat>,
                        order: seq<nat>, clusters: map<nat, seq<nat>>, i: nat, c: nat)
    requires i < |items| == |root| && Sound(items, cfg, root) && Complete(items, cfg, root, |items|, 0)
    requires Grouped(items, cfg, root, order, clusters, i) && c < |order|
    ensures order[c] in clusters
    ensures AddToCluster(clusters, root[i], i)[order[c]] == Members(items, cfg, Leaders(items, cfg, i)[c], i + 1)
  {
    hide Sound, Complete, Linked;
    RootsAreClusters(items, cfg, root, Leaders(items, cfg, i)[c], i);
  }

  lemma GroupingStep(items: seq<Product>, cfg: Config, root: seq<nat>,
                     order: seq<nat>, clusters: map<nat, seq<nat>>, i: nat)
    requires i < |items| == |root| && Sound(items, cfg, root) && Complete(items, cfg, root, |items|, 0)
    requires Grouped(items, cfg, root, order, clusters, i)
    ensures Grouped(items, cfg, root, AddToOrder(order, clusters, root[i]), AddToCluster(clusters, root[i], i), i + 1)
  {
    hide Sound, Complete, Linked, Members;
    var ls, r := Leaders(items, cfg, i), root[i];
    var clusters' := AddToCluster(clusters, r, i);
    LeaderIsNewKey(items, cfg, root, order, clusters, i);
    forall c | 0 <= c < |order|
      ensures clusters'[order[c]] == Members(items, cfg, ls[c], i + 1)
    {
      JoinsItsCluster(items, cfg, root, order, clusters, i, c);
    }
    assert root[..i + 1] == root[..i] + [r];
    if r !in clusters {
      FirstMember(items, cfg, i);
      assert Leaders(items, cfg, i + 1) == ls + [i];
    } else {
      assert Leaders(items, cfg, i + 1) == ls;
    }
  }

  lemma FirstMember(items: seq<Product>, cfg: Config, i: nat)
    requires !LinkedEarlier(items, cfg, i)
    ensures Members(items, cfg, i, i + 1) == [i]
  {
    NoMembersYet(items, cfg, i);
    LinkedSelf(items, cfg, i);
  }

  method MinByPrice(items: seq<Product>, ms: seq<nat>) returns (best: nat)
    requires ms != [] && forall b :: 0 <= b < |ms| ==> ms[b] < |items|
    ensures FirstCheapest(items, ms, best)
  {
    ghost var a := 0;
    best := ms[0];
    for b := 1 to |ms|
      invariant 0 <= a < b && best == ms[a]
      invariant forall d :: 0 <= d < b ==> items[best].price <= items[ms[d]].price
      invariant forall d :: 0 <= d < a ==> items[best].price < items[ms[d]].price
    {
      if items[ms[b]].price < items[best].price {
        best, a := ms[b], b;
      }
    }
    assert CheapestAt(items, ms, a);
  }

  lemma GroupedStart(items: seq<Product>, cfg: Config, root: seq<nat>)
    requires |root| == |items|
    ensures Grouped(items, cfg, root, [], map[], 0)
  {
  }

  method GroupByRoot(items: seq<Product>, cfg: Config, parent: array<nat>, ghost root: seq<nat>, ghost depth: seq<nat>)
    returns (order: seq<nat>, clusters: map<nat, seq<nat>>)
    requires parent.Length == |items| == |root| && Forest(parent[..], root, depth)
    requires Sound(items, cfg, root) && Complete(items, cfg, root, |items|, 0)
    modifies parent
    ensures Grouped(items, cfg, root, order, clusters, |items|)
  {
    hide Sound, Complete, Linked, Members, Grouped, Forest;
    order, clusters := [], map[];
    GroupedStart(items, cfg, root);
    for i := 0 to |items|
      invariant Forest(parent[..], root, depth)
      invariant Grouped(items, cfg, root, order, clusters, i)
    {
      var r := Find(parent, i, root, depth);
      GroupingStep(items, cfg, root, order, clusters, i);
      order, clusters := AddToOrder(order, clusters, r), AddToCluster(clusters, r, i);
    }
  }

  lemma ClusterAt(items: seq<Product>, cfg: Config, root: seq<nat>, order: seq<nat>, clusters: map<nat, seq<nat>>,
                  c: nat)
    requires |root| == |items| && Grouped(items, cfg, root, order, clusters, |items|) && c < |order|
    ensures order[c] in clusters && clusters[order[c]] != []
    ensures clusters[order[c]] == Members(items, cfg, Leaders(items, cfg, |items|)[c], |items|)
  {
    var leader := Leaders(items, cfg, |items|)[c];
    LinkedSelf(items, cfg, leader);
    assert leader in Members(items, cfg, leader, |items|);
  }

  method CheapestOfEach(items: seq<Product>, cfg: Config, order: seq<nat>, clusters: map<nat, seq<nat>>,
                        ghost root: seq<nat>)
    returns (kept: seq<Product>, ghost picks: seq<nat>)
    requires |root| == |items| && Grouped(items, cfg, root, order, clusters, |items|)
    ensures KeepsCheapest(items, cfg, picks, kept)
  {
    hide Linked, FirstCheapest, Leaders, Members;
    kept, picks := [], [];
    for c := 0 to |order|
      invariant |picks| == c && KeptSoFar(items, cfg, picks, kept)
    {
      ClusterAt(items, cfg, root, order, clusters, c);
      var best := MinByPrice(items, clusters[order[c]]);
      kept, picks := kept + [items[best]], picks + [best];
    }
  }

  /** The whole pass, under exact arithmetic and a fixed similarity. */
  method DedupByEmbedding(items: seq<Product>, cfg: Config) returns (kept: seq<Product>, ghost picks: seq<nat>)
    ensures KeepsCheapest(items, cfg, picks, kept)
    ensures IsDeduped(items, cfg, kept)
  {
    if items == [] {
      return [], [];
    }
    var parent, root, depth := BuildForest(items, cfg);
    var order, clusters := GroupByRoot(items, cfg, parent, root, depth);
    kept, picks := CheapestOfEach(items, cfg, order, clusters, root);
    hide KeepsCheapest;
  }

  // ---------------------------------------------------------------- theorems about the result

  /** No cluster mixes leading tokens or model-token sets, however long the chain. */
  lemma {:induction false} ClusterIsPure(items: seq<Product>, cfg: Config, p: seq<int>, i: nat, j: nat)
    requires Chain(items, cfg, p, i, j) && i < |items|
    ensures j < |items|
    ensures FirstToken(items[i].title) == FirstToken(items[j].title)
    ensures ModelTokens(items[i].title) == ModelTokens(items[j].title)
    decreases |p|
  {
    hide FirstToken, ModelTokens;
    if |p| > 1 {
      assert Adjacent(items, cfg, p[0], p[0 + 1]);
      ClusterIsPure(items, cfg, p[1..], p[1], j);
    }
  }

  ghost predicate BearsDigit(w: string) { exists i :: 0 <= i < |w| && '0' <= w[i] <= '9' }

  /** What two titles must show to be one product: the same leading word, the same words with a digit,
      and a similarity at the bar, which is another one when neither has such words. */
  ghost predicate LooksAlike(cfg: Config, s: string, t: string) {
    var u, v := Words(Lower(s)), Words(Lower(t));
    && (if u == [] || v == [] then u == v else u[0] == v[0])
    && (forall w :: BearsDigit(w) ==> (w in u <==> w in v))
    && cfg.sim(s, t) >= if exists w :: w in u && BearsDigit(w) then cfg.simThreshold else cfg.noModelThreshold
  }

  lemma ModelTokensBearDigits(title: string, w: string)
    ensures w in ModelTokens(title) <==> w in Words(Lower(title)) && BearsDigit(w)
  {
    hide Words, Lower;
  }

  lemma SameProductLooksAlike(cfg: Config, p: Product, q: Product)
    ensures SameProduct(cfg, p, q) <==> LooksAlike(cfg, p.title, q.title)
  {
    WordsAreNonempty(Lower(p.title));
    WordsAreNonempty(Lower(q.title));
    forall w: string
      ensures w in ModelTokens(p.title) <==> w in Words(Lower(p.title)) && BearsDigit(w)
      ensures w in ModelTokens(q.title) <==> w in Words(Lower(q.title)) && BearsDigit(w)
    {
      ModelTokensBearDigits(p.title, w);
      ModelTokensBearDigits(q.title, w);
    }
    hide Words, Lower, ModelTokens, BearsDigit;
    var u, v := Words(Lower(p.title)), Words(Lower(q.title));
    assert (u != [] ==> u[0] in u) && (v != [] ==> v[0] in v);
    assert ModelTokens(p.title) == ModelTokens(q.title) <==> forall w :: BearsDigit(w) ==> (w in u <==> w in v) by {
      if forall w :: BearsDigit(w) ==> (w in u <==> w in v) {
        assert forall w :: w in ModelTokens(p.title) <==> w in ModelTokens(q.title);
      }
      if w :| BearsDigit(w) && !(w in u <==> w in v) {
        assert !(w in ModelTokens(p.title) <==> w in ModelTokens(q.title));
      }
    }
    assert ModelTokens(p.title) != {} <==> exists w :: w in u && BearsDigit(w) by {
      if w :| w in ModelTokens(p.title) { assert w in u && BearsDigit(w); }
      if w :| w in u && BearsDigit(w) { assert w in ModelTokens(p.title); }
    }
  }

  lemma WordsAreNonempty(s: string)
    ensures forall w :: w in Words(s) ==> w != ""
  {
    ScanAlnum(s, "");
  }

  /** Every step of a chain joins titles that look alike, in the order of the list. */
  lemma ChainStepsLookAlike(items: seq<Product>, cfg: Config, p: seq<int>, i: int, j: int, n: nat)
    requires Chain(items, cfg, p, i, j) && n < |p| - 1
    ensures 0 <= p[n] < |items| && 0 <= p[n + 1] < |items| && p[n] != p[n + 1]
    ensures var a, b := if p[n] < p[n + 1] then p[n] else p[n + 1], if p[n] < p[n + 1] then p[n + 1] else p[n];
            LooksAlike(cfg, items[a].title, items[b].title)
  {
    hide LooksAlike;
    assert Adjacent(items, cfg, p[n], p[n + 1]);
    var a, b := if p[n] < p[n + 1] then p[n] else p[n + 1], if p[n] < p[n + 1] then p[n + 1] else p[n];
    SameProductLooksAlike(cfg, items[a], items[b]);
  }

  /** Two offers that look alike end under one survivor. */
  lemma LookalikesShareASurvivor(items: seq<Product>, cfg: Config, picks: seq<nat>, kept: seq<Product>, i: nat, j: nat)
    returns (c: nat)
    requires KeepsCheapest(items, cfg, picks, kept)
    requires i < j < |items| && LooksAlike(cfg, items[i].title, items[j].title)
    ensures c < |kept| && c < |picks| && picks[c] < |items| && kept[c] == items[picks[c]]
    ensures Linked(items, cfg, i, picks[c]) && Linked(items, cfg, j, picks[c])
    ensures kept[c].price <= items[i].price && kept[c].price <= items[j].price
  {
    hide LooksAlike, Linked;
    SameProductLooksAlike(cfg, items[i], items[j]);
    LinkedStep(items, cfg, j, i);
    c := NoCheaperOfferLost(items, cfg, picks, kept, i);
    LinkedTrans(items, cfg, j, i, picks[c]);
    var d := NoCheaperOfferLost(items, cfg, picks, kept, j);
    if c != d {
      LinkedSym(items, cfg, j, picks[c]);
      LinkedTrans(items, cfg, picks[c], j, picks[d]);
      SurvivorsUnlinked(items, cfg, picks, kept, c, d);
    }
  }

  /** Offers that pairwise do not look alike are all kept, in order. */
  lemma UnlikeOffersAreKept(items: seq<Product>, cfg: Config, picks: seq<nat>, kept: seq<Product>)
    requires KeepsCheapest(items, cfg, picks, kept)
    requires forall i, j :: 0 <= i < j < |items| ==> !LooksAlike(cfg, items[i].title, items[j].title)
    ensures kept == items
  {
    hide LooksAlike, KeepsCheapest;
    forall i, j | 0 <= i < j < |items|
      ensures !SameProduct(cfg, items[i], items[j])
    {
      SameProductLooksAlike(cfg, items[i], items[j]);
    }
    AloneIsKept(items, cfg, picks, kept);
  }

  /** Every item is linked to exactly the leader of its cluster. */
  lemma {:induction false} LeaderOf(items: seq<Product>, cfg: Config, i: nat, k: nat) returns (c: nat)
    requires i < k <= |items|
    ensures c < |Leaders(items, cfg, k)| && Linked(items, cfg, Leaders(items, cfg, k)[c], i)
    decreases i, k
  {
    hide Linked;
    if i < k - 1 {
      c := LeaderOf(items, cfg, i, k - 1);
    } else if LinkedEarlier(items, cfg, i) {
      var j :| 0 <= j < i && Linked(items, cfg, j, i);
      c := LeaderOf(items, cfg, j, k - 1);
      LinkedTrans(items, cfg, Leaders(items, cfg, k - 1)[c], j, i);
    } else {
      c := |Leaders(items, cfg, k)| - 1;
      LinkedSelf(items, cfg, i);
    }
  }

  lemma {:induction false} LeadersUnlinked(items: seq<Product>, cfg: Config, k: nat, c: nat, d: nat)
    requires k <= |items| && c < d < |Leaders(items, cfg, k)|
    ensures !Linked(items, cfg, Leaders(items, cfg, k)[c], Leaders(items, cfg, k)[d])
    decreases k
  {
    hide Linked;
    if d < |Leaders(items, cfg, k - 1)| {
      LeadersUnlinked(items, cfg, k - 1, c, d);
    }
  }

  /** Every item has a survivor of its own cluster that costs no more. */
  lemma NoCheaperOfferLost(items: seq<Product>, cfg: Config, picks: seq<nat>, kept: seq<Product>, i: nat)
    returns (c: nat)
    requires KeepsCheapest(items, cfg, picks, kept) && i < |items|
    ensures c < |kept| && picks[c] < |items| && kept[c] == items[picks[c]]
    ensures Linked(items, cfg, i, picks[c]) && kept[c].price <= items[i].price
  {
    hide Linked;
    c := LeaderOf(items, cfg, i, |items|);
    var leader := Leaders(items, cfg, |items|)[c];
    LinkedSym(items, cfg, leader, i);
    LinkedTrans(items, cfg, i, leader, picks[c]);
  }

  /** One survivor a cluster. */
  lemma SurvivorsUnlinked(items: seq<Product>, cfg: Config, picks: seq<nat>, kept: seq<Product>, c: nat, d: nat)
    requires KeepsCheapest(items, cfg, picks, kept) && c < |picks| && d < |picks| && c != d
    ensures !Linked(items, cfg, picks[c], picks[d])
  {
    hide Linked, Leaders;
    var a, b := if c < d then c else d, if c < d then d else c;
    var la, lb := Leaders(items, cfg, |items|)[a], Leaders(items, cfg, |items|)[b];
    if Linked(items, cfg, picks[c], picks[d]) {
      if d < c { LinkedSym(items, cfg, picks[c], picks[d]); }
      LinkedTrans(items, cfg, la, picks[a], picks[b]);
      LinkedSym(items, cfg, lb, picks[b]);
      LinkedTrans(items, cfg, la, picks[b], lb);
      LeadersUnlinked(items, cfg, |items|, a, b);
    }
  }

  /** The contract leaves no choice: the list kept is determined by the input. */
  lemma DedupIsDeterminate(items: seq<Product>, cfg: Config, picks: seq<nat>, kept: seq<Product>,
                           picks': seq<nat>, kept': seq<Product>)
    requires KeepsCheapest(items, cfg, picks, kept) && KeepsCheapest(items, cfg, picks', kept')
    ensures picks == picks' && kept == kept'
  {
    hide Linked, Leaders;
    forall c | 0 <= c < |picks|
      ensures picks[c] == picks'[c]
    {
      var ms := Members(items, cfg, Leaders(items, cfg, |items|)[c], |items|);
      var a :| 0 <= a < |ms| && ms[a] == picks[c] && CheapestAt(items, ms, a);
      var b :| 0 <= b < |ms| && ms[b] == picks'[c] && CheapestAt(items, ms, b);
      assert a == b;
    }
  }

  ghost predicate Symmetric(cfg: Config) {
    forall s, t :: cfg.sim(s, t) == cfg.sim(t, s)
  }

  lemma SameProductSym(cfg: Config, p: Product, q: Product)
    requires Symmetric(cfg)
    ensures SameProduct(cfg, p, q) == SameProduct(cfg, q, p)
  {
    assert cfg.sim(p.title, q.title) == cfg.sim(q.title, p.title);
  }

  /** Survivors that are pairwise different products form singleton clusters. */
  lemma {:induction false} AllLeaders(items: seq<Product>, cfg: Config, k: nat)
    requires k <= |items|
    requires forall i, j :: 0 <= i < j < |items| ==> !SameProduct(cfg, items[i], items[j])
    ensures |Leaders(items, cfg, k)| == k && forall c :: 0 <= c < k ==> Leaders(items, cfg, k)[c] == c
  {
    if k > 0 {
      var m := k - 1;
      AllLeaders(items, cfg, m);
      forall j | 0 <= j < m
        ensures !Linked(items, cfg, j, m)
      {
        UnmatchedIsAlone(items, cfg, j, m);
      }
    }
  }

  lemma UnmatchedIsAlone(items: seq<Product>, cfg: Config, i: int, j: int)
    requires forall i, j :: 0 <= i < j < |items| ==> !SameProduct(cfg, items[i], items[j])
    ensures Linked(items, cfg, i, j) ==> i == j
  {
    if p :| Chain(items, cfg, p, i, j) {
      if |p| > 1 {
        assert Adjacent(items, cfg, p[0], p[0 + 1]);
      }
    }
  }

  lemma AloneIsKept(items: seq<Product>, cfg: Config, picks: seq<nat>, kept: seq<Product>)
    requires forall i, j :: 0 <= i < j < |items| ==> !SameProduct(cfg, items[i], items[j])
    requires KeepsCheapest(items, cfg, picks, kept)
    ensures kept == items
  {
    AllLeaders(items, cfg, |items|);
    forall c | 0 <= c < |items|
      ensures kept[c] == items[c]
    {
      UnmatchedIsAlone(items, cfg, c, picks[c]);
    }
  }

  /** Running the pass on its own output returns the same list. */
  lemma DedupIdempotent(items: seq<Product>, cfg: Config, picks: seq<nat>, kept: seq<Product>,
                        picks': seq<nat>, kept': seq<Product>)
    requires Symmetric(cfg)
    requires KeepsCheapest(items, cfg, picks, kept) && KeepsCheapest(kept, cfg, picks', kept')
    ensures kept' == kept
  {
    hide SameProduct, Linked, Leaders, FirstCheapest, Members;
    forall c, d | 0 <= c < d < |kept|
      ensures !SameProduct(cfg, kept[c], kept[d])
    {
      SurvivorsUnlinked(items, cfg, picks, kept, c, d);
      SameProductSym(cfg, kept[c], kept[d]);
      if SameProduct(cfg, kept[c], kept[d]) {
        if picks[c] == picks[d] {
          LinkedSelf(items, cfg, picks[c]);
        } else {
          assert Adjacent(items, cfg, picks[c], picks[d]);
          LinkedStep(items, cfg, picks[c], picks[d]);
        }
      }
    }
    AloneIsKept(kept, cfg, picks', kept');
  }
}
