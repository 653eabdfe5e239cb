/** Python's OrderedDict as the two caches use it: the order is least recently used first. */
module OrderedDicts {
  import opened Sets
  import opened Sorting

  datatype OrderedDict<+V> = OrderedDict(order: seq<string>, data: map<string, V>)

  ghost predicate Valid<V>(d: OrderedDict<V>) {
    NoDuplicates(d.order) && forall k :: k in d.order <==> k in d.data
  }

  function Without(s: seq<string>, k: string): seq<string> {
    if s == [] then [] else Without(s[..|s| - 1], k) + (if s[|s| - 1] == k then [] else [s[|s| - 1]])
  }

  /** The order after k is used. */
  function Touch(s: seq<string>, k: string): seq<string> { Without(s, k) + [k] }

  function TouchAll(s: seq<string>, ks: seq<string>): seq<string> {
    if ks == [] then s else Touch(TouchAll(s, ks[..|ks| - 1]), ks[|ks| - 1])
  }

  function MoveToEnd<V>(d: OrderedDict<V>, k: string): OrderedDict<V> { d.(order := Touch(d.order, k)) }

  /** `d[k] = v` and then `d.move_to_end(k)`. */
  function Put<V>(d: OrderedDict<V>, k: string, v: V): OrderedDict<V> {
    OrderedDict(Touch(d.order, k), d.data[k := v])
  }

  /** `while len(d) > max: d.popitem(last=False)`. */
  function Trim<V>(d: OrderedDict<V>, max: nat): OrderedDict<V>
    decreases |d.order|
  {
    if |d.order| <= max then d else Trim(OrderedDict(d.order[1..], d.data - {d.order[0]}), max)
  }

  lemma {:induction false} WithoutMember(s: seq<string>, k: string)
    ensures forall x :: x in Without(s, k) <==> x in s && x != k
  {
    if s != [] {
      var n := |s| - 1;
      WithoutMember(s[..n], k);
      assert s == s[..n] + [s[n]];
    }
  }

  lemma {:induction false} WithoutKeepsDistinct(s: seq<string>, k: string)
    requires NoDuplicates(s)
    ensures NoDuplicates(Without(s, k)) && |s| - 1 <= |Without(s, k)| <= |s|
    ensures k !in s ==> Without(s, k) == s
  {
    if s != [] {
      var n := |s| - 1;
      WithoutKeepsDistinct(s[..n], k);
      WithoutMember(s[..n], k);
      assert s == s[..n] + [s[n]];
      assert s[n] !in s[..n];
    }
  }

  lemma {:induction false} WithoutConcat(a: seq<string>, b: seq<string>, k: string)
    ensures Without(a + b, k) == Without(a, k) + Without(b, k)
    decreases |b|
  {
    if b == [] {
      assert a + b == a;
    } else {
      assert (a + b)[..|a + b| - 1] == a + b[..|b| - 1];
      WithoutConcat(a, b[..|b| - 1], k);
    }
  }

  lemma TouchMember(s: seq<string>, k: string)
    ensures forall x :: x in Touch(s, k) <==> x in s || x == k
  {
    WithoutMember(s, k);
  }

  lemma TouchKeepsDistinct(s: seq<string>, k: string)
    requires NoDuplicates(s)
    ensures NoDuplicates(Touch(s, k)) && |Touch(s, k)| >= |s|
    ensures k in s ==> |Touch(s, k)| == |s|
  {
    WithoutKeepsDistinct(s, k);
    WithoutMember(s, k);
    hide Without;
    var w := Without(s, k);
    if k in s {
      SameSizeDropsNothing(s, w, k);
    }
  }

  /** A list that lacks an element of the longer one is shorter. */
  lemma SameSizeDropsNothing(s: seq<string>, w: seq<string>, k: string)
    requires NoDuplicates(s) && NoDuplicates(w) && k in s && |s| - 1 <= |w| <= |s|
    requires forall x :: x in w <==> x in s && x != k
    ensures |w| == |s| - 1
  {
    var a, b := set x | x in s, set x | x in w;
    DistinctCount(s);
    DistinctCount(w);
    assert b == a - {k};
  }

  lemma {:induction false} TouchAllKeeps(s: seq<string>, ks: seq<string>)
    requires NoDuplicates(s)
    ensures NoDuplicates(TouchAll(s, ks)) && forall x :: x in TouchAll(s, ks) <==> x in s || x in ks
    ensures |TouchAll(s, ks)| >= |s| && ((forall k :: k in ks ==> k in s) ==> |TouchAll(s, ks)| == |s|)
  {
    if ks != [] {
      var n := |ks| - 1;
      TouchAllKeeps(s, ks[..n]);
      TouchKeepsDistinct(TouchAll(s, ks[..n]), ks[n]);
      TouchMember(TouchAll(s, ks[..n]), ks[n]);
      assert ks == ks[..n] + [ks[n]];
    }
  }

  lemma {:induction false} TouchAllConcat(s: seq<string>, a: seq<string>, b: seq<string>)
    ensures TouchAll(s, a + b) == TouchAll(TouchAll(s, a), b)
    decreases |b|
  {
    if b == [] {
      assert a + b == a;
    } else {
      assert (a + b)[..|a + b| - 1] == a + b[..|b| - 1];
      TouchAllConcat(s, a, b[..|b| - 1]);
    }
  }

  lemma PutKeepsValid<V>(d: OrderedDict<V>, k: string, v: V)
    requires Valid(d)
    ensures Valid(Put(d, k, v))
  {
    TouchKeepsDistinct(d.order, k);
    TouchMember(d.order, k);
  }

  function LastN(s: seq<string>, n: nat): seq<string> { if |s| <= n then s else s[|s| - n..] }

  /** Trimming keeps the most recently used entries and drops the others, values untouched. */
  lemma {:induction false} TrimKeepsLast<V>(d: OrderedDict<V>, max: nat)
    requires Valid(d)
    ensures Valid(Trim(d, max)) && Trim(d, max).order == LastN(d.order, max)
    ensures forall k :: k in Trim(d, max).data ==> k in d.data && Trim(d, max).data[k] == d.data[k]
    decreases |d.order|
  {
    if |d.order| > max {
      var e := OrderedDict(d.order[1..], d.data - {d.order[0]});
      assert forall k :: k in e.order <==> k in d.order && k != d.order[0];
      TrimKeepsLast(e, max);
    }
  }

  // ---------------------------------------------------------------- recency

  /** `part` is the recent end of `full`, and all of it unless at least `max` long. */
  ghost predicate Covers(max: nat, full: seq<string>, part: seq<string>) {
    |part| <= |full| && part == full[|full| - |part|..] && (|part| >= max || part == full)
  }

  lemma CoversSplit(max: nat, full: seq<string>, part: seq<string>) returns (dropped: seq<string>)
    requires Covers(max, full, part)
    ensures full == dropped + part && (|part| >= max || dropped == [])
  {
    dropped := full[..|full| - |part|];
  }

  lemma CoversJoin(max: nat, dropped: seq<string>, part: seq<string>)
    requires |part| >= max || dropped == []
    ensures Covers(max, dropped + part, part)
  {
  }

  lemma TouchKeepsCover(max: nat, full: seq<string>, part: seq<string>, k: string)
    requires Covers(max, full, part) && NoDuplicates(full) && NoDuplicates(part)
    ensures Covers(max, Touch(full, k), Touch(part, k))
  {
    hide Covers, Without, NoDuplicates;
    var dropped := CoversSplit(max, full, part);
    WithoutConcat(dropped, part, k);
    TouchKeepsDistinct(part, k);
    assert Touch(full, k) == Without(dropped, k) + Touch(part, k);
    WithoutNothing(k);
    CoversJoin(max, Without(dropped, k), Touch(part, k));
  }

  lemma WithoutNothing(k: string)
    ensures Without([], k) == []
  {
  }

  lemma {:induction false} TouchAllKeepsCover(max: nat, full: seq<string>, part: seq<string>, ks: seq<string>)
    requires Covers(max, full, part) && NoDuplicates(full) && NoDuplicates(part)
    ensures Covers(max, TouchAll(full, ks), TouchAll(part, ks))
  {
    if ks != [] {
      var n := |ks| - 1;
      TouchAllKeepsCover(max, full, part, ks[..n]);
      TouchAllKeeps(full, ks[..n]);
      TouchAllKeeps(part, ks[..n]);
      TouchKeepsCover(max, TouchAll(full, ks[..n]), TouchAll(part, ks[..n]), ks[n]);
    }
  }

  lemma RecentEndKept(max: nat, full: seq<string>, k: string)
    requires NoDuplicates(full) && k in LastN(full, max)
    ensures Touch(LastN(full, max), k) == LastN(Touch(full, k), max)
  {
    var part := LastN(full, max);
    assert NoDuplicates(part);
    TouchKeepsCover(max, full, part, k);
    TouchKeepsDistinct(part, k);
    TouchKeepsDistinct(full, k);
    hide Touch, NoDuplicates;
  }

  lemma {:induction false} WithoutKeepsBefore(s: seq<string>, k: string, a: string, b: string)
    requires Before(s, a, b) && a != k && b != k
    ensures Before(Without(s, k), a, b)
  {
    var n := |s| - 1;
    var i, j :| 0 <= i < j < |s| && s[i] == a && s[j] == b;
    var w := Without(s[..n], k);
    if j < n {
      assert s[..n][i] == a && s[..n][j] == b;
      WithoutKeepsBefore(s[..n], k, a, b);
      var x, y :| 0 <= x < y < |w| && w[x] == a && w[y] == b;
      assert Without(s, k)[x] == a && Without(s, k)[y] == b;
    } else {
      WithoutMember(s[..n], k);
      assert s[..n][i] == a && a in w;
      var x :| 0 <= x < |w| && w[x] == a;
      assert Without(s, k)[x] == a && Without(s, k)[|w|] == b;
    }
  }

  /** What the order means: of two keys, the one whose last use is later comes later. */
  lemma {:induction false} LaterUseIsLater(ks: seq<string>, i: nat, j: nat)
    requires i < j < |ks| && ks[i] !in ks[i + 1..] && ks[j] !in ks[j + 1..]
    ensures Before(TouchAll([], ks), ks[i], ks[j])
  {
    var n := |ks| - 1;
    var front := TouchAll([], ks[..n]);
    assert ks[j] in ks[i + 1..];
    hide Before;
    if j < n {
      assert ks[n] in ks[i + 1..] && ks[n] in ks[j + 1..];
      assert ks[..n][i + 1..] <= ks[i + 1..] && ks[..n][j + 1..] <= ks[j + 1..];
      LaterUseIsLater(ks[..n], i, j);
      WithoutKeepsBefore(front, ks[n], ks[i], ks[j]);
      BeforeStays(Without(front, ks[n]), ks[n], ks[i], ks[j]);
    } else {
      TouchAllKeeps([], ks[..n]);
      assert ks[..n][i] == ks[i];
      WithoutMember(front, ks[n]);
      BeforeLast(Without(front, ks[n]), ks[i], ks[n]);
    }
  }

  lemma BeforeStays(s: seq<string>, k: string, a: string, b: string)
    requires Before(s, a, b)
    ensures Before(s + [k], a, b)
  {
    var x, y :| 0 <= x < y < |s| && s[x] == a && s[y] == b;
    assert (s + [k])[x] == a && (s + [k])[y] == b;
  }

  lemma BeforeLast(s: seq<string>, a: string, k: string)
    requires a in s
    ensures Before(s + [k], a, k)
  {
    var x :| 0 <= x < |s| && s[x] == a;
    assert (s + [k])[x] == a && (s + [k])[|s|] == k;
  }

  lemma TrimKeepsCover(max: nat, full: seq<string>, part: seq<string>)
    requires Covers(max, full, part)
    ensures Covers(max, full, LastN(part, max)) && LastN(part, max) == LastN(full, max)
  {
  }
}
