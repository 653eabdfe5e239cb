/** The typosquat check of `dealfinder/tool_trust.py`: a two-row Levenshtein loop and the
    filter built on it. `Lev` is the recurrence the loop fills in; `EditPath` is the meaning. */
module EditDistance {
  import opened Options

  // ---------------------------------------------------------------- meaning

  ghost predicate InsertsOne(s: string, t: string) {
    |t| == |s| + 1 && exists i :: 0 <= i <= |s| && t == s[..i] + [t[i]] + s[i..]
  }

  ghost predicate ReplacesOne(s: string, t: string) {
    |t| == |s| && exists i :: 0 <= i < |s| && s[i] != t[i] && t == s[i := t[i]]
  }

  /** One single-character insertion, deletion or substitution turns `s` into `t`. */
  ghost predicate OneEdit(s: string, t: string) {
    InsertsOne(s, t) || InsertsOne(t, s) || ReplacesOne(s, t)
  }

  /** `p` spells out |p| - 1 single-character edits leading from `a` to `b`. */
  ghost predicate EditPath(p: seq<string>, a: string, b: string) {
    && |p| > 0 && p[0] == a && p[|p| - 1] == b
    && forall i :: 0 <= i < |p| - 1 ==> OneEdit(p[i], p[i + 1])
  }

  // ---------------------------------------------------------------- recurrence

  function Min(x: nat, y: nat): nat { if x <= y then x else y }

  function Differ(c: char, d: char): nat { if c == d then 0 else 1 }

  function Front(s: string): string
    requires s != ""
  {
    s[..|s| - 1]
  }

  function Last(s: string): char
    requires s != ""
  {
    s[|s| - 1]
  }

  function Lev(a: string, b: string): nat
    decreases |a| + |b|
  {
    if a == "" then |b|
    else if b == "" then |a|
    else Min(Min(Lev(Front(a), b) + 1, Lev(a, Front(b)) + 1),
             Lev(Front(a), Front(b)) + Differ(Last(a), Last(b)))
  }

  // ---------------------------------------------------------------- the two-row loop

  lemma LevStep(x: string, y: string, x': string, y': string)
    requires x != "" && y != "" && x' == Front(x) && y' == Front(y)
    ensures Lev(x, y) == Min(Min(Lev(x', y) + 1, Lev(x, y') + 1), Lev(x', y') + Differ(Last(x), Last(y)))
  {
  }

  /** The cell the inner loop adds, from its three neighbours. */
  lemma LevCell(a: string, b: string, i: nat, j: nat)
    requires 0 < i <= |a| && 0 < j <= |b|
    ensures Lev(a[..i], b[..j]) ==
            Min(Min(Lev(a[..i - 1], b[..j]) + 1, Lev(a[..i], b[..j - 1]) + 1),
                Lev(a[..i - 1], b[..j - 1]) + Differ(a[i - 1], b[j - 1]))
  {
    hide Lev;
    var x, y, x', y' := a[..i], b[..j], a[..i - 1], b[..j - 1];
    assert x' == Front(x) && y' == Front(y);
    LevStep(x, y, x', y');
  }

  /** `row` holds the distances from one prefix of the first name to the prefixes of `b`. */
  ghost predicate Row(row: seq<nat>, x: string, b: string) {
    |row| <= |b| + 1 && forall k :: 0 <= k < |row| ==> row[k] == Lev(x, b[..k])
  }

  lemma FirstRow(row: seq<nat>, b: string)
    requires |row| == |b| + 1 && forall j :: 0 <= j <= |b| ==> row[j] == j
    ensures Row(row, "", b)
  {
  }

  lemma RowStart(x: string, b: string)
    ensures Row([|x|], x, b)
  {
    assert b[..0] == "";
  }

  method EditDistance(a: string, b: string) returns (d: nat)
    ensures d == Lev(a, b)
  {
    hide Lev;
    if a == b {
      LevSelf(a);
      return 0;
    }
    var prev: seq<nat> := seq(|b| + 1, j => j);
    FirstRow(prev, b);
    assert a[..0] == "";
    for i := 1 to |a| + 1
      invariant |prev| == |b| + 1 && Row(prev, a[..i - 1], b)
    {
      var cur: seq<nat> := [i];
      RowStart(a[..i], b);
      for j := 1 to |b| + 1
        invariant |cur| == j && Row(cur, a[..i], b)
      {
        LevCell(a, b, i, j);
        cur := cur + [Min(Min(prev[j] + 1, cur[j - 1] + 1), prev[j - 1] + Differ(a[i - 1], b[j - 1]))];
      }
      prev := cur;
    }
    assert a[..|a|] == a && b[..|b|] == b;
    d := prev[|prev| - 1];
  }

  // ---------------------------------------------------------------- a metric

  lemma {:induction false} LevSelf(a: string)
    ensures Lev(a, a) == 0
  {
    if a != "" { LevSelf(Front(a)); }
  }

  lemma {:induction false} LevZero(a: string, b: string)
    requires Lev(a, b) == 0
    ensures a == b
    decreases |a| + |b|
  {
    if a != "" && b != "" {
      LevZero(Front(a), Front(b));
      assert a == Front(a) + [Last(a)] && b == Front(b) + [Last(b)];
    }
  }

  lemma {:induction false} LevSymmetric(a: string, b: string)
    ensures Lev(a, b) == Lev(b, a)
    decreases |a| + |b|
  {
    if a != "" && b != "" {
      LevSymmetric(Front(a), b);
      LevSymmetric(a, Front(b));
      LevSymmetric(Front(a), Front(b));
    }
  }

  /** The distance is at least the difference in length. */
  lemma {:induction false} LevLength(a: string, b: string)
    ensures |a| - |b| <= Lev(a, b) && |b| - |a| <= Lev(a, b)
    ensures Lev(a, b) <= |a| + |b|
    decreases |a| + |b|
  {
    if a != "" && b != "" {
      LevLength(Front(a), b);
      LevLength(a, Front(b));
      LevLength(Front(a), Front(b));
    }
  }

  lemma {:induction false} LevTriangle(a: string, b: string, c: string)
    ensures Lev(a, c) <= Lev(a, b) + Lev(b, c)
    decreases |a| + |b| + |c|
  {
    LevLength(a, b);
    LevLength(b, c);
    LevLength(a, c);
    if a != "" && b != "" && c != "" {
      LevTriangle(Front(a), b, c);
      LevTriangle(a, b, Front(c));
      LevTriangle(a, Front(b), c);
      LevTriangle(a, Front(b), Front(c));
      LevTriangle(Front(a), Front(b), c);
      LevTriangle(Front(a), Front(b), Front(c));
    }
  }

  // ---------------------------------------------------------------- minimality

  lemma {:induction false} LevCommonSuffix(x: string, y: string, z: string)
    ensures Lev(x + z, y + z) <= Lev(x, y)
    decreases |z|
  {
    if z == "" {
      assert x + z == x && y + z == y;
    } else {
      LevCommonSuffix(x, y, Front(z));
      assert Front(x + z) == x + Front(z) && Front(y + z) == y + Front(z);
    }
  }

  lemma OneEditCostsOne(s: string, t: string)
    requires OneEdit(s, t)
    ensures Lev(s, t) == 1
  {
    assert s != t;
    if Lev(s, t) == 0 { LevZero(s, t); }
    if InsertsOne(s, t) {
      InsertCost(s, t);
    } else if InsertsOne(t, s) {
      InsertCost(t, s);
      LevSymmetric(s, t);
    } else {
      ReplaceCost(s, t);
    }
  }

  lemma ReplaceLastCost(p: string, c: char, d: char)
    ensures Lev(p + [c], p + [d]) <= 1
  {
    assert Front(p + [c]) == p && Front(p + [d]) == p;
    LevSelf(p);
  }

  lemma InsertLastCost(p: string, c: char)
    ensures Lev(p, p + [c]) <= 1
  {
    assert Front(p + [c]) == p;
    LevSelf(p);
  }

  lemma ReplaceCost(s: string, t: string)
    requires ReplacesOne(s, t)
    ensures Lev(s, t) <= 1
  {
    hide Lev;
    var i :| 0 <= i < |s| && s[i] != t[i] && t == s[i := t[i]];
    var p, z := s[..i], s[i + 1..];
    assert s == (p + [s[i]]) + z && t == (p + [t[i]]) + z;
    LevCommonSuffix(p + [s[i]], p + [t[i]], z);
    ReplaceLastCost(p, s[i], t[i]);
  }

  lemma InsertCost(s: string, t: string)
    requires InsertsOne(s, t)
    ensures Lev(s, t) <= 1
  {
    hide Lev;
    var i :| 0 <= i <= |s| && t == s[..i] + [t[i]] + s[i..];
    var p, z := s[..i], s[i..];
    assert s == p + z && t == (p + [t[i]]) + z;
    LevCommonSuffix(p, p + [t[i]], z);
    InsertLastCost(p, t[i]);
  }

  /** No sequence of edits beats the distance. */
  lemma {:induction false} LevIsLowerBound(p: seq<string>, a: string, b: string)
    requires EditPath(p, a, b)
    ensures Lev(a, b) <= |p| - 1
    decreases |p|
  {
    if |p| == 1 {
      LevSelf(a);
    } else {
      LevIsLowerBound(p[1..], p[1], b);
      OneEditCostsOne(a, p[1]);
      LevTriangle(a, p[1], b);
    }
  }

  function AppendAll(p: seq<string>, z: string): (r: seq<string>)
    ensures |r| == |p| && forall i :: 0 <= i < |p| ==> r[i] == p[i] + z
  {
    seq(|p|, i requires 0 <= i < |p| => p[i] + z)
  }

  lemma OneEditAppend(s: string, t: string, z: string)
    requires OneEdit(s, t)
    ensures OneEdit(s + z, t + z)
  {
    if InsertsOne(s, t) {
      InsertAppend(s, t, z);
    } else if InsertsOne(t, s) {
      InsertAppend(t, s, z);
    } else {
      var i :| 0 <= i < |s| && s[i] != t[i] && t == s[i := t[i]];
      assert t + z == (s + z)[i := (t + z)[i]];
    }
  }

  lemma InsertAppend(s: string, t: string, z: string)
    requires InsertsOne(s, t)
    ensures InsertsOne(s + z, t + z)
  {
    var i :| 0 <= i <= |s| && t == s[..i] + [t[i]] + s[i..];
    assert t + z == (s + z)[..i] + [(t + z)[i]] + (s + z)[i..];
  }

  lemma PathAppend(p: seq<string>, a: string, b: string, z: string)
    requires EditPath(p, a, b)
    ensures EditPath(AppendAll(p, z), a + z, b + z)
  {
    var r := AppendAll(p, z);
    forall i | 0 <= i < |r| - 1
      ensures OneEdit(r[i], r[i + 1])
    {
      OneEditAppend(p[i], p[i + 1], z);
    }
  }

  lemma PushIsOneEdit(s: string, c: char)
    ensures OneEdit(s, s + [c])
  {
    assert s + [c] == s[..|s|] + [(s + [c])[|s|]] + s[|s|..];
  }

  lemma PathPush(p: seq<string>, a: string, b: string, t: string)
    requires EditPath(p, a, b) && OneEdit(b, t)
    ensures EditPath(p + [t], a, t)
  {
  }

  lemma SwapLast(s: string, c: char, d: char)
    requires c != d
    ensures OneEdit(s + [c], s + [d])
  {
    var i := |s|;
    assert (s + [d]) == (s + [c])[i := (s + [d])[i]];
  }

  lemma FrontLast(s: string)
    requires s != ""
    ensures s == Front(s) + [Last(s)]
  {
  }

  /** The distance is reached by some sequence of edits. */
  lemma {:induction false} LevIsReached(a: string, b: string) returns (p: seq<string>)
    ensures EditPath(p, a, b) && |p| - 1 == Lev(a, b)
    decreases |a| + |b|
  {
    if a == "" && b == "" {
      p := [""];
    } else if a != "" && (b == "" || Lev(a, b) == Lev(Front(a), b) + 1) {
      if b == "" { LevLength(Front(a), b); }
      p := LevIsReached(Front(a), b);
      FrontLast(a);
      PushIsOneEdit(Front(a), Last(a));
      p := [a] + p;
    } else if a == "" || Lev(a, b) == Lev(a, Front(b)) + 1 {
      p := LevIsReached(a, Front(b));
      FrontLast(b);
      PushIsOneEdit(Front(b), Last(b));
      PathPush(p, a, Front(b), b);
      p := p + [b];
    } else {
      p := LevIsReached(Front(a), Front(b));
      FrontLast(a);
      FrontLast(b);
      PathAppend(p, Front(a), Front(b), [Last(a)]);
      p := AppendAll(p, [Last(a)]);
      if Last(a) != Last(b) {
        SwapLast(Front(b), Last(a), Last(b));
        PathPush(p, a, Front(b) + [Last(a)], b);
        p := p + [b];
      }
    }
  }

  /** The loop's value is the least number of single-character edits. */
  lemma LevIsLeastNumberOfEdits(a: string, b: string)
    ensures exists p :: EditPath(p, a, b) && |p| - 1 == Lev(a, b)
    ensures forall p :: EditPath(p, a, b) ==> Lev(a, b) <= |p| - 1
  {
    var p := LevIsReached(a, b);
    forall q | EditPath(q, a, b)
      ensures Lev(a, b) <= |q| - 1
    {
      LevIsLowerBound(q, a, b);
    }
  }

  lemma DistanceOneIsOneEdit(s: string, t: string)
    ensures Lev(s, t) == 1 <==> OneEdit(s, t)
  {
    if OneEdit(s, t) {
      OneEditCostsOne(s, t);
    }
    if Lev(s, t) == 1 {
      var p := LevIsReached(s, t);
      assert OneEdit(p[0], p[1]);
    }
  }

  // ---------------------------------------------------------------- the filter

  /** Warns exactly when an unknown name is one edit away from a known one. Which of several
      such names is reported depends on the set's iteration order, as in the original. */
  method CheckDependency(name: string, knownGood: set<string>) returns (warning: Option<string>)
    ensures warning.Some? <==> name !in knownGood && exists good :: good in knownGood && OneEdit(name, good)
    ensures warning.Some? ==> warning.value in knownGood && OneEdit(name, warning.value)
  {
    if name in knownGood {
      return None;
    }
    var rest := knownGood;
    while rest != {}
      invariant rest <= knownGood
      invariant forall good :: good in knownGood && good !in rest ==> !OneEdit(name, good)
      decreases rest
    {
      var good :| good in rest;
      DistanceOneIsOneEdit(name, good);
      LevLength(name, good);
      if -1 <= |name| - |good| <= 1 {
        var d := EditDistance(name, good);
        if d == 1 {
          return Some(good);
        }
      }
      rest := rest - {good};
    }
    return None;
  }
}
