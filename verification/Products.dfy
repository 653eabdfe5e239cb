/** The fields of `dealfinder/schema.py`'s Product that dedup and aggregation read, and the
    exact-match key of `dealfinder/ingest.py`. */
module Products {
  import opened Text

  datatype Product = Product(id: string, title: string, brand: string, source: string, price: real)

  /** ASCII whitespace, as `str.strip` and `\s` see it. */
  predicate IsSpace(c: char) { c == ' ' || '\t' <= c <= '\r' || '\U{1c}' <= c <= '\U{1f}' }

  function TrimLeft(s: string): string {
    if s != "" && IsSpace(s[0]) then TrimLeft(s[1..]) else s
  }

  function TrimRight(s: string): string {
    if s != "" && IsSpace(s[|s| - 1]) then TrimRight(s[..|s| - 1]) else s
  }

  /** Python's `str.strip`. */
  function Strip(s: string): string { TrimRight(TrimLeft(s)) }

  /** The blanks `str.strip` removes, in ASCII. */
  ghost predicate Blank(s: string) {
    forall i :: 0 <= i < |s| ==> s[i] == ' ' || 9 <= s[i] as int <= 13 || 28 <= s[i] as int <= 31
  }

  /** Stripping takes away blanks at both ends, and all of them. */
  lemma StripIsExact(s: string)
    ensures exists a, b :: 0 <= a <= b <= |s| && Strip(s) == s[a..b] && Blank(s[..a]) && Blank(s[b..])
    ensures Strip(s) != "" ==> !Blank([Strip(s)[0]]) && !Blank([Strip(s)[|Strip(s)| - 1]])
  {
    var a := LeftStripped(s);
    var t := TrimLeft(s);
    var b := RightStripped(t);
    assert Strip(s) == s[a..a + b];
    assert s[a + b..] == t[b..];
    if Strip(s) != "" { assert t[..b][0] == t[0]; }
  }

  lemma {:induction false} LeftStripped(s: string) returns (a: nat)
    ensures a <= |s| && TrimLeft(s) == s[a..] && Blank(s[..a]) && (a < |s| ==> !Blank([s[a]]))
  {
    if s != "" && IsSpace(s[0]) {
      var n := LeftStripped(s[1..]);
      a := n + 1;
      assert s[..a] == [s[0]] + s[1..][..n] && s[1..][n..] == s[a..];
    } else {
      a := 0;
      if s != "" { assert [s[0]][0] == s[0]; }
    }
  }

  lemma BlankSnoc(s: string, n: nat, b: nat)
    requires b <= n == |s| - 1 && Blank(s[..n][b..]) && IsSpace(s[n])
    ensures Blank(s[b..])
  {
    assert s[b..] == s[..n][b..] + [s[n]];
  }

  lemma {:induction false} RightStripped(s: string) returns (b: nat)
    ensures b <= |s| && TrimRight(s) == s[..b] && Blank(s[b..]) && (b > 0 ==> !Blank([s[b - 1]]))
  {
    if s != "" && IsSpace(s[|s| - 1]) {
      var n := |s| - 1;
      b := RightStripped(s[..n]);
      hide TrimRight;
      assert s[..n][..b] == s[..b];
      BlankSnoc(s, n, b);
    } else {
      b := |s|;
      if s != "" { assert [s[b - 1]][0] == s[b - 1]; }
    }
  }

  /** Same brand and title, case and outer blanks aside. A missing brand is "". */
  function DedupKey(p: Product): string {
    Lower(Strip(p.brand)) + "|" + Lower(Strip(p.title))
  }

  /** Products that agree in brand and title, but for case and outer blanks, have one key; and two products
      of one key agree so unless one of the brands has a bar, which also joins the two parts. */
  lemma KeyIsExact(p: Product, q: Product)
    ensures Lower(Strip(p.brand)) == Lower(Strip(q.brand)) && Lower(Strip(p.title)) == Lower(Strip(q.title)) ==>
              DedupKey(p) == DedupKey(q)
    ensures DedupKey(p) == DedupKey(q) && '|' !in p.brand && '|' !in q.brand ==>
              Lower(Strip(p.brand)) == Lower(Strip(q.brand)) && Lower(Strip(p.title)) == Lower(Strip(q.title))
  {
    var a, b := Lower(Strip(p.brand)), Lower(Strip(q.brand));
    if DedupKey(p) == DedupKey(q) && '|' !in p.brand && '|' !in q.brand {
      NoBar(p.brand);
      NoBar(q.brand);
      var u, v := DedupKey(p), DedupKey(q);
      assert u[|a|] == '|' && v[|b|] == '|';
      assert forall i :: 0 <= i < |a| ==> u[i] == a[i];
      assert forall i :: 0 <= i < |b| ==> v[i] == b[i];
      assert |a| == |b|;
      assert u[..|a|] == a && v[..|b|] == b;
      assert u[|a| + 1..] == Lower(Strip(p.title)) && v[|b| + 1..] == Lower(Strip(q.title));
    }
  }

  lemma NoBar(s: string)
    requires '|' !in s
    ensures '|' !in Lower(Strip(s))
  {
    StripIsExact(s);
    hide *;
    var stripped := Strip(s);
    var a, b :| 0 <= a <= b <= |s| && stripped == s[a..b] && Blank(s[..a]) && Blank(s[b..]);
    forall i | 0 <= i < |stripped|
      ensures stripped[i] != '|'
    {
      assert s[a..b][i] == s[a + i];
    }
    LowerAddsNoBar(stripped);
  }

  lemma LowerAddsNoBar(s: string)
    requires '|' !in s
    ensures '|' !in Lower(s)
  {
  }
}
