/** Lower-casing and the `[a-z0-9]+` token scan that `dedup.py` and `rag.py` share. Python
    strings are modelled with ASCII case folding. */
module Text {

  predicate IsDigit(c: char) { '0' <= c <= '9' }

  predicate IsLetter(c: char) { 'a' <= c <= 'z' }

  predicate IsAlnum(c: char) { IsDigit(c) || IsLetter(c) }

  function LowerChar(c: char): char {
    if 'A' <= c <= 'Z' then c - 'A' + 'a' else c
  }

  function Lower(s: string): (r: string)
    ensures |r| == |s| && forall i :: 0 <= i < |s| ==> r[i] == LowerChar(s[i])
  {
    seq(|s|, i requires 0 <= i < |s| => LowerChar(s[i]))
  }

  predicate Alnum(w: string) { forall i :: 0 <= i < |w| ==> IsAlnum(w[i]) }

  /** Lower-casing, character by character: capitals become small letters, the rest stays. */
  lemma LowerReads(s: string, i: nat)
    requires i < |s|
    ensures |Lower(s)| == |s|
    ensures 'A' <= s[i] <= 'Z' ==> 'a' <= Lower(s)[i] <= 'z' && Lower(s)[i] as int == s[i] as int + 32
    ensures !('A' <= s[i] <= 'Z') ==> Lower(s)[i] == s[i]
  {
  }

  /** A token character is a small letter or a digit. */
  lemma AlnumReads(c: char)
    ensures IsAlnum(c) <==> 'a' <= c <= 'z' || '0' <= c <= '9'
  {
  }

  /** A nonempty token as a list, for the end of a run. */
  function Flush(cur: string): seq<string> { if cur == "" then [] else [cur] }

  /** The scan from `s` on, `cur` being the run read so far. */
  function Scan(s: string, cur: string): seq<string>
    decreases |s|
  {
    if s == "" then Flush(cur)
    else if IsAlnum(s[0]) then Scan(s[1..], cur + [s[0]])
    else Flush(cur) + Scan(s[1..], "")
  }

  /** The maximal runs of letters and digits, left to right. */
  function Words(s: string): seq<string> { Scan(s, "") }

  /** s[i..j] is a run of letters and digits that cannot be extended on either side. */
  ghost predicate MaximalRun(s: string, i: int, j: int) {
    && 0 <= i < j <= |s| && Alnum(s[i..j])
    && (i == 0 || !IsAlnum(s[i - 1])) && (j == |s| || !IsAlnum(s[j]))
  }

  lemma {:induction false} ScanAlnum(s: string, cur: string)
    requires Alnum(cur)
    ensures forall w :: w in Scan(s, cur) ==> w != "" && Alnum(w)
    decreases |s|
  {
    if s != "" {
      if IsAlnum(s[0]) {
        ScanAlnum(s[1..], cur + [s[0]]);
      } else {
        ScanAlnum(s[1..], "");
      }
    }
  }

  /** A separator splits the scan. */
  lemma {:induction false} ScanSplit(a: string, sep: char, b: string, cur: string)
    requires !IsAlnum(sep)
    ensures Scan(a + [sep] + b, cur) == Scan(a, cur) + Scan(b, "")
    decreases |a|
  {
    var s := a + [sep] + b;
    if a == "" {
      assert s[1..] == b;
    } else {
      assert s[1..] == a[1..] + [sep] + b;
      if IsAlnum(a[0]) {
        ScanSplit(a[1..], sep, b, cur + [a[0]]);
      } else {
        ScanSplit(a[1..], sep, b, "");
        assert Flush(cur) + (Scan(a[1..], "") + Scan(b, "")) == (Flush(cur) + Scan(a[1..], "")) + Scan(b, "");
      }
    }
  }

  lemma {:induction false} ScanRun(w: string, s: string, cur: string)
    requires Alnum(w)
    ensures Scan(w + s, cur) == Scan(s, cur + w)
    decreases |w|
  {
    if w == "" {
      assert w + s == s && cur + w == cur;
    } else {
      assert (w + s)[1..] == w[1..] + s;
      ScanRun(w[1..], s, cur + [w[0]]);
      assert cur + [w[0]] + w[1..] == cur + w;
    }
  }

  /** The text before position i, when a run starts there, contributes its own tokens. */
  lemma WordsAt(s: string, i: nat)
    requires i <= |s| && (i == 0 || !IsAlnum(s[i - 1]))
    ensures exists before :: Words(s) == before + Scan(s[i..], "")
  {
    if i == 0 {
      assert s[0..] == s;
      assert Words(s) == [] + Scan(s[0..], "");
    } else {
      assert s == s[..i - 1] + [s[i - 1]] + s[i..];
      ScanSplit(s[..i - 1], s[i - 1], s[i..], "");
    }
  }

  lemma RunIsWord(s: string, i: int, j: int)
    requires MaximalRun(s, i, j)
    ensures s[i..j] in Words(s)
  {
    var w, rest := s[i..j], s[j..];
    WordsAt(s, i);
    assert s[i..] == w + rest;
    ScanRun(w, rest, "");
    assert "" + w == w;
    assert Scan(s[i..], "") == Scan(rest, w);
    assert w in Scan(rest, w) by {
      if rest != "" { assert !IsAlnum(rest[0]); }
    }
  }

  /** The scan at position k of `t`, inside the run that began at c, yields only maximal runs. */
  lemma {:induction false} WordIsRun(t: string, c: nat, k: nat, w: string)
    requires c <= k <= |t| && Alnum(t[c..k]) && (c == 0 || !IsAlnum(t[c - 1]))
    requires w in Scan(t[k..], t[c..k])
    ensures exists i, j :: MaximalRun(t, i, j) && t[i..j] == w
    decreases |t| - k
  {
    var rest, cur := t[k..], t[c..k];
    if w in Flush(cur) && (k == |t| || !IsAlnum(t[k])) {
      assert MaximalRun(t, c, k) && t[c..k] == w;
    } else {
      assert k < |t| && rest[1..] == t[k + 1..];
      if IsAlnum(t[k]) {
        assert cur + [t[k]] == t[c..k + 1];
        WordIsRun(t, c, k + 1, w);
      } else {
        assert t[k + 1..k + 1] == "";
        WordIsRun(t, k + 1, k + 1, w);
      }
    }
  }

  /** The scan finds exactly the maximal runs: what `re.findall(r"[a-z0-9]+", s)` returns. */
  lemma WordsAreMaximalRuns(s: string, w: string)
    ensures w in Words(s) <==> exists i, j :: MaximalRun(s, i, j) && s[i..j] == w
  {
    if w in Words(s) {
      assert s[0..] == s && s[0..0] == "";
      WordIsRun(s, 0, 0, w);
    }
    if i, j :| MaximalRun(s, i, j) && s[i..j] == w {
      RunIsWord(s, i, j);
    }
  }

  /** Position x lies in one of the spans. */
  ghost predicate Covered(spans: seq<(int, int)>, x: int) {
    exists k :: 0 <= k < |spans| && spans[k].0 <= x < spans[k].1
  }

  /** Each span is a maximal run from position c on, and spells its word. */
  ghost predicate Spelled(t: string, c: nat, words: seq<string>, spans: seq<(int, int)>) {
    && |spans| == |words|
    && (forall k :: 0 <= k < |spans| ==>
          c <= spans[k].0 && MaximalRun(t, spans[k].0, spans[k].1) && t[spans[k].0..spans[k].1] == words[k])
  }

  ghost predicate Apart(spans: seq<(int, int)>) {
    forall k, l :: 0 <= k < l < |spans| ==> spans[k].1 < spans[l].0
  }

  /** From position c on, these spans of t are maximal runs, spell the given words, stand in order, and
      hold every letter and digit: they are all the runs, from left to right. */
  ghost predicate Spans(t: string, c: nat, words: seq<string>, spans: seq<(int, int)>) {
    && Spelled(t, c, words, spans) && Apart(spans)
    && (forall x :: c <= x < |t| && IsAlnum(t[x]) ==> Covered(spans, x))
  }

  /** Spans found after position k still stand after a separator, or a run that ends at k. */
  lemma SpansAfter(t: string, c: nat, k: nat, words: seq<string>, more: seq<(int, int)>)
    requires c <= k < |t| && Alnum(t[c..k]) && !IsAlnum(t[k]) && (c == 0 || !IsAlnum(t[c - 1]))
    requires Spans(t, k + 1, words, more)
    ensures c == k ==> Spans(t, c, words, more)
    ensures c < k ==> Spans(t, c, [t[c..k]] + words, [(c as int, k as int)] + more)
  {
    assert forall x :: c <= x < k ==> t[x] == t[c..k][x - c];
    var spans := [(c as int, k as int)] + more;
    forall x | c <= x < |t| && IsAlnum(t[x])
      ensures x > k ==> Covered(more, x)
      ensures c < k ==> Covered(spans, x)
    {
      CoveredEither([(c as int, k as int)], more, x);
      if x < k { assert spans[0].0 <= x < spans[0].1; }
    }
    hide Covered, Alnum;
    if c < k {
      assert MaximalRun(t, c, k);
      hide MaximalRun;
      assert Spelled(t, c, [t[c..k]] + words, spans);
    }
  }

  lemma LastRun(t: string, c: nat)
    requires c <= |t| && Alnum(t[c..]) && (c == 0 || !IsAlnum(t[c - 1]))
    ensures if c == |t| then Spans(t, c, [], []) else Spans(t, c, [t[c..]], [(c as int, |t|)])
  {
    assert t[c..|t|] == t[c..];
    var spans := [(c as int, |t|)];
    forall x | c <= x < |t|
      ensures Covered(spans, x)
    {
      assert spans[0].0 <= x < spans[0].1;
    }
  }

  lemma CoveredEither(a: seq<(int, int)>, b: seq<(int, int)>, x: int)
    ensures Covered(a, x) || Covered(b, x) ==> Covered(a + b, x)
  {
    if k :| 0 <= k < |a| && a[k].0 <= x < a[k].1 { assert (a + b)[k] == a[k]; }
    if k :| 0 <= k < |b| && b[k].0 <= x < b[k].1 { assert (a + b)[|a| + k] == b[k]; }
  }

  lemma {:induction false} ScanSpans(t: string, c: nat, k: nat) returns (spans: seq<(int, int)>)
    requires c <= k <= |t| && Alnum(t[c..k]) && (c == 0 || !IsAlnum(t[c - 1]))
    ensures Spans(t, c, Scan(t[k..], t[c..k]), spans)
    decreases |t| - k
  {
    hide Spans, Alnum;
    var rest, cur := t[k..], t[c..k];
    var here: seq<(int, int)> := if c == k then [] else [(c as int, k as int)];
    if k == |t| {
      assert t[c..k] == t[c..] && Flush(cur) == if c == k then [] else [cur];
      LastRun(t, c);
      spans := here;
    } else if IsAlnum(t[k]) {
      assert rest[1..] == t[k + 1..] && cur + [t[k]] == t[c..k + 1];
      AlnumPush(cur, t[k]);
      spans := ScanSpans(t, c, k + 1);
    } else {
      assert rest[1..] == t[k + 1..] && t[k + 1..k + 1] == "";
      AlnumNothing();
      spans := ScanSpans(t, k + 1, k + 1);
      SpansAfter(t, c, k, Scan(t[k + 1..], ""), spans);
      if c < k {
        spans := here + spans;
      } else {
        assert Flush(cur) + Scan(t[k + 1..], "") == Scan(t[k + 1..], "");
      }
    }
  }

  lemma AlnumPush(w: string, c: char)
    ensures Alnum(w) && IsAlnum(c) ==> Alnum(w + [c])
  {
  }

  lemma AlnumNothing()
    ensures Alnum("")
  {
  }

  /** The words are all the maximal runs, from left to right; the first word is the leftmost run. */
  lemma WordsAreTheRunsInOrder(s: string) returns (spans: seq<(int, int)>)
    ensures Spans(s, 0, Words(s), spans)
    ensures Words(s) != [] ==> forall x :: 0 <= x < spans[0].0 ==> !IsAlnum(s[x])
  {
    assert s[0..] == s && s[0..0] == "";
    spans := ScanSpans(s, 0, 0);
    forall x | Words(s) != [] && 0 <= x < spans[0].0
      ensures !IsAlnum(s[x])
    {
      assert !Covered(spans, x);
    }
  }
}
