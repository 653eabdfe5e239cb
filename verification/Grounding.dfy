/** The grounding check of `dealfinder/rag.py` and the deterministic answer it must always pass.
    Both are proofs about text: which dollar amounts and which model codes a string names. */
module Grounding {
  import opened Options
  import opened Text
  import opened Products

  // ---------------------------------------------------------------- dollar amounts

  /** `(?:\.\d{1,2})?` */
  function Cents(s: string): string {
    if |s| >= 2 && s[0] == '.' && IsDigit(s[1]) then (if |s| >= 3 && IsDigit(s[2]) then s[..3] else s[..2]) else ""
  }

  /** `[\d,]*(?:\.\d{1,2})?` */
  function AmountTail(s: string): string {
    if s != "" && (IsDigit(s[0]) || s[0] == ',') then [s[0]] + AmountTail(s[1..]) else Cents(s)
  }

  /** The amount that follows a dollar sign: `\s?(\d[\d,]*(?:\.\d{1,2})?)`. */
  function Amount(s: string): Option<string> {
    var t := if s != "" && IsSpace(s[0]) then s[1..] else s;
    if t != "" && IsDigit(t[0]) then Some([t[0]] + AmountTail(t[1..])) else None
  }

  /** The first k characters of w are digits and commas, a digit first. */
  ghost predicate Whole(w: string, k: int) {
    1 <= k <= |w| && '0' <= w[0] <= '9' && forall i :: 0 <= i < k ==> '0' <= w[i] <= '9' || w[i] == ','
  }

  /** Nothing, or a point and one or two digits. */
  ghost predicate Fraction(r: string) {
    r == "" || (2 <= |r| <= 3 && r[0] == '.' && forall i :: 1 <= i < |r| ==> '0' <= r[i] <= '9')
  }

  /** `\d[\d,]*(?:\.\d{1,2})?`, on the whole of w. */
  ghost predicate IsAmount(w: string) { exists k :: Whole(w, k) && Fraction(w[k..]) }

  /** How long the digits and commas go on. */
  function CommaRun(s: string): (n: nat)
    ensures n <= |s| && forall i :: 0 <= i < n ==> IsDigit(s[i]) || s[i] == ','
    ensures n < |s| ==> !IsDigit(s[n]) && s[n] != ','
  {
    if s != "" && (IsDigit(s[0]) || s[0] == ',') then 1 + CommaRun(s[1..]) else 0
  }

  lemma {:induction false} TailIsRunAndCents(s: string)
    ensures AmountTail(s) == s[..CommaRun(s)] + Cents(s[CommaRun(s)..])
  {
    if s != "" && (IsDigit(s[0]) || s[0] == ',') {
      TailIsRunAndCents(s[1..]);
      assert s[1..][CommaRun(s[1..])..] == s[CommaRun(s)..];
    }
  }

  /** The amount found is the longest text of that form after the dollar sign and at most one blank, and
      there is none only if no text there has the form. */
  lemma AmountIsLongest(s: string)
    ensures var t := if s != "" && IsSpace(s[0]) then s[1..] else s;
            && (Amount(s).Some? ==> Amount(s).value <= t && IsAmount(Amount(s).value))
            && (forall n :: 0 <= n <= |t| && IsAmount(t[..n]) ==> Amount(s).Some? && n <= |Amount(s).value|)
  {
    var t := if s != "" && IsSpace(s[0]) then s[1..] else s;
    if t != "" && IsDigit(t[0]) {
      var u, c := t[1..], CommaRun(t[1..]);
      TailIsRunAndCents(u);
      var w := [t[0]] + AmountTail(u);
      assert w == t[..1 + c] + Cents(u[c..]) && u[c..] == t[1 + c..];
      hide AmountTail, Cents, CommaRun, IsAmount;
      AmountForm(t, c, w);
      forall n | 0 <= n <= |t| && IsAmount(t[..n])
        ensures n <= |w|
      {
        NoLongerForm(t, c, n);
      }
    } else {
      forall n | 0 <= n <= |t|
        ensures !IsAmount(t[..n])
      {
        if n > 0 { assert t[..n][0] == t[0]; }
      }
    }
  }

  lemma CentsIsFraction(s: string)
    ensures Fraction(Cents(s)) && Cents(s) <= s
    ensures forall m :: 0 <= m <= |s| && Fraction(s[..m]) ==> m <= |Cents(s)|
  {
    forall m | 0 <= m <= |s| && Fraction(s[..m])
      ensures m <= |Cents(s)|
    {
      if m >= 2 { assert s[..m][0] == s[0] && s[..m][1] == s[1] && (m == 3 ==> s[..m][2] == s[2]); }
    }
  }

  lemma AmountForm(t: string, c: nat, w: string)
    requires t != "" && IsDigit(t[0]) && c == CommaRun(t[1..]) && w == t[..1 + c] + Cents(t[1 + c..])
    ensures w <= t && IsAmount(w)
  {
    var k := 1 + c;
    CentsIsFraction(t[k..]);
    hide Cents, Fraction;
    assert w[k..] == Cents(t[k..]);
    assert forall i :: 0 <= i < k ==> w[i] == t[i];
    forall i | 1 <= i < k
      ensures IsDigit(t[i]) || t[i] == ','
    {
      assert t[i] == t[1..][i - 1];
    }
    assert Whole(w, k) && Fraction(w[k..]);
  }

  lemma NoLongerForm(t: string, c: nat, n: nat)
    requires t != "" && IsDigit(t[0]) && c == CommaRun(t[1..]) && n <= |t| && IsAmount(t[..n])
    ensures n <= 1 + c + |Cents(t[1 + c..])|
  {
    var k :| Whole(t[..n], k) && Fraction(t[..n][k..]);
    CentsIsFraction(t[1 + c..]);
    hide Cents;
    var rest := t[..n][k..];
    assert forall i :: 0 <= i < n ==> t[..n][i] == t[i];
    assert k < n ==> rest[0] == t[k];
    assert forall i :: 0 <= i < |t| - 1 ==> t[1..][i] == t[i + 1];
    if k < 1 + c {
      assert t[k] == t[1..][k - 1];
    } else {
      assert rest == t[k..][..n - k];
    }
  }

  /** The amounts of a text are those found after its dollar signs. */
  lemma {:induction false} AmountsAreFound(s: string, g: string)
    ensures g in Amounts(s) <==> exists i :: 0 <= i < |s| && s[i] == '$' && Amount(s[i + 1..]) == Some(g)
  {
    if s != "" {
      AmountsAreFound(s[1..], g);
      hide Amount;
      if i :| 0 <= i < |s| - 1 && s[1..][i] == '$' && Amount(s[1..][i + 1..]) == Some(g) {
        assert s[1..][i + 1..] == s[i + 1 + 1..] && s[i + 1] == '$';
      }
      if i :| 0 <= i < |s| && s[i] == '$' && Amount(s[i + 1..]) == Some(g) {
        if i > 0 { assert s[1..][i - 1] == '$' && s[1..][i - 1 + 1..] == s[i + 1..]; }
      }
    }
  }

  /** Every amount the text names. A match holds no second dollar sign, so matches never overlap. */
  function Amounts(s: string): set<string> {
    if s == "" then {}
    else (if s[0] == '$' && Amount(s[1..]).Some? then {Amount(s[1..]).value} else {}) + Amounts(s[1..])
  }

  /** Text that no amount can run into. */
  ghost predicate Stops(r: string) {
    r == "" ||
    (!IsDigit(r[0]) && r[0] != ',' && (|r| == 1 || !IsDigit(r[1]) || (r[0] != '.' && !IsSpace(r[0]))))
  }

  lemma {:induction false} AmountTailLocal(x: string, r: string)
    requires Stops(r)
    ensures AmountTail(x + r) == AmountTail(x)
  {
    if x == "" {
      assert x + r == r;
    } else if IsDigit(x[0]) || x[0] == ',' {
      assert (x + r)[1..] == x[1..] + r;
      AmountTailLocal(x[1..], r);
    }
  }

  lemma AmountLocal(x: string, r: string)
    requires Stops(r)
    ensures Amount(x + r) == Amount(x)
  {
    var y := x + r;
    if x == "" {
      assert y == r;
    } else {
      assert y[1..] == x[1..] + r;
      if IsSpace(x[0]) {
        if |x| > 1 {
          assert y[1..][1..] == x[1..][1..] + r;
          AmountTailLocal(x[1..][1..], r);
        }
      } else {
        AmountTailLocal(x[1..], r);
      }
    }
  }

  /** Amounts are found piece by piece when the second piece stops the first. */
  lemma {:induction false} AmountsSplit(x: string, r: string)
    requires Stops(r)
    ensures Amounts(x + r) == Amounts(x) + Amounts(r)
  {
    if x == "" {
      assert x + r == r;
    } else {
      assert (x + r)[1..] == x[1..] + r;
      AmountLocal(x[1..], r);
      AmountsSplit(x[1..], r);
    }
  }

  lemma {:induction false} AmountsSkip(x: string, r: string)
    requires '$' !in x
    ensures Amounts(x + r) == Amounts(r)
  {
    if x == "" {
      assert x + r == r;
    } else {
      assert (x + r)[1..] == x[1..] + r;
      AmountsSkip(x[1..], r);
    }
  }

  lemma {:induction false} NoDollarNoAmounts(x: string)
    requires '$' !in x
    ensures Amounts(x) == {}
  {
    AmountsSkip(x, "");
    assert x + "" == x;
  }

  /** Two-decimal money, whole percentages, and the two-decimal form an amount is compared in. */
  datatype Format = Format(money: real -> string, percent: real -> string, canon: string -> string)

  ghost predicate NumberText(s: string) { forall i :: 0 <= i < |s| ==> IsDigit(s[i]) || s[i] == '.' || s[i] == '-' }

  ghost predicate WellShaped(f: Format) {
    (forall x :: NumberText(f.money(x))) && (forall x :: NumberText(f.percent(x)))
  }

  function Prices(f: Format, text: string): set<string> { set g | g in Amounts(text) :: f.canon(g) }

  /** The scanning loop of `_prices_in`. */
  method PricesIn(f: Format, text: string) returns (prices: set<string>)
    ensures prices == Prices(f, text)
  {
    prices := {};
    var i := 0;
    while i < |text|
      invariant 0 <= i <= |text|
      invariant Prices(f, text) == prices + Prices(f, text[i..])
    {
      assert text[i..][1..] == text[i + 1..];
      if text[i] == '$' && Amount(text[i + 1..]).Some? {
        prices := prices + {f.canon(Amount(text[i + 1..]).value)};
      }
      i := i + 1;
    }
  }

  // ---------------------------------------------------------------- model codes

  predicate Mixed(w: string) {
    (exists i :: 0 <= i < |w| && IsDigit(w[i])) && (exists i :: 0 <= i < |w| && IsLetter(w[i]))
  }

  /** The model codes a text names: its words that mix letters and digits. */
  function Codes(text: string): set<string> { set w | w in Words(Lower(text)) && Mixed(w) }

  function Collapse(s: string, inGap: bool): string
    decreases |s|
  {
    if s == "" then ""
    else if IsAlnum(s[0]) then [s[0]] + Collapse(s[1..], false)
    else (if inGap then "" else " ") + Collapse(s[1..], true)
  }

  /** `re.sub(r"[^a-z0-9]+", " ", s.lower()).strip()` */
  function Norm(s: string): string { Strip(Collapse(Lower(s), false)) }

  lemma {:induction false} CollapseKeepsWords(s: string, cur: string)
    ensures Scan(Collapse(s, false), cur) == Scan(s, cur)
    ensures Scan(Collapse(s, true), "") == Scan(s, "")
    decreases |s|
  {
    if s == "" {
    } else if IsAlnum(s[0]) {
      CollapseKeepsWords(s[1..], cur + [s[0]]);
      CollapseKeepsWords(s[1..], "" + [s[0]]);
      assert ([s[0]] + Collapse(s[1..], false))[1..] == Collapse(s[1..], false);
    } else {
      CollapseKeepsWords(s[1..], "");
      assert (" " + Collapse(s[1..], true))[1..] == Collapse(s[1..], true);
      assert "" + Collapse(s[1..], true) == Collapse(s[1..], true);
      assert Flush("") + Scan(s[1..], "") == Scan(s[1..], "");
    }
  }

  /** Letters, digits and blanks only. */
  ghost predicate Blanked(s: string) { forall i :: 0 <= i < |s| ==> IsAlnum(s[i]) || s[i] == ' ' }

  /** Letters, digits and single blanks only. */
  ghost predicate Plain(s: string) {
    Blanked(s) && forall i, j :: 0 <= i && j == i + 1 && j < |s| ==> s[i] != ' ' || s[j] != ' '
  }

  lemma {:induction false} CollapseIsPlain(s: string, inGap: bool)
    ensures Plain(Collapse(s, inGap))
    ensures inGap && Collapse(s, inGap) != "" ==> Collapse(s, inGap)[0] != ' '
    decreases |s|
  {
    if s != "" { CollapseIsPlain(s[1..], if IsAlnum(s[0]) then false else true); }
  }

  lemma {:induction false} TrimLeftKeeps(s: string)
    ensures Words(TrimLeft(s)) == Words(s) && (Plain(s) ==> Plain(TrimLeft(s)))
    ensures TrimLeft(s) != "" ==> !IsSpace(TrimLeft(s)[0])
  {
    if s != "" && IsSpace(s[0]) {
      TrimLeftKeeps(s[1..]);
      assert Flush("") + Scan(s[1..], "") == Scan(s[1..], "");
    }
  }

  lemma {:induction false} TrimRightKeeps(s: string)
    ensures Words(TrimRight(s)) == Words(s) && (Plain(s) ==> Plain(TrimRight(s)))
    ensures TrimRight(s) != "" ==> !IsSpace(TrimRight(s)[|TrimRight(s)| - 1]) && s != "" && TrimRight(s)[0] == s[0]
  {
    if s != "" && IsSpace(s[|s| - 1]) {
      var front, c := s[..|s| - 1], s[|s| - 1];
      TrimRightKeeps(front);
      ScanSplit(front, c, "", "");
      assert s == front + [c] + "";
      assert Words(front) + Scan("", "") == Words(front);
    }
  }

  /** Normalising changes no word, and leaves single blanks between words only. */
  lemma NormKeepsWords(s: string)
    ensures Words(Norm(s)) == Words(Lower(s)) && Plain(Norm(s))
    ensures Norm(s) != "" ==> IsAlnum(Norm(s)[0]) && IsAlnum(Norm(s)[|Norm(s)| - 1])
  {
    CollapseKeepsWords(Lower(s), "");
    CollapseIsPlain(Lower(s), false);
    TrimLeftKeeps(Collapse(Lower(s), false));
    TrimRightKeeps(TrimLeft(Collapse(Lower(s), false)));
  }

  // ---------------------------------------------------------------- the token pattern

  function LetterRun(s: string): nat { if s != "" && IsLetter(s[0]) then 1 + LetterRun(s[1..]) else 0 }

  function DigitRun(s: string): nat { if s != "" && IsDigit(s[0]) then 1 + DigitRun(s[1..]) else 0 }

  function AlnumRun(s: string): (n: nat)
    ensures n <= |s| && Alnum(s[..n]) && (n < |s| ==> !IsAlnum(s[n]))
  {
    if s != "" && IsAlnum(s[0]) then 1 + AlnumRun(s[1..]) else 0
  }

  /** `[a-z]+\d[a-z0-9]*|\d+[a-z]+[a-z0-9]*` matches here. */
  predicate CodeHere(s: string) {
    var l, d := LetterRun(s), DigitRun(s);
    (l > 0 && l < |s| && IsDigit(s[l])) || (d > 0 && d < |s| && IsLetter(s[d]))
  }

  /** `re.findall` with that pattern. */
  function FindCodes(s: string): seq<string>
    decreases |s|
  {
    if s == "" then []
    else if CodeHere(s) && AlnumRun(s) > 0 then [s[..AlnumRun(s)]] + FindCodes(s[AlnumRun(s)..])
    else FindCodes(s[1..])
  }

  lemma {:induction false} RunsEnd(s: string)
    ensures LetterRun(s) <= AlnumRun(s) && DigitRun(s) <= AlnumRun(s)
    ensures forall i :: 0 <= i < LetterRun(s) ==> IsLetter(s[i])
    ensures forall i :: 0 <= i < DigitRun(s) ==> IsDigit(s[i])
    ensures LetterRun(s) < |s| ==> !IsLetter(s[LetterRun(s)])
    ensures DigitRun(s) < |s| ==> !IsDigit(s[DigitRun(s)])
    ensures s != "" ==> (LetterRun(s) > 0 <==> IsLetter(s[0])) && (DigitRun(s) > 0 <==> IsDigit(s[0]))
  {
    if s != "" { RunsEnd(s[1..]); }
  }

  lemma MixedHasCode(s: string)
    requires Mixed(s[..AlnumRun(s)])
    ensures CodeHere(s)
  {
    RunsEnd(s);
    hide LetterRun, DigitRun, AlnumRun;
    var n, l, d := AlnumRun(s), LetterRun(s), DigitRun(s);
    var i :| 0 <= i < n && IsDigit(s[..n][i]);
    var j :| 0 <= j < n && IsLetter(s[..n][j]);
    assert IsAlnum(s[..n][0]) && IsDigit(s[i]) && IsLetter(s[j]);
    if IsLetter(s[0]) {
      assert l <= i && IsAlnum(s[..n][l]);
    } else {
      assert d <= j && IsAlnum(s[..n][d]);
    }
  }

  /** A model code: a word with a digit and a letter. */
  lemma CodesRead(text: string, w: string)
    ensures w in Codes(text)
            <==> w in Words(Lower(text)) && (exists i :: 0 <= i < |w| && '0' <= w[i] <= '9')
                 && exists i :: 0 <= i < |w| && 'a' <= w[i] <= 'z'
  {
  }

  /** The pattern matches exactly at a run that mixes letters and digits. */
  lemma CodeHereIsMixed(s: string)
    ensures CodeHere(s) <==> Mixed(s[..AlnumRun(s)])
  {
    if Mixed(s[..AlnumRun(s)]) { MixedHasCode(s); }
    RunsEnd(s);
    hide LetterRun, DigitRun, AlnumRun;
    var n, l, d := AlnumRun(s), LetterRun(s), DigitRun(s);
    var w := s[..n];
    if l > 0 && l < |s| && IsDigit(s[l]) {
      assert l < n && IsLetter(w[0]) && IsDigit(w[l]);
    } else if d > 0 && d < |s| && IsLetter(s[d]) {
      assert d < n && IsDigit(w[0]) && IsLetter(w[d]);
    }
  }

  lemma SkipOne(s: string)
    requires AlnumRun(s) > 0 && !Mixed(s[..AlnumRun(s)])
    ensures FindCodes(s) == FindCodes(s[1..]) && AlnumRun(s[1..]) == AlnumRun(s) - 1
    ensures !Mixed(s[1..][..AlnumRun(s) - 1]) && s[1..][AlnumRun(s) - 1..] == s[AlnumRun(s)..]
  {
    CodeHereIsMixed(s);
    assert FindCodes(s) == FindCodes(s[1..]);
    hide FindCodes, CodeHere;
    var n := AlnumRun(s);
    assert s[1..][..n - 1] == s[..n][1..] && s[1..][n - 1..] == s[n..];
  }

  /** A run without both kinds is passed over, character by character. */
  lemma {:induction false} UnmixedIsSkipped(s: string, n: nat)
    requires n == AlnumRun(s) && !Mixed(s[..n])
    ensures FindCodes(s) == FindCodes(s[n..])
    decreases n
  {
    hide FindCodes, Mixed, AlnumRun;
    if n == 0 {
      assert s[0..] == s;
    } else {
      SkipOne(s);
      UnmixedIsSkipped(s[1..], n - 1);
    }
  }

  /** The words of a text: its leading run, then the words of the rest. */
  lemma FirstWord(s: string, w: string)
    ensures w in Words(s) <==> (w == s[..AlnumRun(s)] && w != "") || w in Words(s[AlnumRun(s)..])
  {
    var n := AlnumRun(s);
    var first, rest := s[..n], s[n..];
    hide AlnumRun;
    assert s == first + rest && "" + first == first;
    ScanRun(first, rest, "");
    if rest != "" {
      assert Words(s) == Flush(first) + Scan(rest[1..], "") && Words(rest) == Flush("") + Scan(rest[1..], "");
    }
  }

  /** `re.findall` finds exactly the words that mix letters and digits. */
  lemma {:induction false} FindCodesExact(s: string, w: string)
    ensures w in FindCodes(s) <==> w in Words(s) && Mixed(w)
    decreases |s|
  {
    var n := AlnumRun(s);
    var first, rest := s[..n], s[n..];
    FirstWord(s, w);
    CodeHereIsMixed(s);
    if s == "" {
    } else if n == 0 {
      assert rest == s && s == [] + [s[0]] + s[1..];
      ScanSplit([], s[0], s[1..], "");
      assert Words(s) == Scan([], "") + Words(s[1..]) && Scan([], "") == [];
      assert s[..0] == "";
      FindCodesExact(s[1..], w);
    } else {
      FindCodesExact(rest, w);
      if !Mixed(first) {
        UnmixedIsSkipped(s, n);
      }
    }
  }

  // ---------------------------------------------------------------- codes of joined text

  predicate IsSeparator(c: char) { !IsAlnum(LowerChar(c)) }

  lemma LowerConcat(x: string, y: string)
    ensures Lower(x + y) == Lower(x) + Lower(y)
  {
  }

  lemma SeparatorFirst(x: string, c: char, t: string, w: string)
    requires !IsAlnum(c)
    ensures w in Words(x + ([c] + t)) <==> w in Words(x) || w in Words([c] + t)
  {
    ScanSplit(x, c, t, "");
    ScanSplit("", c, t, "");
    hide Scan;
    assert x + [c] + t == x + ([c] + t) && "" + [c] + t == [c] + t;
  }

  lemma SeparatorLast(t: string, c: char, y: string, w: string)
    requires !IsAlnum(c)
    ensures w in Words((t + [c]) + y) <==> w in Words(t + [c]) || w in Words(y)
  {
    ScanSplit(t, c, y, "");
    ScanSplit(t, c, "", "");
    hide Scan;
    assert t + [c] + "" == t + [c];
  }

  /** Across a separator no word joins the two pieces. */
  lemma WordsJoin(x: string, y: string, w: string)
    requires (x != "" && IsSeparator(x[|x| - 1])) || (y != "" && IsSeparator(y[0]))
    ensures w in Words(Lower(x + y)) <==> w in Words(Lower(x)) || w in Words(Lower(y))
  {
    LowerConcat(x, y);
    if y != "" && IsSeparator(y[0]) {
      assert Lower(y) == [LowerChar(y[0])] + Lower(y[1..]);
      hide Words;
      SeparatorFirst(Lower(x), LowerChar(y[0]), Lower(y[1..]), w);
    } else {
      var n := |x| - 1;
      assert Lower(x) == Lower(x[..n]) + [LowerChar(x[n])];
      hide Words;
      SeparatorLast(Lower(x[..n]), LowerChar(x[n]), Lower(y), w);
    }
  }

  lemma CodesJoin(x: string, y: string)
    requires (x != "" && IsSeparator(x[|x| - 1])) || (y != "" && IsSeparator(y[0]))
    ensures Codes(x + y) == Codes(x) + Codes(y)
  {
    forall w
      ensures w in Codes(x + y) <==> w in Codes(x) || w in Codes(y)
    {
      WordsJoin(x, y, w);
    }
  }

  ghost predicate NoDigits(s: string) { forall i :: 0 <= i < |s| ==> !IsDigit(s[i]) }

  lemma NoDigitsNoCodes(s: string)
    requires NoDigits(s)
    ensures Codes(s) == {}
  {
    forall w | w in Words(Lower(s))
      ensures !Mixed(w)
    {
      WordsAreMaximalRuns(Lower(s), w);
      var i, j :| MaximalRun(Lower(s), i, j) && Lower(s)[i..j] == w;
      forall k | 0 <= k < |w|
        ensures !IsDigit(w[k])
      {
        assert w[k] == Lower(s)[i + k] == LowerChar(s[i + k]);
      }
    }
  }

  lemma NumberTextNoCodes(s: string)
    requires NumberText(s)
    ensures Codes(s) == {}
  {
    forall w | w in Words(Lower(s))
      ensures !Mixed(w)
    {
      WordsAreMaximalRuns(Lower(s), w);
      var i, j :| MaximalRun(Lower(s), i, j) && Lower(s)[i..j] == w;
      forall k | 0 <= k < |w|
        ensures !IsLetter(w[k])
      {
        assert w[k] == Lower(s)[i + k] == LowerChar(s[i + k]);
      }
    }
  }

  // ---------------------------------------------------------------- the evidence

  datatype RetrievedItem = RetrievedItem(id: string, title: string, price: real, source: string,
                                         verdict: string, medianSignal: real, reason: string)

  function UpperChar(c: char): char { if 'a' <= c <= 'z' then c - 'a' + 'A' else c }

  function Upper(s: string): string { seq(|s|, i requires 0 <= i < |s| => UpperChar(s[i])) }

  function Decimal(n: nat): string {
    var digit := [('0' as int + n % 10) as char];
    if n < 10 then digit else Decimal(n / 10) + digit
  }

  function Money(f: Format, it: RetrievedItem): string { "$" + f.money(it.price) }

  /** What follows the price in a context line. */
  function LineTail(it: RetrievedItem): string {
    " (" + it.source + ") [" + Upper(it.verdict) + "] \U{2014} " + it.reason
  }

  function Line(f: Format, i: nat, it: RetrievedItem): string {
    ("[" + Decimal(i) + "] ") + (it.title + (" \U{2014} " + (Money(f, it) + LineTail(it))))
  }

  /** The numbered lines from number i on. */
  function Lines(f: Format, i: nat, items: seq<RetrievedItem>): string
    decreases |items|
  {
    if items == [] then ""
    else if |items| == 1 then Line(f, i, items[0])
    else Line(f, i, items[0]) + ("\n" + Lines(f, i + 1, items[1..]))
  }

  method BuildContext(f: Format, items: seq<RetrievedItem>) returns (context: string)
    ensures context == Lines(f, 1, items)
  {
    var lines: seq<string> := [];
    for i := 0 to |items|
      invariant |lines| == i && forall j :: 0 <= j < i ==> lines[j] == Line(f, j + 1, items[j])
    {
      lines := lines + [Line(f, i + 1, items[i])];
    }
    JoinedLines(f, 1, items, lines);
    context := Join(lines, "\n");
  }

  function Join(xs: seq<string>, sep: string): string {
    if xs == [] then "" else if |xs| == 1 then xs[0] else xs[0] + (sep + Join(xs[1..], sep))
  }

  lemma {:induction false} JoinedLines(f: Format, i: nat, items: seq<RetrievedItem>, lines: seq<string>)
    requires |lines| == |items| && forall j :: 0 <= j < |items| ==> lines[j] == Line(f, i + j, items[j])
    ensures Join(lines, "\n") == Lines(f, i, items)
    decreases |items|
  {
    if |items| > 1 {
      hide Line;
      JoinedLines(f, i + 1, items[1..], lines[1..]);
    }
  }

  /** The number a string of digits writes. */
  ghost function NumberOf(s: string): int {
    if s == "" then 0 else 10 * NumberOf(s[..|s| - 1]) + (s[|s| - 1] as int - '0' as int)
  }

  /** Numbers are written in digits, without a leading zero but for zero itself, and read back. */
  lemma {:induction false} DecimalReads(n: nat)
    ensures NumberOf(Decimal(n)) == n && Decimal(n) != ""
    ensures forall i :: 0 <= i < |Decimal(n)| ==> '0' <= Decimal(n)[i] <= '9'
    ensures n > 0 ==> Decimal(n)[0] != '0'
    ensures n < 10 ==> |Decimal(n)| == 1
  {
    if n >= 10 {
      DecimalReads(n / 10);
      var digit := [('0' as int + n % 10) as char];
      assert Decimal(n)[..|Decimal(n)| - 1] == Decimal(n / 10);
    } else {
      assert Decimal(n)[..0] == "";
    }
  }

  /** `upper`: small letters become capitals, the rest stays. */
  lemma UpperReads(s: string, i: nat)
    requires i < |s|
    ensures |Upper(s)| == |s|
    ensures 'a' <= s[i] <= 'z' ==> 'A' <= Upper(s)[i] <= 'Z' && Upper(s)[i] as int + 32 == s[i] as int
    ensures !('a' <= s[i] <= 'z') ==> Upper(s)[i] == s[i]
  {
  }

  lemma {:induction false} DecimalIsDigits(n: nat)
    ensures '$' !in Decimal(n)
  {
    if n >= 10 { DecimalIsDigits(n / 10); }
  }

  /** The amounts of one item's own text: its title, its price and its reason. */
  function ItemAmounts(f: Format, it: RetrievedItem): set<string> {
    Amounts(it.title) + Amounts(Money(f, it)) + Amounts(LineTail(it))
  }

  /** A context line names its item's amounts, whatever its number. */
  lemma LineAmounts(f: Format, i: nat, it: RetrievedItem)
    ensures Amounts(Line(f, i, it)) == ItemAmounts(f, it)
  {
    hide Amounts, Decimal, Money;
    DecimalIsDigits(i);
    var tail := LineTail(it);
    var rest := " \U{2014} " + (Money(f, it) + tail);
    assert Stops(tail) by { assert tail[0] == ' ' && tail[1] == '('; }
    assert Stops(rest) by { assert rest[0] == ' ' && rest[1] == '\U{2014}'; }
    hide LineTail;
    AmountsSkip("[" + Decimal(i) + "] ", it.title + rest);
    AmountsSplit(it.title, rest);
    AmountsSkip(" \U{2014} ", Money(f, it) + tail);
    AmountsSplit(Money(f, it), tail);
  }

  /** A context line, as it reads. */
  lemma LineReads(f: Format, i: nat, it: RetrievedItem)
    ensures Line(f, i, it) == "[" + Decimal(i) + "] " + it.title + " \U{2014} $" + f.money(it.price)
                              + " (" + it.source + ") [" + Upper(it.verdict) + "] \U{2014} " + it.reason
  {
    var dash := " \U{2014} $";
    assert dash == " \U{2014} " + "$";
    hide Decimal, Upper;
  }

  /** A text is accepted if every amount it names is the price of some retrieved item, in comparable form,
      and every long enough code a word of some retrieved title. */
  lemma ListingPriceIsAccepted(f: Format, items: seq<RetrievedItem>, text: string)
    requires items != []
    requires forall p :: p in Prices(f, text) ==> exists it :: it in items && p in Prices(f, "$" + f.money(it.price))
    requires forall w :: w in Codes(text) && |w| >= 3 ==> exists it :: it in items && w in Words(Lower(it.title))
    ensures Grounded(f, text, items)
  {
    hide Amounts, Codes, Words, Lines;
    forall p | p in Prices(f, text)
      ensures p in Prices(f, Lines(f, 1, items))
    {
      var it :| it in items && p in Prices(f, "$" + f.money(it.price));
      var k :| 0 <= k < |items| && items[k] == it;
      var g :| g in Amounts("$" + f.money(it.price)) && f.canon(g) == p;
      assert g in ItemAmounts(f, items[k]);
      ContextAmounts(f, 1, items, g);
    }
    forall w | w in Codes(text) && |w| >= 3
      ensures NamedByTitle(items, w)
    {
      var it :| it in items && w in Words(Lower(it.title));
      var k :| 0 <= k < |items| && items[k] == it;
    }
  }

  /** The price itself is such a text, for every retrieved item. */
  lemma ListingPriceIsGrounded(f: Format, items: seq<RetrievedItem>, it: RetrievedItem)
    requires WellShaped(f) && it in items
    ensures Grounded(f, "$" + f.money(it.price), items)
  {
    hide Amounts, Grounded;
    CodesJoin("$", f.money(it.price));
    NoDigitsNoCodes("$");
    NumberTextNoCodes(f.money(it.price));
    ListingPriceIsAccepted(f, items, "$" + f.money(it.price));
  }

  lemma LineStarts(f: Format, i: nat, items: seq<RetrievedItem>)
    requires items != []
    ensures Stops("\n" + Lines(f, i, items))
  {
    var r := "\n" + Lines(f, i, items);
    assert r[1] == '[';
  }

  /** The context names exactly the amounts of its items, in whatever order they stand. */
  lemma {:induction false} ContextAmounts(f: Format, i: nat, items: seq<RetrievedItem>, g: string)
    ensures g in Amounts(Lines(f, i, items)) <==> exists k :: 0 <= k < |items| && g in ItemAmounts(f, items[k])
    decreases |items|
  {
    hide Amounts, Line, ItemAmounts;
    if items == [] {
      NoDollarNoAmounts("");
    } else {
      LineAmounts(f, i, items[0]);
      if |items| > 1 {
        var rest := items[1..];
        LineStarts(f, i + 1, rest);
        AmountsSplit(Line(f, i, items[0]), "\n" + Lines(f, i + 1, rest));
        AmountsSkip("\n", Lines(f, i + 1, rest));
        ContextAmounts(f, i + 1, rest, g);
        if k :| 0 <= k < |rest| && g in ItemAmounts(f, rest[k]) {
          assert items[k + 1] == rest[k];
        }
        if k :| 0 <= k < |items| && g in ItemAmounts(f, items[k]) && k > 0 {
          assert rest[k - 1] == items[k];
        }
      }
    }
  }

  // ---------------------------------------------------------------- the check

  /** What "grounded" means: every price named is a price named by the evidence, and every model code
      of three or more characters is a word of some retrieved title. */
  ghost predicate Grounded(f: Format, text: string, items: seq<RetrievedItem>) {
    && items != []
    && Prices(f, text) <= Prices(f, Lines(f, 1, items))
    && forall w :: w in Codes(text) && |w| >= 3 ==> NamedByTitle(items, w)
  }

  ghost predicate NamedByTitle(items: seq<RetrievedItem>, w: string) {
    exists k :: 0 <= k < |items| && w in Words(Lower(items[k].title))
  }

  function Titles(items: seq<RetrievedItem>): (r: seq<string>)
    ensures |r| == |items| && forall i :: 0 <= i < |items| ==> r[i] == items[i].title
  {
    seq(|items|, i requires 0 <= i < |items| => items[i].title)
  }

  lemma {:induction false} WordsOfJoined(xs: seq<string>, w: string)
    ensures w in Words(Lower(Join(xs, " "))) <==> exists k :: 0 <= k < |xs| && w in Words(Lower(xs[k]))
  {
    hide Words, Lower;
    if xs == [] {
      NoWords(w);
    } else if |xs| > 1 {
      var rest := xs[1..];
      WordsJoin(xs[0], " " + Join(rest, " "), w);
      WordsJoin(" ", Join(rest, " "), w);
      NoWords(w);
      WordsOfJoined(rest, w);
      if k :| 0 <= k < |rest| && w in Words(Lower(rest[k])) {
        assert xs[k + 1] == rest[k];
      }
      if k :| 0 <= k < |xs| && w in Words(Lower(xs[k])) && k > 0 {
        assert rest[k - 1] == xs[k];
      }
    }
  }

  lemma NoWords(w: string)
    ensures w !in Words(Lower("")) && w !in Words(Lower(" "))
  {
    assert Lower("") == "" && Lower(" ") == " ";
    assert Scan(" ", "") == Flush("") + Scan("", "");
  }

  predicate OccursAt(needle: string, hay: string, i: int) {
    0 <= i <= |hay| - |needle| && hay[i..i + |needle|] == needle
  }

  /** Python's `needle in hay`. */
  ghost predicate Occurs(needle: string, hay: string) { exists i :: OccursAt(needle, hay, i) }

  method Contains(needle: string, hay: string) returns (r: bool)
    ensures r <==> Occurs(needle, hay)
  {
    var i := 0;
    while i + |needle| <= |hay|
      invariant 0 <= i
      invariant forall j :: OccursAt(needle, hay, j) ==> j >= i
    {
      if OccursAt(needle, hay, i) {
        return true;
      }
      i := i + 1;
    }
    return false;
  }

  /** Looking for " tok " in the padded, normalised text is looking for the word tok. */
  lemma PaddedSearchIsWord(text: string, tok: string)
    requires tok != "" && Alnum(tok)
    ensures Occurs(" " + tok + " ", " " + Norm(text) + " ") <==> tok in Words(Lower(text))
  {
    var hay, needle := " " + Norm(text) + " ", " " + tok + " ";
    PaddedWords(text, tok);
    WordsAreMaximalRuns(hay, tok);
    hide Words, Lower, Norm;
    if i :| OccursAt(needle, hay, i) {
      PaddedRun(hay, tok, i);
    }
    if tok in Words(hay) {
      var i, j :| MaximalRun(hay, i, j) && hay[i..j] == tok;
      RunIsPadded(hay, tok, i, j);
    }
  }

  lemma PaddedWords(text: string, tok: string)
    ensures tok in Words(" " + Norm(text) + " ") <==> tok in Words(Lower(text))
    ensures Blanked(" " + Norm(text) + " ")
  {
    NormKeepsWords(text);
    var n := Norm(text);
    ScanSplit("", ' ', n + " ", "");
    ScanSplit(n, ' ', "", "");
    assert "" + [' '] + (n + " ") == " " + n + " " && n + [' '] + "" == n + " ";
    assert Scan("", "") == [];
  }

  lemma PaddedRun(hay: string, tok: string, i: int)
    requires tok != "" && Alnum(tok) && OccursAt(" " + tok + " ", hay, i)
    ensures MaximalRun(hay, i + 1, i + 1 + |tok|) && hay[i + 1..i + 1 + |tok|] == tok
  {
    var needle, n := " " + tok + " ", |tok|;
    assert |needle| == n + 2 && needle[0] == ' ' && needle[n + 1] == ' ';
    var part := hay[i..i + (n + 2)];
    assert hay[i] == part[0] && hay[i + 1 + n] == part[1 + n];
    forall k | 0 <= k < n
      ensures hay[i + 1..i + 1 + n][k] == tok[k]
    {
      assert part[k + 1] == needle[k + 1] == tok[k];
    }
    assert hay[i + 1..i + 1 + n] == tok;
  }

  lemma RunIsPadded(hay: string, tok: string, i: int, j: int)
    requires Blanked(hay) && |hay| >= 2 && hay[0] == ' ' && hay[|hay| - 1] == ' '
    requires MaximalRun(hay, i, j) && hay[i..j] == tok
    ensures Occurs(" " + tok + " ", hay)
  {
    assert tok[0] == hay[i] && tok[|tok| - 1] == hay[j - 1];
    assert i > 0 && j < |hay| && hay[i - 1] == ' ' && hay[j] == ' ';
    var needle := " " + tok + " ";
    assert |needle| == j - i + 2;
    assert hay[i - 1..j + 1] == [hay[i - 1]] + hay[i..j] + [hay[j]];
    assert OccursAt(needle, hay, i - 1);
  }

  /** The second loop of the check: every long enough code of the answer is searched for. */
  method CodesNamed(answer: string, retrieved: seq<RetrievedItem>) returns (named: bool)
    ensures named <==> forall w :: w in Codes(answer) && |w| >= 3 ==> NamedByTitle(retrieved, w)
  {
    hide Words, Lower, Norm, FindCodes, Codes, NamedByTitle, Occurs;
    var haystack := " " + Norm(Join(Titles(retrieved), " ")) + " ";
    var codes := FindCodes(Norm(answer));
    for i := 0 to |codes|
      invariant forall j :: 0 <= j < i && |codes[j]| >= 3 ==> NamedByTitle(retrieved, codes[j])
    {
      CodeIsNamed(answer, retrieved, codes[i]);
      var found := Contains(" " + codes[i] + " ", haystack);
      if |codes[i]| >= 3 && !found {
        return false;
      }
    }
    forall w | w in Codes(answer) && |w| >= 3
      ensures NamedByTitle(retrieved, w)
    {
      CodesAreFound(answer, w);
    }
    return true;
  }

  method IsGrounded(f: Format, answer: string, retrieved: seq<RetrievedItem>) returns (grounded: bool)
    ensures grounded <==> Grounded(f, answer, retrieved)
  {
    if retrieved == [] {
      return false;
    }
    hide Amounts, Codes, NamedByTitle, Lines;
    var context := BuildContext(f, retrieved);
    var allowed := PricesIn(f, context);
    var named := PricesIn(f, answer);
    if !(named <= allowed) {
      return false;
    }
    grounded := CodesNamed(answer, retrieved);
  }

  /** The tokens the pattern finds in the normalised answer are the answer's model codes. */
  lemma CodesAreFound(answer: string, w: string)
    ensures w in FindCodes(Norm(answer)) <==> w in Codes(answer)
  {
    NormKeepsWords(answer);
    FindCodesExact(Norm(answer), w);
  }

  lemma CodeIsNamed(answer: string, items: seq<RetrievedItem>, w: string)
    requires w in FindCodes(Norm(answer))
    ensures w in Codes(answer)
    ensures Occurs(" " + w + " ", " " + Norm(Join(Titles(items), " ")) + " ") <==> NamedByTitle(items, w)
  {
    CodesAreFound(answer, w);
    assert w != "" && Alnum(w) by { ScanAlnum(Lower(answer), ""); }
    hide Words, Lower, Norm, FindCodes, Codes;
    PaddedSearchIsWord(Join(Titles(items), " "), w);
    WordsOfJoined(Titles(items), w);
  }

  /** More evidence never ungrounds a text, wherever the new items are put. */
  lemma MoreEvidenceKeepsGrounded(f: Format, text: string, items: seq<RetrievedItem>, more: seq<RetrievedItem>)
    requires Grounded(f, text, items) && forall it :: it in items ==> it in more
    ensures Grounded(f, text, more)
  {
    hide Amounts, Words, Lower, Lines, Codes, ItemAmounts;
    assert items[0] in more;
    forall p | p in Prices(f, text)
      ensures p in Prices(f, Lines(f, 1, more))
    {
      var g :| g in Amounts(Lines(f, 1, items)) && f.canon(g) == p;
      ContextAmounts(f, 1, items, g);
      var k :| 0 <= k < |items| && g in ItemAmounts(f, items[k]);
      assert items[k] in more;
      var k' :| 0 <= k' < |more| && more[k'] == items[k];
      ContextAmounts(f, 1, more, g);
    }
    forall w | w in Codes(text) && |w| >= 3
      ensures NamedByTitle(more, w)
    {
      var k :| 0 <= k < |items| && w in Words(Lower(items[k].title));
      assert items[k] in more;
      var k' :| 0 <= k' < |more| && more[k'] == items[k];
    }
  }

  // ---------------------------------------------------------------- the deterministic answer

  datatype RagAnswer = RagAnswer(answer: string, sources: seq<string>, grounded: bool)

  const LISTING_MISSING := "No matching listings were retrieved, so there's nothing to recommend."

  /** One cited item: a lead, its title and price, and what follows. */
  function Cite(f: Format, lead: string, it: RetrievedItem, tail: string): string {
    lead + (it.title + (" at " + (Money(f, it) + tail)))
  }

  // The fixed text around the percentages, in pieces short enough for the verifier to read character by
  // character.
  const BEST_CLOSE := "% under the same-" + "query median)."
  const AVOID_OPEN := " \U{2014} flagged SUSPICIOUS" + ": it reads "
  const AVOID_CLOSE := "% under median but " + ("sits far below its " + ("modeled fair price, " + ("the signature of a "
                       + ("refurb/mislisting " + ("rather than a real " + "bargain.")))))

  function BestTail(f: Format, it: RetrievedItem): string { " (" + (f.percent(it.medianSignal) + BEST_CLOSE) }

  function AvoidTail(f: Format, it: RetrievedItem): string { AVOID_OPEN + (f.percent(it.medianSignal) + AVOID_CLOSE) }

  function Best(f: Format, it: RetrievedItem): string { Cite(f, "Best value: ", it, BestTail(f, it)) }

  function Also(f: Format, it: RetrievedItem): string { Cite(f, "Also consider: ", it, ".") }

  function Avoid(f: Format, it: RetrievedItem): string { Cite(f, "Avoid: ", it, AvoidTail(f, it)) }

  /** The text names no amount and no code but those of the cited item. */
  ghost predicate CitesOnly(f: Format, text: string, it: RetrievedItem) {
    Amounts(text) == Amounts(it.title) + Amounts(Money(f, it)) && Codes(text) == Codes(it.title)
  }

  lemma CiteNamesItsItem(f: Format, lead: string, it: RetrievedItem, tail: string)
    requires WellShaped(f)
    requires lead != "" && IsSeparator(lead[|lead| - 1]) && '$' !in lead && NoDigits(lead)
    requires Stops(tail) && tail != "" && IsSeparator(tail[0]) && '$' !in tail && Codes(tail) == {}
    ensures CitesOnly(f, Cite(f, lead, it, tail), it)
  {
    var money, at := Money(f, it), " at ";
    var rest := at + (money + tail);
    assert rest[0] == ' ' && rest[1] == 'a';
    assert Stops(rest) && IsSeparator(rest[0]) && IsSeparator(at[3]);
    assert NoDigits(at);
    assert IsSeparator(money[0]);
    MoneyHasNoCodes(f, it);
    hide Amounts, Codes, Words, Lower, Money, Stops, IsSeparator;
    AmountsSkip(lead, it.title + rest);
    AmountsSplit(it.title, rest);
    AmountsSkip(at, money + tail);
    AmountsSplit(money, tail);
    NoDollarNoAmounts(tail);
    NoDigitsNoCodes(lead);
    NoDigitsNoCodes(at);
    CodesJoin(lead, it.title + rest);
    CodesJoin(it.title, rest);
    CodesJoin(at, money + tail);
    CodesJoin(money, tail);
  }

  lemma MoneyHasNoCodes(f: Format, it: RetrievedItem)
    requires WellShaped(f)
    ensures Codes(Money(f, it)) == {}
  {
    assert NumberText(f.money(it.price));
    CodesJoin("$", f.money(it.price));
    NoDigitsNoCodes("$");
    NumberTextNoCodes(f.money(it.price));
  }

  /** No digit and no dollar sign. */
  ghost predicate Quiet(s: string) { forall i :: 0 <= i < |s| ==> !IsDigit(s[i]) && s[i] != '$' }

  lemma QuietJoin(x: string, y: string)
    ensures Quiet(x) && Quiet(y) ==> Quiet(x + y)
  {
  }

  lemma BestCloseIsQuiet()
    ensures Quiet(BEST_CLOSE) && BEST_CLOSE[0] == '%'
  {
    assert Quiet("% under the same-");
    assert Quiet("query median).");
    QuietJoin("% under the same-", "query median).");
  }

  lemma AvoidOpenIsQuiet()
    ensures Quiet(AVOID_OPEN) && AVOID_OPEN[0] == ' ' && AVOID_OPEN[1] == '\U{2014}'
    ensures AVOID_OPEN[|AVOID_OPEN| - 1] == ' '
  {
    assert Quiet(" \U{2014} flagged SUSPICIOUS");
    assert Quiet(": it reads ");
    QuietJoin(" \U{2014} flagged SUSPICIOUS", ": it reads ");
  }

  lemma AvoidCloseIsQuiet()
    ensures Quiet(AVOID_CLOSE) && AVOID_CLOSE[0] == '%'
  {
    var a, b, c := "% under median but ", "sits far below its ", "modeled fair price, ";
    var d, e, g, h := "the signature of a ", "refurb/mislisting ", "rather than a real ", "bargain.";
    assert Quiet(a);
    assert Quiet(b);
    assert Quiet(c);
    assert Quiet(d);
    assert Quiet(e);
    assert Quiet(g);
    assert Quiet(h);
    assert AVOID_CLOSE == a + (b + (c + (d + (e + (g + h))))) && a[0] == '%';
    hide Quiet, AVOID_CLOSE;
    QuietJoin(g, h);
    QuietJoin(e, g + h);
    QuietJoin(d, e + (g + h));
    QuietJoin(c, d + (e + (g + h)));
    QuietJoin(b, c + (d + (e + (g + h))));
    QuietJoin(a, b + (c + (d + (e + (g + h)))));
  }

  /** A quiet opening, a number, a quiet close. */
  lemma NumberTailIsQuiet(open: string, number: string, close: string)
    requires Quiet(open) && Quiet(close) && NumberText(number)
    requires |open| >= 2 && IsSeparator(open[0]) && IsSeparator(open[|open| - 1]) && !IsDigit(open[0])
             && open[0] != ',' && !IsDigit(open[1])
    requires close != "" && IsSeparator(close[0])
    ensures var tail := open + (number + close);
            Stops(tail) && tail != "" && IsSeparator(tail[0]) && '$' !in tail && Codes(tail) == {}
  {
    assert '$' !in number;
    hide Codes;
    CodesJoin(open, number + close);
    CodesJoin(number, close);
    NoDigitsNoCodes(open);
    NoDigitsNoCodes(close);
    NumberTextNoCodes(number);
  }

  lemma BestTailIsQuiet(f: Format, it: RetrievedItem)
    requires WellShaped(f)
    ensures var tail := BestTail(f, it);
            Stops(tail) && tail != "" && IsSeparator(tail[0]) && '$' !in tail && Codes(tail) == {}
  {
    BestCloseIsQuiet();
    assert Quiet(" (");
    assert NumberText(f.percent(it.medianSignal));
    hide BEST_CLOSE, Codes, Quiet, NumberText;
    NumberTailIsQuiet(" (", f.percent(it.medianSignal), BEST_CLOSE);
  }

  lemma AvoidTailIsQuiet(f: Format, it: RetrievedItem)
    requires WellShaped(f)
    ensures var tail := AvoidTail(f, it);
            Stops(tail) && tail != "" && IsSeparator(tail[0]) && '$' !in tail && Codes(tail) == {}
  {
    AvoidOpenIsQuiet();
    AvoidCloseIsQuiet();
    assert NumberText(f.percent(it.medianSignal));
    hide AVOID_OPEN, AVOID_CLOSE, Codes, Quiet, NumberText;
    NumberTailIsQuiet(AVOID_OPEN, f.percent(it.medianSignal), AVOID_CLOSE);
  }

  lemma BestIsExact(f: Format, it: RetrievedItem)
    requires WellShaped(f)
    ensures CitesOnly(f, Best(f, it), it)
  {
    BestTailIsQuiet(f, it);
    hide Stops, BestTail, Codes;
    CiteNamesItsItem(f, "Best value: ", it, BestTail(f, it));
  }

  lemma AlsoIsExact(f: Format, it: RetrievedItem)
    requires WellShaped(f)
    ensures CitesOnly(f, Also(f, it), it)
  {
    assert NoDigits(".") && Stops(".");
    NoDigitsNoCodes(".");
    hide Stops, Codes;
    CiteNamesItsItem(f, "Also consider: ", it, ".");
  }

  lemma AvoidIsExact(f: Format, it: RetrievedItem)
    requires WellShaped(f)
    ensures CitesOnly(f, Avoid(f, it), it)
  {
    AvoidTailIsQuiet(f, it);
    hide Stops, AvoidTail, Codes;
    CiteNamesItsItem(f, "Avoid: ", it, AvoidTail(f, it));
  }

  /** A text that cites items of the evidence and nothing else. */
  ghost predicate CitesWithin(f: Format, text: string, items: seq<RetrievedItem>) {
    && (forall g :: g in Amounts(text) ==> exists k :: 0 <= k < |items| && g in ItemAmounts(f, items[k]))
    && (forall w :: w in Codes(text) ==> NamedByTitle(items, w))
  }

  lemma CitedItemIsWithin(f: Format, text: string, it: RetrievedItem, items: seq<RetrievedItem>)
    requires CitesOnly(f, text, it) && it in items
    ensures CitesWithin(f, text, items)
  {
    var k :| 0 <= k < |items| && items[k] == it;
    forall g | g in Amounts(text)
      ensures exists k :: 0 <= k < |items| && g in ItemAmounts(f, items[k])
    {
      assert g in ItemAmounts(f, items[k]);
    }
    forall w | w in Codes(text)
      ensures NamedByTitle(items, w)
    {
      assert w in Words(Lower(items[k].title));
    }
  }

  lemma WithinJoin(f: Format, x: string, y: string, items: seq<RetrievedItem>)
    requires CitesWithin(f, x, items) && CitesWithin(f, y, items) && y != "" && !IsDigit(y[0])
    ensures CitesWithin(f, x + (" " + y), items)
  {
    assert (" " + y)[1] == y[0];
    assert Stops(" " + y) && IsSeparator((" " + y)[0]);
    JoinedNames(x, y);
    hide Amounts, Codes, Stops, ItemAmounts, NamedByTitle;
  }

  lemma JoinedNames(x: string, y: string)
    requires Stops(" " + y)
    ensures Amounts(x + (" " + y)) == Amounts(x) + Amounts(y) && Codes(x + (" " + y)) == Codes(x) + Codes(y)
  {
    hide Amounts, Codes, Stops;
    AmountsSplit(x, " " + y);
    AmountsSkip(" ", y);
    CodesJoin(x, " " + y);
    CodesJoin(" ", y);
    NoDigitsNoCodes(" ");
  }

  lemma WithinIsGrounded(f: Format, text: string, items: seq<RetrievedItem>)
    requires CitesWithin(f, text, items) && items != []
    ensures Grounded(f, text, items)
  {
    hide Amounts, Codes, ItemAmounts, Lines, NamedByTitle;
    forall p | p in Prices(f, text)
      ensures p in Prices(f, Lines(f, 1, items))
    {
      var g :| g in Amounts(text) && f.canon(g) == p;
      ContextAmounts(f, 1, items, g);
    }
  }

  /** One more cited item after the text so far. */
  lemma CiteAnother(f: Format, text: string, part: string, it: RetrievedItem, items: seq<RetrievedItem>)
    requires CitesWithin(f, text, items) && CitesOnly(f, part, it) && it in items
    requires part != "" && !IsDigit(part[0])
    ensures CitesWithin(f, text + (" " + part), items)
  {
    hide CitesWithin, CitesOnly;
    CitedItemIsWithin(f, part, it, items);
    WithinJoin(f, text, part, items);
  }

  /** The items an answer cites. */
  datatype Cited = Cited(hero: RetrievedItem, runner: Option<RetrievedItem>, trap: Option<RetrievedItem>)

  /** The three ways an item is picked. */
  datatype Test = Deal | Runner(heroId: string) | Trap

  predicate Meets(it: RetrievedItem, test: Test) {
    match test
    case Deal => it.verdict == "deal"
    case Runner(heroId) => it.id != heroId && it.verdict != "suspicious"
    case Trap => it.verdict == "suspicious"
  }

  /** The item is the first of `items` to meet the test. */
  ghost predicate IsFirst(items: seq<RetrievedItem>, it: Option<RetrievedItem>, test: Test) {
    match it
    case None => forall k :: 0 <= k < |items| ==> !Meets(items[k], test)
    case Some(x) =>
      && Meets(x, test)
      && exists k :: 0 <= k < |items| && items[k] == x && forall j :: 0 <= j < k ==> !Meets(items[j], test)
  }

  /** The first deal (or the first item) leads; the first other item that is not suspicious follows;
      the first suspicious one is the trap. */
  ghost predicate RightlyChosen(items: seq<RetrievedItem>, c: Cited)
    requires items != []
  {
    && (IsFirst(items, Some(c.hero), Deal)
        || (IsFirst(items, None, Deal) && c.hero == items[0]))
    && IsFirst(items, c.runner, Runner(c.hero.id))
    && IsFirst(items, c.trap, Trap)
  }

  function Wording(f: Format, c: Cited): string {
    var text := Best(f, c.hero);
    var text := if c.runner.Some? then text + (" " + Also(f, c.runner.value)) else text;
    if c.trap.Some? then text + (" " + Avoid(f, c.trap.value)) else text
  }

  /** The answer, as it reads. */
  lemma AnswerReads(f: Format, c: Cited)
    ensures var best := "Best value: " + c.hero.title + " at $" + f.money(c.hero.price)
                        + " (" + f.percent(c.hero.medianSignal) + "% under the same-query median).";
            var also := if c.runner.None? then ""
                        else " Also consider: " + c.runner.value.title + " at $" + f.money(c.runner.value.price) + ".";
            var avoid := if c.trap.None? then "" else AvoidText(f, c.trap.value);
            Wording(f, c) == best + also + avoid
  {
    BestReads(f, c.hero);
    if c.runner.Some? { AlsoReads(f, c.runner.value); }
    if c.trap.Some? { AvoidReads(f, c.trap.value); }
    hide Best, Also, Avoid, AvoidText;
  }

  /** The last part of the answer, as it reads. */
  function AvoidText(f: Format, it: RetrievedItem): string {
    " Avoid: " + it.title + " at $" + f.money(it.price)
    + (" \U{2014} flagged SUSPICIOUS: it reads "
       + (f.percent(it.medianSignal)
          + ("% under median but " + ("sits far below its " + ("modeled fair price, " + ("the signature of a "
             + ("refurb/mislisting " + ("rather than a real " + "bargain."))))))))
  }

  lemma BestReads(f: Format, it: RetrievedItem)
    ensures Best(f, it) == "Best value: " + it.title + " at $" + f.money(it.price)
                           + " (" + f.percent(it.medianSignal) + "% under the same-query median)."
  {
    assert BEST_CLOSE == "% under the same-query median).";
    assert " at $" == " at " + "$";
    hide BEST_CLOSE;
  }

  lemma AlsoReads(f: Format, it: RetrievedItem)
    ensures " " + Also(f, it) == " Also consider: " + it.title + " at $" + f.money(it.price) + "."
  {
    assert " Also consider: " == " " + "Also consider: " && " at $" == " at " + "$";
  }

  lemma AvoidReads(f: Format, it: RetrievedItem)
    ensures " " + Avoid(f, it) == AvoidText(f, it)
  {
    assert " Avoid: " == " " + "Avoid: " && " at $" == " at " + "$";
    assert AVOID_OPEN == " \U{2014} flagged SUSPICIOUS: it reads ";
    hide AVOID_OPEN;
  }

  function Sources(c: Cited): seq<string> {
    [c.hero.id] + (if c.runner.Some? then [c.runner.value.id] else [])
      + (if c.trap.Some? then [c.trap.value.id] else [])
  }

  /** Which items are cited, on the list: the first with verdict "deal", or the first of all if there is
      none; then the first other id whose verdict is not "suspicious"; then the first "suspicious" one. The
      sources are their ids in that order. */
  lemma ChoiceReads(items: seq<RetrievedItem>, c: Cited)
    requires items != [] && RightlyChosen(items, c)
    ensures exists h :: 0 <= h < |items| && items[h] == c.hero
                        && (if items[h].verdict == "deal" then forall j :: 0 <= j < h ==> items[j].verdict != "deal"
                            else h == 0 && forall j :: 0 <= j < |items| ==> items[j].verdict != "deal")
    ensures match c.runner
            case None => forall j :: 0 <= j < |items| ==> items[j].id == c.hero.id || items[j].verdict == "suspicious"
            case Some(x) =>
              exists h :: 0 <= h < |items| && items[h] == x && x.id != c.hero.id && x.verdict != "suspicious"
                          && forall j :: 0 <= j < h ==> items[j].id == c.hero.id || items[j].verdict == "suspicious"
    ensures match c.trap
            case None => forall j :: 0 <= j < |items| ==> items[j].verdict != "suspicious"
            case Some(x) => exists h :: 0 <= h < |items| && items[h] == x && x.verdict == "suspicious"
                                        && forall j :: 0 <= j < h ==> items[j].verdict != "suspicious"
    ensures Sources(c)[0] == c.hero.id && (c.runner.Some? ==> |Sources(c)| > 1 && Sources(c)[1] == c.runner.value.id)
    ensures c.trap.Some? ==> |Sources(c)| > 1 && Sources(c)[|Sources(c)| - 1] == c.trap.value.id
    ensures |Sources(c)| == 1 + (if c.runner.Some? then 1 else 0) + (if c.trap.Some? then 1 else 0)
  {
    HeroReads(items, c);
    RunnerReads(items, c);
  }

  lemma HeroReads(items: seq<RetrievedItem>, c: Cited)
    requires items != [] && RightlyChosen(items, c)
    ensures exists h :: 0 <= h < |items| && items[h] == c.hero
                        && (if items[h].verdict == "deal" then forall j :: 0 <= j < h ==> items[j].verdict != "deal"
                            else h == 0 && forall j :: 0 <= j < |items| ==> items[j].verdict != "deal")
  {
    assert forall j :: 0 <= j < |items| ==> (Meets(items[j], Deal) <==> items[j].verdict == "deal");
    if IsFirst(items, Some(c.hero), Deal) {
      var k :| 0 <= k < |items| && items[k] == c.hero && forall j :: 0 <= j < k ==> !Meets(items[j], Deal);
      assert items[k].verdict == "deal";
    } else {
      assert items[0] == c.hero;
    }
  }

  lemma RunnerReads(items: seq<RetrievedItem>, c: Cited)
    requires items != [] && RightlyChosen(items, c)
    ensures match c.runner
            case None => forall j :: 0 <= j < |items| ==> items[j].id == c.hero.id || items[j].verdict == "suspicious"
            case Some(x) =>
              exists h :: 0 <= h < |items| && items[h] == x && x.id != c.hero.id && x.verdict != "suspicious"
                          && forall j :: 0 <= j < h ==> items[j].id == c.hero.id || items[j].verdict == "suspicious"
  {
    assert forall j :: 0 <= j < |items| ==>
             (Meets(items[j], Runner(c.hero.id)) <==> items[j].id != c.hero.id && items[j].verdict != "suspicious");
  }

  method FindFirst(items: seq<RetrievedItem>, test: Test) returns (r: Option<RetrievedItem>)
    ensures IsFirst(items, r, test)
    ensures r.Some? ==> r.value in items
  {
    for i := 0 to |items|
      invariant forall j :: 0 <= j < i ==> !Meets(items[j], test)
    {
      if Meets(items[i], test) { return Some(items[i]); }
    }
    return None;
  }

  lemma LeadLetters(f: Format, it: RetrievedItem)
    ensures Also(f, it) != "" && !IsDigit(Also(f, it)[0]) && Avoid(f, it) != "" && !IsDigit(Avoid(f, it)[0])
  {
  }

  /** The wording names no amount and no code from outside the retrieved items. */
  lemma WordingIsWithin(f: Format, items: seq<RetrievedItem>, c: Cited)
    requires WellShaped(f) && c.hero in items
    requires (c.runner.Some? ==> c.runner.value in items) && (c.trap.Some? ==> c.trap.value in items)
    ensures CitesWithin(f, Wording(f, c), items)
  {
    hide WellShaped, CitesWithin, CitesOnly, Best, Also, Avoid;
    var text := Best(f, c.hero);
    BestIsExact(f, c.hero);
    CitedItemIsWithin(f, text, c.hero, items);
    if c.runner.Some? {
      AlsoIsExact(f, c.runner.value);
      LeadLetters(f, c.runner.value);
      CiteAnother(f, text, Also(f, c.runner.value), c.runner.value, items);
      text := text + (" " + Also(f, c.runner.value));
    }
    if c.trap.Some? {
      AvoidIsExact(f, c.trap.value);
      LeadLetters(f, c.trap.value);
      CiteAnother(f, text, Avoid(f, c.trap.value), c.trap.value, items);
    }
  }

  method Choose(items: seq<RetrievedItem>) returns (c: Cited)
    requires items != []
    ensures RightlyChosen(items, c) && c.hero in items
    ensures (c.runner.Some? ==> c.runner.value in items) && (c.trap.Some? ==> c.trap.value in items)
  {
    var deal := FindFirst(items, Deal);
    var trap := FindFirst(items, Trap);
    var hero := if deal.Some? then deal.value else items[0];
    var runner := FindFirst(items, Runner(hero.id));
    c := Cited(hero, runner, trap);
  }

  method AnswerFrom(f: Format, items: seq<RetrievedItem>) returns (r: RagAnswer, ghost c: Cited)
    requires WellShaped(f) && items != []
    ensures r == RagAnswer(Wording(f, c), Sources(c), true) && RightlyChosen(items, c)
    ensures Grounded(f, r.answer, items)
  {
    hide Grounded, WellShaped, CitesWithin, RightlyChosen, Wording, Sources;
    var cited := Choose(items);
    c := cited;
    WordingIsWithin(f, items, c);
    WithinIsGrounded(f, Wording(f, c), items);
    var grounded := IsGrounded(f, Wording(f, cited), items);
    r := RagAnswer(Wording(f, cited), Sources(cited), grounded);
  }

  /** `_deterministic_answer`: always grounded. With nothing retrieved the flag is set without the
      check, which would say no. */
  method DeterministicAnswer(f: Format, items: seq<RetrievedItem>) returns (r: RagAnswer, ghost c: Option<Cited>)
    requires WellShaped(f)
    ensures r.grounded && (items != [] <==> Grounded(f, r.answer, items))
    ensures items == [] ==> r == RagAnswer(LISTING_MISSING, [], true)
    ensures items != [] ==> c.Some? && RightlyChosen(items, c.value)
                            && r.answer == Wording(f, c.value) && r.sources == Sources(c.value)
  {
    hide LISTING_MISSING, WellShaped, RightlyChosen, Wording, Sources, Lines, Codes, Prices, NamedByTitle;
    if items == [] {
      return RagAnswer(LISTING_MISSING, [], true), None;
    }
    ghost var cited;
    r, cited := AnswerFrom(f, items);
    c := Some(cited);
  }
}
