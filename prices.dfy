/** Price extraction of the scraper (`extract_prices`): the `$`-token scan, the token
  * filter, the parse, and the min/max rule with its truncated discount. */
module Prices {
  import opened Common
  import opened Text

  // ---------------------------------------------------------------------------
  // The scan: every match of `\$([\d,]+\.?\d*)` in the text, left to right
  // ---------------------------------------------------------------------------

  predicate IsDigitOrComma(c: char) { IsDigit(c) || c == ',' }

  /** Length of the longest prefix of `s` in `[\d,]*`. */
  function DigitCommaRun(s: string): (n: nat)
    ensures n <= |s|
    ensures forall i :: 0 <= i < n ==> IsDigitOrComma(s[i])
    ensures n < |s| ==> !IsDigitOrComma(s[n])
  {
    if |s| > 0 && IsDigitOrComma(s[0]) then 1 + DigitCommaRun(s[1..]) else 0
  }

  /** Length of the longest prefix of `s` in `\d*`. */
  function DigitRun(s: string): (n: nat)
    ensures n <= |s|
    ensures AllDigits(s[..n])
    ensures n < |s| ==> !IsDigit(s[n])
  {
    if |s| > 0 && IsDigit(s[0]) then 1 + DigitRun(s[1..]) else 0
  }

  /** Length of the greedy match of `[\d,]+\.?\d*` at the start of `t`. Every part
    * after `[\d,]+` may match the empty string, so the greedy match is never undone. */
  function CaptureLen(t: string): (n: nat)
    requires |t| > 0 && IsDigitOrComma(t[0])
    ensures 0 < n <= |t|
  {
    var k := DigitCommaRun(t);
    if k < |t| && t[k] == '.' then k + 1 + DigitRun(t[k + 1..]) else k
  }

  /** The captured groups, left to right; a match resumes the scan right after it. */
  function Tokens(s: string): seq<string>
    decreases |s|
  {
    if |s| == 0 then []
    else if s[0] == '$' && |s| > 1 && IsDigitOrComma(s[1]) then
      var n := CaptureLen(s[1..]);
      [s[1..1 + n]] + Tokens(s[1 + n..])
    else Tokens(s[1..])
  }

  /** `t` is in the language of the group `[\d,]+\.?\d*`. */
  ghost predicate IsCapture(t: string)
  {
    exists k :: SplitsCapture(t, k)
  }

  /** `t[..k]` matches `[\d,]+` and `t[k..]` matches `\.?\d*`. */
  predicate SplitsCapture(t: string, k: int)
  {
    && 1 <= k <= |t|
    && (forall i :: 0 <= i < k ==> IsDigitOrComma(t[i]))
    && (AllDigits(t[k..]) || (t[k] == '.' && AllDigits(t[k + 1..])))
  }

  lemma CaptureLenIsCapture(t: string)
    requires |t| > 0 && IsDigitOrComma(t[0])
    ensures IsCapture(t[..CaptureLen(t)])
  {
    var k := DigitCommaRun(t);
    var n := CaptureLen(t);
    var c := t[..n];
    if k < |t| && t[k] == '.' {
      var d := DigitRun(t[k + 1..]);
      assert c[k + 1..] == t[k + 1..][..d];
      assert SplitsCapture(c, k);
    } else {
      assert c[k..] == [];
      assert SplitsCapture(c, k);
    }
  }

  /** Every scanned token is a well-formed capture of the group. */
  lemma {:induction false} TokensAreCaptures(s: string)
    ensures forall t :: t in Tokens(s) ==> IsCapture(t)
    decreases |s|
  {
    if |s| > 0 {
      if s[0] == '$' && |s| > 1 && IsDigitOrComma(s[1]) {
        var n := CaptureLen(s[1..]);
        CaptureLenIsCapture(s[1..]);
        assert s[1..][..n] == s[1..1 + n];
        TokensAreCaptures(s[1 + n..]);
      } else {
        TokensAreCaptures(s[1..]);
      }
    }
  }

  /** A character that cannot continue a capture. */
  predicate EndsCapture(s: string)
  {
    |s| == 0 || (!IsDigitOrComma(s[0]) && s[0] != '.')
  }

  lemma {:induction false} DigitCommaRunOfConcat(x: string, y: string)
    requires forall i :: 0 <= i < |x| ==> IsDigitOrComma(x[i])
    ensures DigitCommaRun(x + y) == |x| + DigitCommaRun(y)
    decreases |x|
  {
    if |x| > 0 {
      assert (x + y)[1..] == x[1..] + y;
      DigitCommaRunOfConcat(x[1..], y);
    } else {
      assert x + y == y;
    }
  }

  lemma {:induction false} DigitRunOfConcat(x: string, y: string)
    requires AllDigits(x)
    ensures DigitRun(x + y) == |x| + DigitRun(y)
    decreases |x|
  {
    if |x| > 0 {
      assert (x + y)[1..] == x[1..] + y;
      DigitRunOfConcat(x[1..], y);
    } else {
      assert x + y == y;
    }
  }

  /** A capture followed by a character that cannot extend it is matched exactly. */
  lemma CaptureLenOfCapture(c: string, rest: string)
    requires IsCapture(c) && EndsCapture(rest)
    ensures |c + rest| > 0 && IsDigitOrComma((c + rest)[0])
    ensures CaptureLen(c + rest) == |c|
  {
    var k :| SplitsCapture(c, k);
    assert (c + rest)[0] == c[0];
    if AllDigits(c[k..]) {
      CaptureOfDigits(c, k, rest);
    } else {
      CaptureWithFraction(c, k, rest);
    }
  }

  lemma CaptureOfDigits(c: string, k: int, rest: string)
    requires SplitsCapture(c, k) && AllDigits(c[k..]) && EndsCapture(rest)
    ensures |c + rest| > 0 && IsDigitOrComma((c + rest)[0])
    ensures CaptureLen(c + rest) == |c|
  {
    assert (c + rest)[0] == c[0];
    assert forall i :: 0 <= i < |c| ==> IsDigitOrComma(c[i]) by {
      forall i | 0 <= i < |c| ensures IsDigitOrComma(c[i]) {
        if i < k { assert c[..k][i] == c[i]; } else { assert c[k..][i - k] == c[i]; }
      }
    }
    DigitCommaRunOfConcat(c, rest);
    assert DigitCommaRun(rest) == 0;
  }

  lemma CaptureWithFraction(c: string, k: int, rest: string)
    requires SplitsCapture(c, k) && !AllDigits(c[k..]) && EndsCapture(rest)
    ensures |c + rest| > 0 && IsDigitOrComma((c + rest)[0])
    ensures CaptureLen(c + rest) == |c|
  {
    var t := c + rest;
    assert t[0] == c[0];
    assert t == c[..k] + (c[k..] + rest);
    DigitCommaRunOfConcat(c[..k], c[k..] + rest);
    assert c[k] == '.';
    assert DigitCommaRun(c[k..] + rest) == 0;
    assert t[k + 1..] == c[k + 1..] + rest;
    DigitRunOfConcat(c[k + 1..], rest);
    assert DigitRun(rest) == 0;
  }

  /** Text with no `$` yields no token and does not disturb the scan after it. */
  lemma {:induction false} TokensSkipPlainText(plain: string, s: string)
    requires '$' !in plain
    ensures Tokens(plain + s) == Tokens(s)
    decreases |plain|
  {
    if |plain| > 0 {
      assert (plain + s)[0] == plain[0];
      assert (plain + s)[1..] == plain[1..] + s;
      TokensSkipPlainText(plain[1..], s);
    } else {
      assert plain + s == s;
    }
  }

  /** A listing text: each capture written after a `$` and followed by plain text. */
  function Listing(captures: seq<string>, gaps: seq<string>): string
    requires |captures| == |gaps|
  {
    if captures == [] then "" else "$" + captures[0] + gaps[0] + Listing(captures[1..], gaps[1..])
  }

  /** A gap, together with the listing after it, cannot extend the capture before it. */
  lemma GapEndsCapture(g: string, captures: seq<string>, gaps: seq<string>)
    requires |captures| == |gaps|
    requires EndsCapture(g)
    ensures EndsCapture(g + Listing(captures, gaps))
  {
    var tail := Listing(captures, gaps);
    if |g| == 0 {
      assert g + tail == tail;
      if |tail| > 0 { assert tail[0] == '$'; }
    } else {
      assert (g + tail)[0] == g[0];
    }
  }

  /** Scanning a listing gives back exactly the captures written into it, in order. */
  lemma {:induction false} TokensOfListing(lead: string, captures: seq<string>, gaps: seq<string>)
    requires |captures| == |gaps|
    requires '$' !in lead
    requires forall i :: 0 <= i < |captures| ==> IsCapture(captures[i])
    requires forall i :: 0 <= i < |gaps| ==> '$' !in gaps[i] && EndsCapture(gaps[i])
    ensures Tokens(lead + Listing(captures, gaps)) == captures
    decreases |captures|
  {
    var rest := Listing(captures, gaps);
    TokensSkipPlainText(lead, rest);
    if captures != [] {
      var c, g := captures[0], gaps[0];
      var tail := Listing(captures[1..], gaps[1..]);
      assert rest == "$" + c + (g + tail);
      GapEndsCapture(g, captures[1..], gaps[1..]);
      TokensOfDollarCapture(c, g + tail);
      TokensOfListing(g, captures[1..], gaps[1..]);
    } else {
      assert Tokens("") == [];
    }
  }

  /** A `$` and a capture that the text after it cannot extend scan to that capture first. */
  lemma TokensOfDollarCapture(c: string, rest: string)
    requires IsCapture(c) && EndsCapture(rest)
    ensures Tokens("$" + c + rest) == [c] + Tokens(rest)
  {
    var t := "$" + c + rest;
    CaptureLenOfCapture(c, rest);
    assert t[1..] == c + rest;
    assert t[1..1 + |c|] == c;
    assert t[1 + |c|..] == rest;
  }

  // ---------------------------------------------------------------------------
  // The filter and the parse: a token is kept when it still holds a digit string once its
  // commas and dots are gone; a kept token loses its commas and is read as a decimal number
  // ---------------------------------------------------------------------------

  /** `s` with every occurrence of `c` removed. */
  function Remove(s: string, c: char): (r: string)
    ensures c !in r
  {
    if s == [] then [] else (if s[0] == c then [] else [s[0]]) + Remove(s[1..], c)
  }

  lemma {:induction false} RemoveOfConcat(a: string, b: string, c: char)
    ensures Remove(a + b, c) == Remove(a, c) + Remove(b, c)
  {
    if a == [] {
      assert a + b == b;
    } else {
      assert (a + b)[1..] == a[1..] + b;
      RemoveOfConcat(a[1..], b, c);
    }
  }

  /** A token is kept when removing commas and dots leaves a non-empty digit string
    * (`str.isdigit()` is false on the empty string). */
  predicate Kept(token: string)
  {
    |Stripped(token)| > 0 && AllDigits(Stripped(token))
  }

  /** The token with its commas and dots removed. */
  function Stripped(token: string): string
  {
    Remove(Remove(token, ','), '.')
  }

  /** The exact value of a decimal numeral `digits[.digits]`. */
  function DecimalValue(s: string): real
  {
    var i := DotIndex(s);
    NumeralValue(s[..i], if i < |s| then s[i + 1..] else "")
  }

  /** The value of the numeral `whole.frac`. */
  function NumeralValue(whole: string, frac: string): real
  {
    DigitsValue(whole) as real + DigitsValue(frac) as real / Pow10(|frac|) as real
  }

  /** Index of the first `.` of `s`, or `|s|` when there is none. */
  function DotIndex(s: string): (i: nat)
    ensures i <= |s| && '.' !in s[..i]
    ensures i < |s| ==> s[i] == '.'
  {
    if s == [] then 0 else if s[0] == '.' then 0 else 1 + DotIndex(s[1..])
  }

  function Pow10(n: nat): (p: nat)
    ensures p >= 1
  {
    if n == 0 then 1 else 10 * Pow10(n - 1)
  }

  /** The token read as a decimal number once its commas are removed, as an exact real. */
  function ParsePrice(token: string): (v: real)
    ensures v >= 0.0
  {
    DecimalValue(Remove(token, ','))
  }

  /** Commas are thrown away before the filter and before the parse, wherever they stand. */
  lemma CommasIgnored(a: string, b: string)
    ensures Kept(a + "," + b) <==> Kept(a + b)
    ensures ParsePrice(a + "," + b) == ParsePrice(a + b)
  {
    CommaRemoved(a, b);
  }

  lemma CommaRemoved(a: string, b: string)
    ensures Remove(a + "," + b, ',') == Remove(a + b, ',')
  {
    var comma: string := ",";
    assert Remove(comma, ',') == [];
    calc {
      Remove(a + comma + b, ',');
      { RemoveOfConcat(a + comma, b, ','); }
      Remove(a + comma, ',') + Remove(b, ',');
      { RemoveOfConcat(a, comma, ','); }
      Remove(a, ',') + [] + Remove(b, ',');
      { assert Remove(a, ',') + [] == Remove(a, ','); }
      Remove(a, ',') + Remove(b, ',');
      { RemoveOfConcat(a, b, ','); }
      Remove(a + b, ',');
    }
  }

  /** A whole dollar amount with cents, written `D.CC`, parses back to its value. */
  lemma ParsePriceOfCents(dollars: nat, cents: nat)
    requires cents < 100
    ensures ParsePrice(NatToDigits(dollars) + "." + [DigitChar(cents / 10), DigitChar(cents % 10)])
      == dollars as real + cents as real / 100.0
  {
    var d := NatToDigits(dollars);
    var f: string := [DigitChar(cents / 10), DigitChar(cents % 10)];
    var s := d + "." + f;
    calc {
      ParsePrice(s);
      DecimalValue(Remove(s, ','));
      { NoCommaInNumeral(d, f); }
      DecimalValue(s);
      { DecimalValueOfNumeral(d, f); }
      NumeralValue(d, f);
      { DigitsOfNat(dollars); TwoDigitsValue(cents); assert Pow10(|f|) == 100; }
      dollars as real + cents as real / 100.0;
    }
  }

  lemma TwoDigitsValue(n: nat)
    requires n < 100
    ensures DigitsValue([DigitChar(n / 10), DigitChar(n % 10)]) == n
  {
    var hi, lo := DigitChar(n / 10), DigitChar(n % 10);
    var f: string := [hi, lo];
    assert f[..1] == [hi];
    assert [hi][..0] == [];
    assert DigitsValue([hi]) == DigitValue(hi) == n / 10;
    assert DigitsValue(f) == DigitsValue([hi]) * 10 + DigitValue(lo);
  }

  /** The value of `whole.frac` for digit strings `whole` and `frac`. */
  lemma DecimalValueOfNumeral(whole: string, frac: string)
    requires AllDigits(whole) && AllDigits(frac)
    ensures DecimalValue(whole + "." + frac) == NumeralValue(whole, frac)
  {
    var s := whole + "." + frac;
    assert s == whole + ("." + frac);
    assert '.' !in whole by {
      forall i | 0 <= i < |whole| ensures whole[i] != '.' {
        assert IsDigit(whole[i]);
      }
    }
    DotIndexAfter(whole, "." + frac);
    var i := DotIndex(s);
    assert i == |whole|;
    assert s[..i] == whole;
    assert s[i + 1..] == frac;
  }

  /** A numeral `whole.frac` is kept by the filter and parses to its exact value. */
  lemma NumeralParses(whole: string, frac: string)
    requires |whole| > 0 && AllDigits(whole) && AllDigits(frac)
    ensures Kept(whole + "." + frac)
    ensures ParsePrice(whole + "." + frac) == NumeralValue(whole, frac)
  {
    NoCommaInNumeral(whole, frac);
    DecimalValueOfNumeral(whole, frac);
    StrippedNumeral(whole, frac);
    AllDigitsOfConcat(whole, frac);
  }

  lemma StrippedNumeral(whole: string, frac: string)
    requires AllDigits(whole) && AllDigits(frac)
    ensures Stripped(whole + "." + frac) == whole + frac
  {
    NoCommaInNumeral(whole, frac);
    NoDotInDigits(whole);
    NoDotInDigits(frac);
    var dot: string := ".";
    calc {
      Remove(whole + dot + frac, '.');
      { RemoveOfConcat(whole + dot, frac, '.'); }
      Remove(whole + dot, '.') + Remove(frac, '.');
      { RemoveOfConcat(whole, dot, '.'); }
      Remove(whole, '.') + Remove(dot, '.') + Remove(frac, '.');
      { RemoveNoop(whole, '.'); RemoveNoop(frac, '.'); assert Remove(dot, '.') == []; }
      whole + [] + frac;
    }
  }

  lemma NoDotInDigits(s: string)
    requires AllDigits(s)
    ensures '.' !in s
  {
    forall i | 0 <= i < |s| ensures s[i] != '.' { assert IsDigit(s[i]); }
  }

  lemma AllDigitsOfConcat(a: string, b: string)
    requires AllDigits(a) && AllDigits(b)
    ensures AllDigits(a + b)
  {
    forall i | 0 <= i < |a + b| ensures IsDigit((a + b)[i]) {
      if i < |a| { assert IsDigit(a[i]); } else { assert IsDigit(b[i - |a|]); }
    }
  }

  lemma NoCommaInNumeral(whole: string, frac: string)
    requires AllDigits(whole) && AllDigits(frac)
    ensures Remove(whole + "." + frac, ',') == whole + "." + frac
  {
    var s := whole + "." + frac;
    forall i | 0 <= i < |s| ensures s[i] != ',' {
      if i < |whole| { assert IsDigit(whole[i]); }
      else if i > |whole| { assert s[i] == frac[i - |whole| - 1]; assert IsDigit(frac[i - |whole| - 1]); }
    }
    RemoveNoop(s, ',');
  }

  lemma {:induction false} RemoveNoop(s: string, c: char)
    requires c !in s
    ensures Remove(s, c) == s
  {
    if s != [] {
      RemoveNoop(s[1..], c);
    }
  }

  lemma {:induction false} DotIndexAfter(a: string, b: string)
    requires '.' !in a
    ensures DotIndex(a + b) == |a| + DotIndex(b)
  {
    if a == [] {
      assert a + b == b;
    } else {
      assert (a + b)[1..] == a[1..] + b;
      DotIndexAfter(a[1..], b);
    }
  }

  /** The integer part of a capture split at `k`: the digits before the dot, commas dropped. */
  function CaptureWhole(t: string, k: int): string
    requires SplitsCapture(t, k)
  {
    if AllDigits(t[k..]) then Remove(t[..k], ',') + t[k..] else Remove(t[..k], ',')
  }

  /** The fraction digits of a capture split at `k`: those after the dot, if there is one. */
  function CaptureFrac(t: string, k: int): string
    requires SplitsCapture(t, k)
  {
    if AllDigits(t[k..]) then "" else t[k + 1..]
  }

  /** Every captured token: the filter keeps it exactly when it holds a digit, and it
    * parses to its integer digits (commas dropped) plus its fraction digits. */
  lemma CaptureValue(t: string, k: int)
    requires SplitsCapture(t, k)
    ensures AllDigits(CaptureWhole(t, k)) && AllDigits(CaptureFrac(t, k))
    ensures Kept(t) <==> |CaptureWhole(t, k)| + |CaptureFrac(t, k)| > 0
    ensures ParsePrice(t) == NumeralValue(CaptureWhole(t, k), CaptureFrac(t, k))
  {
    CommasDropped(t[..k]);
    assert t == t[..k] + t[k..];
    RemoveOfConcat(t[..k], t[k..], ',');
    if AllDigits(t[k..]) {
      NoCommaInDigits(t[k..]);
      RemoveNoop(t[k..], ',');
      AllDigitsOfConcat(Remove(t[..k], ','), t[k..]);
      DigitTokenValue(t);
    } else {
      CaptureValueWithDot(t, k);
    }
  }

  /** A token whose comma-free form is a digit string is kept when that string is
    * non-empty, and parses to its value. */
  lemma DigitTokenValue(t: string)
    requires AllDigits(Remove(t, ','))
    ensures Kept(t) <==> |Remove(t, ',')| > 0
    ensures ParsePrice(t) == NumeralValue(Remove(t, ','), "")
  {
    DigitsValueParse(Remove(t, ','));
  }

  lemma CaptureValueWithDot(t: string, k: int)
    requires SplitsCapture(t, k) && !AllDigits(t[k..])
    requires AllDigits(Remove(t[..k], ','))
    requires Remove(t, ',') == Remove(t[..k], ',') + Remove(t[k..], ',')
    ensures Kept(t) <==> |Remove(t[..k], ',')| + |t[k + 1..]| > 0
    ensures ParsePrice(t) == NumeralValue(Remove(t[..k], ','), t[k + 1..])
  {
    var w, f := Remove(t[..k], ','), t[k + 1..];
    var dot: string := ".";
    assert t[k..] == dot + f;
    NoCommaInDigits(f);
    RemoveOfConcat(dot, f, ',');
    RemoveNoop(f, ',');
    assert Remove(dot, ',') == dot;
    assert Remove(t, ',') == w + dot + f;
    NoCommaInNumeral(w, f);
    StrippedNumeral(w, f);
    AllDigitsOfConcat(w, f);
    DecimalValueOfNumeral(w, f);
  }

  /** A comma-free digit string: what is left once its dots are gone is itself, and it reads as its digits. */
  lemma DigitsValueParse(d: string)
    requires AllDigits(d)
    ensures Remove(d, '.') == d
    ensures DecimalValue(d) == DigitsValue(d) as real
  {
    NoDotInDigits(d);
    DotIndexAfter(d, "");
    assert d + "" == d;
    assert d[..|d|] == d;
    RemoveNoop(d, '.');
  }

  /** A whole-dollar token such as `450` is kept and parses to its digits' value. */
  lemma WholeDollarsParse(d: string)
    requires |d| > 0 && AllDigits(d)
    ensures Kept(d) && ParsePrice(d) == DigitsValue(d) as real
  {
    NoCommaInDigits(d);
    RemoveNoop(d, ',');
    DigitsValueParse(d);
  }

  /** Removing the commas from a run of digits and commas leaves digits only. */
  lemma {:induction false} CommasDropped(s: string)
    requires forall i :: 0 <= i < |s| ==> IsDigitOrComma(s[i])
    ensures AllDigits(Remove(s, ','))
  {
    if s != [] {
      CommasDropped(s[1..]);
      assert Remove(s, ',') == (if s[0] == ',' then [] else [s[0]]) + Remove(s[1..], ',');
    }
  }

  lemma NoCommaInDigits(s: string)
    requires AllDigits(s)
    ensures ',' !in s
  {
    forall i | 0 <= i < |s| ensures s[i] != ',' { assert IsDigit(s[i]); }
  }

  /** The parsed values of the kept tokens, in token order. */
  function ParseKept(tokens: seq<string>): (vs: seq<real>)
    ensures |vs| <= |tokens|
    ensures forall i :: 0 <= i < |vs| ==> vs[i] >= 0.0
  {
    if tokens == [] then [] else KeptValue(tokens[0]) + ParseKept(tokens[1..])
  }

  /** What one token adds: its parsed value when the filter keeps it, else nothing. */
  function KeptValue(token: string): (r: seq<real>)
    ensures |r| <= 1 && forall i :: 0 <= i < |r| ==> r[i] >= 0.0
    ensures forall v :: v in r <==> Kept(token) && ParsePrice(token) == v
  {
    if Kept(token) then [ParsePrice(token)] else []
  }

  /** `price_values` of `extract_prices`. */
  function PriceValues(text: string): seq<real>
  {
    ParseKept(Tokens(text))
  }

  /** The values are those of the kept tokens: a value appears exactly when some kept token parses to it. */
  lemma {:induction false} ParseKeptMembership(tokens: seq<string>, v: real)
    ensures v in ParseKept(tokens) <==> exists i :: 0 <= i < |tokens| && Kept(tokens[i]) && ParsePrice(tokens[i]) == v
  {
    if tokens != [] {
      ParseKeptMembership(tokens[1..], v);
      if exists i :: 0 <= i < |tokens| && Kept(tokens[i]) && ParsePrice(tokens[i]) == v {
        var i :| 0 <= i < |tokens| && Kept(tokens[i]) && ParsePrice(tokens[i]) == v;
        if i > 0 {
          assert tokens[1..][i - 1] == tokens[i];
        }
      }
      if exists i :: 0 <= i < |tokens| - 1 && Kept(tokens[1..][i]) && ParsePrice(tokens[1..][i]) == v {
        var i :| 0 <= i < |tokens| - 1 && Kept(tokens[1..][i]) && ParsePrice(tokens[1..][i]) == v;
        assert tokens[i + 1] == tokens[1..][i];
      }
    }
  }

  /** Token order is kept: the values of `a + b` are those of `a`, then those of `b`. */
  lemma {:induction false} ParseKeptOfConcat(a: seq<string>, b: seq<string>)
    ensures ParseKept(a + b) == ParseKept(a) + ParseKept(b)
  {
    if a == [] {
      assert a + b == b;
    } else {
      assert (a + b)[0] == a[0];
      assert (a + b)[1..] == a[1..] + b;
      ParseKeptOfConcat(a[1..], b);
    }
  }

  /** The values of a listing are the parsed kept captures written into it, in order. */
  lemma ListingValues(lead: string, captures: seq<string>, gaps: seq<string>)
    requires |captures| == |gaps|
    requires '$' !in lead
    requires forall i :: 0 <= i < |captures| ==> IsCapture(captures[i])
    requires forall i :: 0 <= i < |gaps| ==> '$' !in gaps[i] && EndsCapture(gaps[i])
    ensures PriceValues(lead + Listing(captures, gaps)) == ParseKept(captures)
  {
    TokensOfListing(lead, captures, gaps);
  }

  // ---------------------------------------------------------------------------
  // The min/max rule
  // ---------------------------------------------------------------------------

  function SeqMin(s: seq<real>): (m: real)
    requires |s| > 0
    ensures m in s && forall i :: 0 <= i < |s| ==> m <= s[i]
  {
    if |s| == 1 then s[0] else var m := SeqMin(s[1..]); if s[0] <= m then s[0] else m
  }

  function SeqMax(s: seq<real>): (m: real)
    requires |s| > 0
    ensures m in s && forall i :: 0 <= i < |s| ==> s[i] <= m
  {
    if |s| == 1 then s[0] else var m := SeqMax(s[1..]); if s[0] >= m then s[0] else m
  }

  /** The discount of `lo` against `hi` as a whole percent, truncated toward zero. */
  function DiscountPercent(lo: real, hi: real): (p: int)
    requires 0.0 <= lo <= hi && hi > 0.0
    ensures 0 <= p <= 100
    ensures p as real <= (hi - lo) / hi * 100.0 < p as real + 1.0
  {
    assert (hi - lo) / hi <= 1.0;
    ((hi - lo) / hi * 100.0).Floor
  }

  /** The percent written as its decimal digits followed by a percent sign. */
  function PercentText(p: nat): string
  {
    NatToDigits(p) + "%"
  }

  datatype PriceInfo = PriceInfo(current: Option<real>, original: Option<real>, discount: Option<string>)

  /** The min/max rule of `extract_prices` over the parsed values: min as current, max as
    * original and the truncated discount; one value is the current price only; no value gives
    * nothing. With two or more values that are all zero the division raises. */
  function PriceRule(vs: seq<real>): (r: Result<PriceInfo, Raised>)
    requires forall i :: 0 <= i < |vs| ==> vs[i] >= 0.0
    ensures |vs| == 0 ==> r == Success(PriceInfo(None, None, None))
    ensures |vs| == 1 ==> r == Success(PriceInfo(Some(vs[0]), None, None))
    ensures |vs| >= 2 ==> (r.Failure? <==> forall i :: 0 <= i < |vs| ==> vs[i] == 0.0)
    ensures r.Failure? ==> r.error == ZeroDivisionError
    ensures |vs| >= 2 && r.Success? ==>
      && r.value.current.Some? && r.value.original.Some?
      && var lo, hi := r.value.current.value, r.value.original.value;
      && lo in vs && hi in vs
      && (forall i :: 0 <= i < |vs| ==> lo <= vs[i] <= hi)
      && r.value.discount == Some(PercentText(DiscountPercent(lo, hi)))
  {
    if |vs| >= 2 then
      var lo, hi := SeqMin(vs), SeqMax(vs);
      if hi == 0.0 then Failure(ZeroDivisionError)
      else Success(PriceInfo(Some(lo), Some(hi), Some(PercentText(DiscountPercent(lo, hi)))))
    else if |vs| == 1 then Success(PriceInfo(Some(vs[0]), None, None))
    else Success(PriceInfo(None, None, None))
  }

  /** `extract_prices`. */
  function ExtractPrices(text: string): (r: Result<PriceInfo, Raised>)
    ensures r.Failure? ==> r.error == ZeroDivisionError
  {
    PriceRule(PriceValues(text))
  }

  /** The current price never exceeds the original one. */
  lemma CurrentAtMostOriginal(text: string)
    requires ExtractPrices(text).Success?
    requires ExtractPrices(text).value.original.Some?
    ensures ExtractPrices(text).value.current.Some?
    ensures ExtractPrices(text).value.current.value <= ExtractPrices(text).value.original.value
  {
  }

  /** Duplicates are not collapsed: equal prices give the same current and original price, 0% off. */
  lemma EqualPricesNoDiscount(vs: seq<real>)
    requires |vs| >= 2 && vs[0] > 0.0
    requires forall i :: 0 <= i < |vs| ==> vs[i] == vs[0]
    ensures PriceRule(vs) == Success(PriceInfo(Some(vs[0]), Some(vs[0]), Some("0%")))
  {
    var lo, hi := SeqMin(vs), SeqMax(vs);
    var i :| 0 <= i < |vs| && vs[i] == lo;
    var j :| 0 <= j < |vs| && vs[j] == hi;
    assert lo == vs[0] == hi;
    assert DiscountPercent(vs[0], vs[0]) == 0;
    assert NatToDigits(0) == "0";
    assert PercentText(0) == "0%";
    assert PriceRule(vs) == Success(PriceInfo(Some(lo), Some(hi), Some(PercentText(DiscountPercent(lo, hi)))));
  }
}
