/** Worked examples of `extract_prices` on concrete listing texts.
  * A lemma about a longer literal takes it as a parameter fixed by its `requires`:
  * a literal written into the contract would be unfolded by the verifier at every use. */
module PriceExamples {
  import opened Common
  import opened Text
  import opened Prices

  lemma DigitsOf1299()
    ensures DigitsValue("1299") == 1299
  {
    assert "1299"[..3] == "129";
    assert "129"[..2] == "12";
    assert "12"[..1] == "1";
    assert "1"[..0] == "";
  }

  /** The scan of `$1,299.99` captures the whole token `1,299.99`. */
  lemma TokensOfThousands(text: string)
    requires text == "$1,299.99"
    ensures Tokens(text) == ["1,299.99"]
  {
    assert SplitsCapture("1,299.99", 5) by {
      assert "1,299.99"[6..] == "99";
    }
    assert Listing(["1,299.99"], [""]) == "$1,299.99" by {
      assert ["1,299.99"][1..] == [];
      assert [""][1..] == [];
    }
    TokensOfListing("", ["1,299.99"], [""]);
    assert "" + "$1,299.99" == "$1,299.99";
  }

  /** The token `1,299.99` is kept and parses to 1299.99. */
  lemma Parse1299(token: string)
    requires token == "1,299.99"
    ensures Kept(token) && ParsePrice(token) == 1299.99
  {
    assert token == "1" + "," + "299.99";
    assert "1" + "299.99" == "1299" + "." + "99";
    CommasIgnored("1", "299.99");
    NumeralParses("1299", "99");
    ValueOf1299Point99();
  }

  lemma ParseOneKept(a: string)
    requires Kept(a)
    ensures ParseKept([a]) == [ParsePrice(a)]
  {
    assert [a][1..] == [];
  }

  /** Commas are removed before the filter and the parse: `$1,299.99` gives 1299.99. */
  lemma ThousandsSeparator(text: string)
    requires text == "$1,299.99"
    ensures PriceValues(text) == [1299.99]
  {
    TokensOfThousands(text);
    Parse1299("1,299.99");
    ParseOneKept("1,299.99");
  }

  lemma ValueOf1299Point99()
    ensures NumeralValue("1299", "99") == 1299.99
  {
    DigitsOf1299();
    DigitsOf99();
    assert Pow10(2) == 100;
  }

  /** A `$` followed only by a comma yields a token that the filter drops. */
  lemma BareCommaDropped()
    ensures PriceValues("$,") == []
  {
    assert SplitsCapture(",", 1);
    assert Listing([","], [""]) == "$," by {
      assert [","][1..] == [];
      assert [""][1..] == [];
    }
    TokensOfListing("", [","], [""]);
    assert "" + "$," == "$,";
    assert Stripped(",") == "";
    assert [","][1..] == [];
  }

  /** A whole-dollar price: `$450` yields the single value 450. */
  lemma WholeDollarPrice(text: string)
    requires text == "$450"
    ensures PriceValues(text) == [450.0]
  {
    var token: string := "450";
    WholeDollarTokens(text, token);
    WholeDollarsParse(token);
    DigitsOf450(token);
    ParseOneKept(token);
  }

  /** The scan of `$450` captures the token `450`. */
  lemma WholeDollarTokens(text: string, token: string)
    requires text == "$450" && token == "450"
    ensures Tokens(text) == [token]
  {
    assert SplitsCapture(token, 3) by {
      assert token[3..] == "";
    }
    assert Listing([token], [""]) == text by {
      assert [token][1..] == [];
      assert [""][1..] == [];
    }
    TokensOfListing("", [token], [""]);
    assert "" + text == text;
  }

  /** The digit string `450` has the value 450. */
  lemma DigitsOf450(d: string)
    requires d == "450"
    ensures DigitsValue(d) == 450
  {
    assert d[..2] == "45";
    assert "45"[..1] == "4";
    assert "4"[..0] == "";
  }

  /** A token with no digit before its dot: `,.5` is kept and parses to 0.5. */
  lemma LeadingCommaFraction(token: string)
    requires token == ",.5"
    ensures Kept(token) && ParsePrice(token) == 0.5
  {
    LeadingCommaSplit(token);
    CaptureValue(token, 1);
    assert "5"[..0] == "";
    assert NumeralValue("", "5") == 0.5;
  }

  /** `,.5` splits after its comma: no integer digits, and the fraction digit 5. */
  lemma LeadingCommaSplit(token: string)
    requires token == ",.5"
    ensures SplitsCapture(token, 1)
    ensures CaptureWhole(token, 1) == "" && CaptureFrac(token, 1) == "5"
  {
    assert token[..1] == ",";
    assert token[1..] == ".5" && token[2..] == "5";
    assert Remove(",", ',') == "";
    assert !IsDigit(token[1..][0]);
  }

  lemma DigitsOf899()
    ensures DigitsValue("899") == 899
  {
    assert "899"[..2] == "89";
    assert "89"[..1] == "8";
    assert "8"[..0] == "";
  }

  lemma DigitsOf999()
    ensures DigitsValue("999") == 999
  {
    assert "999"[..2] == "99";
    assert "99"[..1] == "9";
    assert "9"[..0] == "";
  }

  lemma DigitsOf99()
    ensures DigitsValue("99") == 99
  {
    assert "99"[..1] == "9";
    assert "9"[..0] == "";
  }

  lemma Numeral899()
    ensures NumeralValue("899", "99") == 899.99
  {
    DigitsOf899();
    DigitsOf99();
    assert Pow10(2) == 100;
  }

  /** The token `899.99` is kept and parses to 899.99. */
  lemma Parse899(t: string)
    requires t == "899.99"
    ensures Kept(t) && ParsePrice(t) == 899.99
  {
    assert t == "899" + "." + "99";
    NumeralParses("899", "99");
    Numeral899();
  }

  lemma Numeral999()
    ensures NumeralValue("999", "99") == 999.99
  {
    DigitsOf999();
    DigitsOf99();
    assert Pow10(2) == 100;
  }

  /** The token `999.99` is kept and parses to 999.99. */
  lemma Parse999(t: string)
    requires t == "999.99"
    ensures Kept(t) && ParsePrice(t) == 999.99
  {
    assert t == "999" + "." + "99";
    NumeralParses("999", "99");
    Numeral999();
  }

  lemma SaleCaptures()
    ensures IsCapture("899.99") && IsCapture("999.99")
  {
    assert SplitsCapture("899.99", 3) by { assert "899.99"[4..] == "99"; }
    assert SplitsCapture("999.99", 3) by { assert "999.99"[4..] == "99"; }
  }

  /** The sale listing is a listing text: its two prices written after `$` signs, separated by plain text. */
  lemma SaleText(lead: string, caps: seq<string>, gaps: seq<string>)
    requires lead == "Burton Custom X Snowboard "
    requires caps == ["899.99", "999.99"] && gaps == [" ", ""]
    ensures lead + Listing(caps, gaps) == "Burton Custom X Snowboard $899.99 $999.99"
  {
    assert caps[1..][1..] == [] && gaps[1..][1..] == [];
    assert Listing(caps[1..], gaps[1..]) == "$999.99";
    assert Listing(caps, gaps) == "$899.99 $999.99";
  }

  /** The scan of the sale listing captures `899.99`, then `999.99`. */
  lemma TokensOfBurton(text: string)
    requires text == "Burton Custom X Snowboard $899.99 $999.99"
    ensures Tokens(text) == ["899.99", "999.99"]
  {
    var lead := "Burton Custom X Snowboard ";
    var caps := ["899.99", "999.99"];
    var gaps := [" ", ""];
    SaleShape(lead, caps, gaps);
    SaleText(lead, caps, gaps);
    TokensOfListing(lead, caps, gaps);
  }

  /** The parts of the sale listing meet the conditions of a listing scan. */
  lemma SaleShape(lead: string, caps: seq<string>, gaps: seq<string>)
    requires lead == "Burton Custom X Snowboard "
    requires caps == ["899.99", "999.99"] && gaps == [" ", ""]
    ensures |caps| == |gaps| && '$' !in lead
    ensures forall i :: 0 <= i < |caps| ==> IsCapture(caps[i])
    ensures forall i :: 0 <= i < |gaps| ==> '$' !in gaps[i] && EndsCapture(gaps[i])
  {
    SaleCaptures();
    assert EndsCapture(gaps[0]) && EndsCapture(gaps[1]);
  }

  lemma TenPercent()
    ensures DiscountPercent(899.99, 999.99) == 10
  {
    var x := (999.99 - 899.99) / 999.99 * 100.0;
    assert 10.0 <= x < 11.0;
  }

  lemma TenPercentText()
    ensures PercentText(10) == "10%"
  {
    assert NatToDigits(1) == "1";
    assert NatToDigits(10) == "1" + "0";
  }

  /** The sale listing's values are 899.99, then 999.99. */
  lemma SaleValues(text: string)
    requires text == "Burton Custom X Snowboard $899.99 $999.99"
    ensures PriceValues(text) == [899.99, 999.99]
  {
    TokensOfBurton(text);
    Parse899("899.99");
    Parse999("999.99");
    ParseTwoKept("899.99", "999.99");
  }

  lemma ParseTwoKept(a: string, b: string)
    requires Kept(a) && Kept(b)
    ensures ParseKept([a, b]) == [ParsePrice(a), ParsePrice(b)]
  {
    assert [a, b][1..] == [b];
    assert [b][1..] == [];
  }

  /** A sale listing: the lower price is current, the higher original, 10% off. */
  lemma SaleListing(text: string)
    requires text == "Burton Custom X Snowboard $899.99 $999.99"
    ensures ExtractPrices(text) == Success(PriceInfo(Some(899.99), Some(999.99), Some("10%")))
  {
    SaleValues(text);
    assert SeqMin([899.99, 999.99]) == 899.99 by { assert [899.99, 999.99][1..] == [999.99]; }
    assert SeqMax([899.99, 999.99]) == 999.99 by { assert [899.99, 999.99][1..] == [999.99]; }
    TenPercent();
    TenPercentText();
  }
}
