/** Brand detection of the scraper (`detect_brand`). */
module Brands {
  import opened Common
  import opened Text

  /** The ordered brand vocabulary; list order breaks ties between several matches. */
  const KnownBrands: seq<string> :=
    ["Burton", "Lib Tech", "Salomon", "K2", "Capita", "Ride", "Rome",
     "Never Summer", "Gnu", "Arbor", "Bataleon", "YES", "Rossignol", "Roxy"]

  /** The sentinel returned when no listed brand occurs in the name ("other brand"). */
  const OtherBrand: string := "其他品牌"

  /** A brand is mentioned when its lower-cased form is a substring of the lower-cased name. */
  predicate Mentions(name: string, brand: string)
  {
    Contains(Lower(name), Lower(brand))
  }

  /** The index of the first brand of `brands` that `name` mentions. */
  function FirstMention(brands: seq<string>, name: string): (r: Option<nat>)
    ensures r.Some? ==> r.value < |brands| && Mentions(name, brands[r.value])
    ensures r.Some? ==> forall j :: 0 <= j < r.value ==> !Mentions(name, brands[j])
    ensures r.None? <==> forall j :: 0 <= j < |brands| ==> !Mentions(name, brands[j])
  {
    if brands == [] then None
    else if Mentions(name, brands[0]) then Some(0)
    else match FirstMention(brands[1..], name)
      case None => None
      case Some(i) => Some(i + 1)
  }

  /** `detect_brand`: the first listed brand the name mentions, else the sentinel. */
  function DetectBrand(name: string): (r: string)
    ensures r == OtherBrand || r in KnownBrands
  {
    match FirstMention(KnownBrands, name)
    case Some(i) => KnownBrands[i]
    case None => OtherBrand
  }

  /** The result is the first listed brand that the name mentions. */
  lemma DetectBrandIsFirstMatch(name: string)
    ensures DetectBrand(name) != OtherBrand ==>
      exists i :: 0 <= i < |KnownBrands| && DetectBrand(name) == KnownBrands[i] &&
        Mentions(name, KnownBrands[i]) &&
        forall j :: 0 <= j < i ==> !Mentions(name, KnownBrands[j])
  {
  }

  /** The sentinel comes back exactly when no listed brand is mentioned; otherwise the result is a listed brand. */
  lemma DetectBrandSentinel(name: string)
    ensures DetectBrand(name) == OtherBrand <==> forall b :: b in KnownBrands ==> !Mentions(name, b)
    ensures DetectBrand(name) != OtherBrand ==> DetectBrand(name) in KnownBrands
  {
    assert OtherBrand !in KnownBrands by {
      forall i | 0 <= i < |KnownBrands| ensures KnownBrands[i] != OtherBrand {
        assert KnownBrands[i][0] != OtherBrand[0];
      }
    }
    if forall b :: b in KnownBrands ==> !Mentions(name, b) {
      assert forall j :: 0 <= j < |KnownBrands| ==> KnownBrands[j] in KnownBrands;
    }
  }

  /** Detection ignores letter case in the name. */
  lemma DetectBrandIgnoresCase(name: string)
    ensures DetectBrand(Lower(name)) == DetectBrand(name)
  {
    LowerIdempotent(name);
    forall b ensures Mentions(Lower(name), b) == Mentions(name, b) { }
    FirstMentionDependsOnMentions(KnownBrands, Lower(name), name);
  }

  lemma {:induction false} FirstMentionDependsOnMentions(brands: seq<string>, a: string, b: string)
    requires forall x :: Mentions(a, x) == Mentions(b, x)
    ensures FirstMention(brands, a) == FirstMention(brands, b)
  {
    if brands != [] {
      FirstMentionDependsOnMentions(brands[1..], a, b);
    }
  }

  /** A name without any ASCII letter mentions no listed brand. */
  lemma NoLettersNoBrand(name: string)
    requires forall i :: 0 <= i < |name| ==> !('A' <= name[i] <= 'Z') && !('a' <= name[i] <= 'z')
    ensures DetectBrand(name) == OtherBrand
  {
    forall b | b in KnownBrands ensures !Mentions(name, b) {
      var lb := Lower(b);
      assert 'A' <= b[0] <= 'Z';
      if Mentions(name, b) {
        ContainsFirstChar(Lower(name), lb);
        assert false;
      }
    }
    DetectBrandSentinel(name);
  }

  /** "Burton Ride" mentions two brands; the earlier-listed one wins. */
  lemma BurtonRideIsBurton()
    ensures DetectBrand("Burton Ride") == "Burton"
  {
    assert Lower("Burton Ride")[..6] == Lower("Burton");
    assert Mentions("Burton Ride", "Burton");
  }

  /** List order, not position in the name, breaks ties. */
  lemma RideBurtonIsBurton()
    ensures DetectBrand("Ride Burton") == "Burton"
  {
    var s := Lower("Ride Burton");
    assert s[5..][..6] == Lower("Burton");
    assert Contains(s[5..], Lower("Burton"));
    assert Contains(s[4..], Lower("Burton"));
    assert Contains(s[3..], Lower("Burton"));
    assert Contains(s[2..], Lower("Burton"));
    assert Contains(s[1..], Lower("Burton"));
    assert Mentions("Ride Burton", "Burton");
  }
}
