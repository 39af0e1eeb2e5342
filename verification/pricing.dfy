/** The rule-based monthly price suggestion for a new listing. */
module Pricing {
  import opened Wrappers
  import opened Text
  import opened Money
  import opened Schemas

  /** Zip codes priced up and down by demand; no zip is in both. */
  const HighDemandZips: set<string> := {"95112", "95126"}
  const LowDemandZips: set<string> := {"95127", "95128"}

  const HighDemandNote: string := "+10% high-demand adjustment"
  const LowDemandNote: string := "\U{2212}10% low-demand adjustment"
  const IndoorNote: string := "+$15 indoor premium"
  const IndoorPremium: real := 15.0

  /** The base monthly price for an (upper-cased) size label; unknown labels price as M. */
  function BasePrice(size: string): (p: real)
    ensures size == "S" ==> p == 60.0
    ensures size == "M" ==> p == 100.0
    ensures size == "L" ==> p == 140.0
    ensures size != "S" && size != "M" && size != "L" ==> p == 100.0
    ensures 60.0 <= p <= 140.0
  {
    if size == "S" then 60.0
    else if size == "M" then 100.0
    else if size == "L" then 140.0
    else 100.0
  }

  /** Python's `str(base)` for the three base prices: one decimal place. */
  function BaseText(p: real): string {
    if p == 60.0 then "60.0" else if p == 140.0 then "140.0" else "100.0"
  }

  /** A larger bucket never has a smaller base price. */
  lemma BasePriceGrowsWithSize(a: StorageSize, b: StorageSize)
    requires a.Ordinal() <= b.Ordinal()
    ensures BasePrice(a.Wire()) <= BasePrice(b.Wire())
  {
  }

  /** The demand multiplier of a zip code. */
  function DemandFactor(zip: string): (f: real)
    ensures zip in HighDemandZips ==> f == 1.1
    ensures zip in LowDemandZips ==> f == 0.9
    ensures zip !in HighDemandZips && zip !in LowDemandZips ==> f == 1.0
  {
    if zip in HighDemandZips then 1.1
    else if zip in LowDemandZips then 0.9
    else 1.0
  }

  /** `if indoor:` on an optional flag: only an explicit true earns the premium. */
  predicate IsIndoor(indoor: Option<bool>) {
    indoor == Some(true)
  }

  /** The price before the random variation: base times demand, plus the indoor premium. */
  function DeterministicPrice(size: string, zip: string, indoor: Option<bool>): (d: real)
    ensures d == (if size == "S" then 60.0 else if size == "L" then 140.0 else 100.0)
                 * (if zip in {"95112", "95126"} then 1.1 else if zip in {"95127", "95128"} then 0.9 else 1.0)
                 + (if indoor == Some(true) then 15.0 else 0.0)
    ensures 54.0 <= d <= 169.0
  {
    BasePrice(size) * DemandFactor(zip) + (if IsIndoor(indoor) then IndoorPremium else 0.0)
  }

  /** The adjustment notes, in the order the rules fire. */
  function Factors(zip: string, indoor: Option<bool>): (fs: seq<string>)
    ensures |fs| == (if zip in HighDemandZips || zip in LowDemandZips then 1 else 0) + (if IsIndoor(indoor) then 1 else 0)
    ensures IsIndoor(indoor) ==> fs[|fs| - 1] == IndoorNote
    ensures (zip in HighDemandZips) <==> HighDemandNote in fs
    ensures (zip in LowDemandZips) <==> LowDemandNote in fs
    ensures IsIndoor(indoor) <==> IndoorNote in fs
    ensures forall k :: 0 <= k < |fs| ==> |fs[k]| > 0 && (fs[k][0] == '+' || fs[k][0] == '\U{2212}')
  {
    var demand := if zip in HighDemandZips then [HighDemandNote]
                  else if zip in LowDemandZips then [LowDemandNote]
                  else [];
    demand + (if IsIndoor(indoor) then [IndoorNote] else [])
  }

  function FactorText(factors: seq<string>): string {
    if |factors| > 0 then JoinWith(factors, " ") else "no adjustments"
  }

  /** A joined list starts with the first part. */
  lemma {:induction false} JoinWithStartsWithFirst(parts: seq<string>, sep: string)
    requires |parts| > 0 && |parts[0]| > 0
    ensures |JoinWith(parts, sep)| > 0 && JoinWith(parts, sep)[0] == parts[0][0]
  {
  }

  /** The explanation says "no adjustments" exactly when no rule fired. */
  lemma NoAdjustmentsIff(zip: string, indoor: Option<bool>)
    ensures FactorText(Factors(zip, indoor)) == "no adjustments"
            <==> zip !in HighDemandZips && zip !in LowDemandZips && !IsIndoor(indoor)
  {
    var fs := Factors(zip, indoor);
    if |fs| > 0 {
      JoinWithStartsWithFirst(fs, " ");
      assert FactorText(fs)[0] != 'n';
    }
  }

  function AreaText(zip: string): string {
    if zip == "" then "your area" else zip
  }

  function Explanation(size: string, zip: string, indoor: Option<bool>): string {
    ExplanationHead(size, zip) + FactorText(Factors(zip, indoor))
    + ". A slight variation is applied so suggestions feel more human."
  }

  /** The part of the explanation up to the factor text. */
  function ExplanationHead(size: string, zip: string): string {
    "We compared similar " + size + "-size spaces in " + AreaText(zip)
    + " and recommend this rate. Base $" + BaseText(BasePrice(size)) + " "
  }

  /** The explanation names the area compared and the adjustments applied. */
  lemma ExplanationMentions(size: string, zip: string, indoor: Option<bool>)
    ensures Contains(Explanation(size, zip, indoor), AreaText(zip))
    ensures Contains(Explanation(size, zip, indoor), FactorText(Factors(zip, indoor)))
  {
    var tail := ". A slight variation is applied so suggestions feel more human.";
    var ft := FactorText(Factors(zip, indoor));
    var area := AreaText(zip);
    var pre := "We compared similar " + size + "-size spaces in ";
    var mid := " and recommend this rate. Base $";
    var base := BaseText(BasePrice(size));
    ContainsSelf(area);
    ContainsGrow(area, pre, area);
    ContainsGrow(pre + area, mid, area);
    ContainsGrow(pre + area + mid, base, area);
    ContainsGrow(pre + area + mid + base, " ", area);
    ContainsGrow(ExplanationHead(size, zip), ft, area);
    ContainsGrow(ExplanationHead(size, zip) + ft, tail, area);
    ContainsSelf(ft);
    ContainsGrow(ft, ExplanationHead(size, zip), ft);
    ContainsGrow(ExplanationHead(size, zip) + ft, tail, ft);
  }

  datatype Suggestion = Suggestion(suggestedPrice: real, minPrice: real, maxPrice: real, explanation: string)

  /** `r` is `x` rounded to the cent. */
  predicate NearCent(x: real, r: real) {
    x - 0.005 < r <= x + 0.005
  }

  /** The three rounded prices around a deterministic price `d` and its varied value. */
  datatype Band = Band(suggested: real, low: real, high: real)

  function PriceBand(d: real, varied: real): (b: Band)
    requires 54.0 <= d <= 169.0 && d * 0.9 <= varied <= d * 1.2
    ensures b == Band(Round2(varied), Round2(d * 0.9), Round2(d * 1.2))
    ensures b.low <= b.suggested <= b.high
    ensures 48.6 <= b.low < b.high <= 202.8
    ensures NearCent(varied, b.suggested)
  {
    BandOrdered(d, varied);
    Band(Round2(varied), Round2(d * 0.9), Round2(d * 1.2))
  }

  lemma BandOrdered(d: real, varied: real)
    requires 54.0 <= d <= 169.0 && d * 0.9 <= varied <= d * 1.2
    ensures Round2(d * 0.9) <= Round2(varied) <= Round2(d * 1.2)
    ensures 48.6 <= Round2(d * 0.9) < Round2(d * 1.2) <= 202.8
  {
    Round2Monotone(d * 0.9, varied);
    Round2Monotone(varied, d * 1.2);
    Round2Monotone(48.6, d * 0.9);
    Round2Monotone(d * 1.2, 202.8);
    Round2Cents(4860);
    Round2Cents(20280);
  }

  /** The varied price stays between 90% and 120% of the deterministic one. */
  lemma JitterWithinBand(d: real, jitter: real)
    requires 54.0 <= d <= 169.0 && 0.95 <= jitter <= 1.05
    ensures d * 0.9 <= d * jitter <= d * 1.2
  {
    ScaleMonotone(d, 0.9, jitter);
    ScaleMonotone(d, jitter, 1.2);
  }

  /** The band for a deterministic price varied by `jitter`. */
  function JitteredBand(d: real, jitter: real): (b: Band)
    requires 54.0 <= d <= 169.0 && 0.95 <= jitter <= 1.05
    ensures b == Band(Round2(d * jitter), Round2(d * 0.9), Round2(d * 1.2))
    ensures b.low <= b.suggested <= b.high
    ensures 48.6 <= b.low < b.high <= 202.8
    ensures NearCent(d * jitter, b.suggested)
  {
    JitterWithinBand(d, jitter);
    PriceBand(d, d * jitter)
  }

  /**
   * The suggestion for a size label, zip code and indoor flag. The source draws
   * `jitter` uniformly from [0.95, 1.05]; here it is a parameter.
   */
  function SuggestPrice(size: string, zip: string, indoor: Option<bool>, jitter: real): (r: Suggestion)
    requires 0.95 <= jitter <= 1.05
    ensures var d := DeterministicPrice(ToUpper(size), zip, indoor);
            && r.suggestedPrice == Round2(d * jitter)
            && r.minPrice == Round2(d * 0.9)
            && r.maxPrice == Round2(d * 1.2)
    ensures r.explanation == Explanation(ToUpper(size), zip, indoor)
    ensures r.minPrice <= r.suggestedPrice <= r.maxPrice
    ensures 48.6 <= r.minPrice < r.maxPrice <= 202.8
    ensures NearCent(DeterministicPrice(ToUpper(size), zip, indoor) * jitter, r.suggestedPrice)
  {
    var b := JitteredBand(DeterministicPrice(ToUpper(size), zip, indoor), jitter);
    Suggestion(b.suggested, b.low, b.high, Explanation(ToUpper(size), zip, indoor))
  }

  /** The indoor premium adds exactly $15 before the variation. */
  lemma IndoorAddsPremium(size: string, zip: string)
    ensures DeterministicPrice(size, zip, Some(true)) == DeterministicPrice(size, zip, Some(false)) + IndoorPremium
    ensures DeterministicPrice(size, zip, None) == DeterministicPrice(size, zip, Some(false))
  {
  }

  /** For the same space, a high-demand zip prices above a neutral one, which prices above a low-demand one. */
  lemma DemandOrdersPrices(size: string, high: string, neutral: string, low: string, indoor: Option<bool>)
    requires high in HighDemandZips && low in LowDemandZips
    requires neutral !in HighDemandZips && neutral !in LowDemandZips
    ensures DeterministicPrice(size, high, indoor) > DeterministicPrice(size, neutral, indoor)
    ensures DeterministicPrice(size, neutral, indoor) > DeterministicPrice(size, low, indoor)
  {
  }

  /** POST /pricing/suggest: the request's size is one of the three buckets; indoor defaults to false. */
  datatype PriceSuggestionRequest = PriceSuggestionRequest(
    size: StorageSize, zipCode: string, indoor: Option<bool>, title: Option<string>, description: Option<string>)

  function PriceSuggestionRequestWithDefaults(size: StorageSize, zipCode: string): PriceSuggestionRequest {
    PriceSuggestionRequest(size, zipCode, Some(false), None, None)
  }

  function PricingSuggest(req: PriceSuggestionRequest, jitter: real): (r: Suggestion)
    requires 0.95 <= jitter <= 1.05
    ensures r == SuggestPrice(req.size.Wire(), req.zipCode, req.indoor, jitter)
    ensures r.explanation == Explanation(req.size.Wire(), req.zipCode, req.indoor)
    ensures NearCent(DeterministicPrice(req.size.Wire(), req.zipCode, req.indoor) * jitter, r.suggestedPrice)
    ensures var base := BasePrice(req.size.Wire());
            (req.size == S ==> base == 60.0) && (req.size == M ==> base == 100.0) && (req.size == L ==> base == 140.0)
  {
    assert ToUpper(req.size.Wire()) == req.size.Wire();
    SuggestPrice(req.size.Wire(), req.zipCode, req.indoor, jitter)
  }
}
