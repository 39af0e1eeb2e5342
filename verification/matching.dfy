/** The listing recommender: a size estimate from the free-text query, a target bucket, additive scores, the top five. */
module Matching {
  import opened Wrappers
  import opened Schemas
  import opened Money
  import opened Text
  import opened Seqs
  import opened Ranking

  datatype Hint = Hint(word: string, sqft: real)

  /** Keyword size hints, in declaration order. */
  const Hints: seq<Hint> := [
    Hint("small", 40.0), Hint("medium", 80.0), Hint("large", 200.0), Hint("box", 30.0),
    Hint("boxes", 60.0), Hint("bike", 50.0), Hint("bikes", 70.0), Hint("furniture", 180.0),
    Hint("couch", 150.0), Hint("sofa", 150.0), Hint("bed", 120.0)]

  const DefaultSqft: real := 80.0
  const MaxSqft: int := 200
  const SqftPerItem: int := 8
  const TopCount: nat := 5

  lemma HintsAtMostMax()
    ensures forall k :: 0 <= k < |Hints| ==> 0.0 <= Hints[k].sqft <= MaxSqft as real
  {
  }

  /** The hint `h` applies to the lower-cased query `q`. */
  predicate Matches(q: string, h: Hint) {
    Contains(q, h.word)
  }

  /** The running maximum over the hints that occur in `q`, starting from `acc`. */
  function MaxMatchedHint(q: string, hints: seq<Hint>, acc: real): (r: real)
    ensures r >= acc
    ensures forall k :: 0 <= k < |hints| && Matches(q, hints[k]) ==> r >= hints[k].sqft
    ensures r == acc || exists k :: 0 <= k < |hints| && Matches(q, hints[k]) && r == hints[k].sqft
  {
    if |hints| == 0 then acc
    else
      var acc' := if Matches(q, hints[0]) then MaxReal(acc, hints[0].sqft) else acc;
      var r := MaxMatchedHint(q, hints[1..], acc');
      assert forall k :: 1 <= k < |hints| ==> hints[k] == hints[1..][k - 1];
      r
  }

  /** The numeric estimate: about 8 sq ft per item for the largest number in the query, capped at 200. */
  function ItemsSqft(runs: seq<nat>): (e: real)
    requires |runs| > 0
    ensures e == MinReal(MaxSqft as real, (MaxOf(runs) * SqftPerItem) as real)
    ensures e <= MaxSqft as real
    ensures forall k :: 0 <= k < |runs| ==> e >= (if runs[k] * SqftPerItem < MaxSqft then runs[k] * SqftPerItem else MaxSqft) as real
  {
    var count := MaxOf(runs);
    (if MaxSqft <= count * SqftPerItem then MaxSqft else count * SqftPerItem) as real
  }

  /**
   * The square footage a query asks for: the largest of 80, every hint whose keyword
   * occurs in the lower-cased query, and the numeric estimate when the query has digits.
   */
  function EstimateSqft(query: string): (e: real)
    ensures DefaultSqft <= e <= MaxSqft as real
    ensures forall k :: 0 <= k < |Hints| && Matches(ToLower(query), Hints[k]) ==> e >= Hints[k].sqft
    ensures |DigitRuns(ToLower(query))| > 0 ==> e >= ItemsSqft(DigitRuns(ToLower(query)))
    ensures || e == DefaultSqft
            || (exists k :: 0 <= k < |Hints| && Matches(ToLower(query), Hints[k]) && e == Hints[k].sqft)
            || (|DigitRuns(ToLower(query))| > 0 && e == ItemsSqft(DigitRuns(ToLower(query))))
  {
    var q := ToLower(query);
    var estimate := MaxMatchedHint(q, Hints, DefaultSqft);
    HintsAtMostMax();
    var runs := DigitRuns(q);
    if |runs| > 0 then MaxReal(estimate, ItemsSqft(runs)) else estimate
  }

  /** The size bucket of a square footage. */
  function BucketFromSqft(sqft: real): (b: StorageSize)
    ensures b == S <==> sqft <= 60.0
    ensures b == M <==> 60.0 < sqft <= 150.0
    ensures b == L <==> 150.0 < sqft
  {
    if sqft <= 60.0 then S
    else if sqft <= 150.0 then M
    else L
  }

  /** A larger area never lands in a smaller bucket. */
  lemma BucketMonotone(a: real, b: real)
    requires a <= b
    ensures BucketFromSqft(a).Ordinal() <= BucketFromSqft(b).Ordinal()
  {
  }

  /** Since every estimate is at least 80 sq ft, a query never targets the small bucket. */
  lemma TargetNeverSmall(query: string)
    ensures BucketFromSqft(EstimateSqft(query)) != S
  {
  }

  /** The hint keywords in declaration order. */
  function HintWords(): (words: seq<string>)
    ensures |words| == |Hints|
    ensures forall j :: 0 <= j < |Hints| ==> words[j] == Hints[j].word
  {
    seq(|Hints|, j requires 0 <= j < |Hints| => Hints[j].word)
  }

  /** No keyword is declared twice. */
  lemma HintWordsDistinct()
    ensures Distinct(HintWords())
  {
    var w := HintWords();
    assert w == ["small", "medium", "large", "box", "boxes", "bike", "bikes", "furniture", "couch", "sofa", "bed"];
  }

  /** The words among `words` that occur in `text`, in their order. */
  function Found(words: seq<string>, text: string): seq<string> {
    Filter(words, (w: string) => Contains(text, w))
  }

  /**
   * The hint keywords that occur in the lower-cased query: the declared keyword list
   * filtered in order, so each keyword at most once.
   */
  function Keywords(query: string): (kws: seq<string>)
    ensures kws == Found(HintWords(), ToLower(query))
    ensures Distinct(kws)
    ensures forall k :: 0 <= k < |kws| ==>
              Contains(ToLower(query), kws[k]) && exists j :: 0 <= j < |Hints| && Hints[j].word == kws[k]
    ensures forall j :: 0 <= j < |Hints| && Matches(ToLower(query), Hints[j]) ==> Hints[j].word in kws
  {
    var q := ToLower(query);
    var words := HintWords();
    var kws := Found(words, q);
    HintWordsDistinct();
    FilterDistinct(words, (w: string) => Contains(q, w));
    assert forall j :: 0 <= j < |Hints| && Matches(q, Hints[j]) ==> words[j] in kws;
    kws
  }

  /** Size points: 2 for the target bucket, 1 for a neighbouring bucket, else 0. */
  function SizePoints(size: Option<StorageSize>, target: StorageSize): (p: real)
    ensures p == 2.0 <==> size == Some(target)
    ensures p == 1.0 <==> size.Some? && (size.value.Ordinal() - target.Ordinal() == 1 || target.Ordinal() - size.value.Ordinal() == 1)
    ensures p == 0.0 <==> size.None? || (size.value.Ordinal() - target.Ordinal() == 2 || target.Ordinal() - size.value.Ordinal() == 2)
  {
    if size == Some(target) then 2.0
    else if size.Some? && (size.value, target) in {(S, M), (M, S), (M, L), (L, M)} then 1.0
    else 0.0
  }

  /** Zip points: 2 when a non-empty target zip equals the listing's zip. */
  function ZipPoints(listingZip: string, targetZip: Option<string>): (p: real)
    ensures p == 2.0 <==> targetZip.Some? && targetZip.value != "" && listingZip == targetZip.value
    ensures p == 0.0 || p == 2.0
  {
    if targetZip.Some? && targetZip.value != "" && listingZip == targetZip.value then 2.0 else 0.0
  }

  /** Half a point for each keyword found in the listing text. */
  function KeywordPoints(keywords: seq<string>, text: string): (p: real)
    ensures p == 0.5 * |Found(keywords, text)| as real
    ensures 0.0 <= p <= 0.5 * |keywords| as real
    ensures p == 0.0 <==> forall k :: 0 <= k < |keywords| ==> !Contains(text, keywords[k])
    ensures p == 0.5 * |keywords| as real <==> forall k :: 0 <= k < |keywords| ==> Contains(text, keywords[k])
  {
    if |keywords| == 0 then 0.0
    else
      var rest := KeywordPoints(keywords[1..], text);
      assert forall k :: 1 <= k < |keywords| ==> keywords[k] == keywords[1..][k - 1];
      (if Contains(text, keywords[0]) then 0.5 else 0.0) + rest
  }

  /** Price points: 50 divided by a positive monthly price, else 0. */
  function PricePoints(price: real): (p: real)
    ensures p >= 0.0
    ensures p > 0.0 <==> price > 0.0
    ensures price > 0.0 ==> p * price == 50.0
  {
    if price > 0.0 then 50.0 / price else 0.0
  }

  /** A cheaper listing earns at least as many price points. */
  lemma CheaperEarnsMore(p1: real, p2: real)
    requires 0.0 < p1 <= p2
    ensures PricePoints(p1) >= PricePoints(p2)
  {
    var a, b := PricePoints(p1), PricePoints(p2);
    assert a * p1 == 50.0 && b * p2 == 50.0;
    assert b * p1 <= b * p2 by {
      assert b * (p2 - p1) >= 0.0;
    }
  }

  /** The lower-cased description and title the keywords are searched in. */
  function ListingText(l: Listing): string {
    ToLower(l.description) + " " + ToLower(l.title)
  }

  /** The additive score of one listing. */
  function ScoreListing(l: Listing, target: StorageSize, targetZip: Option<string>, keywords: seq<string>): (score: real)
    ensures score == (if l.size == target then 2.0
                      else if l.size.Ordinal() - target.Ordinal() == 1 || target.Ordinal() - l.size.Ordinal() == 1 then 1.0
                      else 0.0)
                     + (if targetZip.Some? && targetZip.value != "" && l.zipCode == targetZip.value then 2.0 else 0.0)
                     + 0.5 * |Found(keywords, ListingText(l))| as real
                     + (if l.pricePerMonth > 0.0 then 50.0 / l.pricePerMonth else 0.0)
    ensures score >= 0.0
    ensures score <= 4.0 + 0.5 * |keywords| as real + PricePoints(l.pricePerMonth)
    ensures score >= PricePoints(l.pricePerMonth)
    ensures l.size == target && ZipPoints(l.zipCode, targetZip) == 2.0 ==> score >= 4.0
  {
    SizePoints(Some(l.size), target) + ZipPoints(l.zipCode, targetZip)
    + KeywordPoints(keywords, ListingText(l)) + PricePoints(l.pricePerMonth)
  }

  /** Two listings that differ only in price: the cheaper one scores at least as high. */
  lemma CheaperListingScoresHigher(l: Listing, cheaper: real, target: StorageSize, targetZip: Option<string>, keywords: seq<string>)
    requires 0.0 < cheaper <= l.pricePerMonth
    ensures ScoreListing(l.(pricePerMonth := cheaper), target, targetZip, keywords) >= ScoreListing(l, target, targetZip, keywords)
  {
    CheaperEarnsMore(cheaper, l.pricePerMonth);
  }

  datatype MatchResult = MatchResult(
    listings: seq<Listing>, order: seq<nat>, bucket: StorageSize, keywords: seq<string>, explanation: string)

  /** Entries scoring every listing, remembering its position. */
  function ScoreEntries(listings: seq<Listing>, bucket: StorageSize, zip: Option<string>, keywords: seq<string>): (es: seq<Entry>)
    ensures |es| == |listings|
    ensures forall i :: 0 <= i < |es| ==> es[i] == Entry(0, ScoreListing(listings[i], bucket, zip, keywords), i)
  {
    seq(|listings|, i requires 0 <= i < |listings| => Entry(0, ScoreListing(listings[i], bucket, zip, keywords), i))
  }

  function MatchExplanation(bucket: StorageSize, zip: Option<string>, keywords: seq<string>): string {
    "Recommended " + SizePhrase(bucket) + NearPhrase(zip) + " that fit your needs for " + ItemsPhrase(keywords) + "."
  }

  function SizePhrase(bucket: StorageSize): string {
    bucket.Wire() + "-size spaces"
  }

  /** " near <zip>" when a non-empty ZIP code is given (Python's truthiness), else nothing. */
  function NearPhrase(zip: Option<string>): string {
    if zip.Some? && zip.value != "" then " near " + zip.value else ""
  }

  function ItemsPhrase(keywords: seq<string>): string {
    if |keywords| > 0 then JoinWith(keywords, ", ") else "your described items"
  }

  /**
   * The positions of the listings to return: scores sorted highest first, stable on
   * ties, cut after the first five.
   */
  function TopOrder(listings: seq<Listing>, bucket: StorageSize, zip: Option<string>, keywords: seq<string>): (order: seq<nat>)
    ensures |order| == if |listings| < TopCount then |listings| else TopCount
    ensures forall k :: 0 <= k < |order| ==> order[k] < |listings|
    ensures forall i, j :: 0 <= i < j < |order| ==> order[i] != order[j]
    ensures var es := ScoreEntries(listings, bucket, zip, keywords);
            forall i, j :: 0 <= i < j < |order| ==>
              es[order[i]].score > es[order[j]].score
              || (es[order[i]].score == es[order[j]].score && order[i] < order[j])
    ensures var es := ScoreEntries(listings, bucket, zip, keywords);
            forall j, k :: 0 <= j < |listings| && j !in order && 0 <= k < |order| ==>
              es[order[k]].score > es[j].score || (es[order[k]].score == es[j].score && order[k] < j)
  {
    TopIndices(ScoreEntries(listings, bucket, zip, keywords), TopCount)
  }

  /**
   * POST /matching: the target bucket, the keywords, and the top five listings in
   * score order; `order` gives their positions in the input.
   */
  function MatchListings(listings: seq<Listing>, query: string, zip: Option<string>): (r: MatchResult)
    ensures r.bucket == BucketFromSqft(EstimateSqft(query)) && r.bucket != S
    ensures r.keywords == Keywords(query)
    ensures |r.listings| == |r.order| <= TopCount
    ensures r.order == TopOrder(listings, r.bucket, zip, r.keywords)
    ensures forall k :: 0 <= k < |r.order| ==> r.listings[k] == listings[r.order[k]]
  {
    var bucket := BucketFromSqft(EstimateSqft(query));
    TargetNeverSmall(query);
    var keywords := Keywords(query);
    var order := TopOrder(listings, bucket, zip, keywords);
    MatchResult(Permute(listings, order), order, bucket, keywords, MatchExplanation(bucket, zip, keywords))
  }

  /** The explanation names the target bucket, the ZIP code when one is given, and the keywords found. */
  lemma MatchListingsExplained(listings: seq<Listing>, query: string, zip: Option<string>)
    ensures var r := MatchListings(listings, query, zip);
            r.explanation == MatchExplanation(r.bucket, zip, r.keywords)
  {
  }

  /**
   * The explanation names the bucket; the ZIP code when a non-empty one is given;
   * the keywords joined by commas, or "your described items" when there are none.
   */
  lemma MatchExplanationMentions(bucket: StorageSize, zip: Option<string>, keywords: seq<string>)
    ensures Contains(MatchExplanation(bucket, zip, keywords), bucket.Wire() + "-size spaces")
    ensures zip.Some? && zip.value != "" ==> Contains(MatchExplanation(bucket, zip, keywords), " near " + zip.value)
    ensures |keywords| > 0 ==> Contains(MatchExplanation(bucket, zip, keywords), JoinWith(keywords, ", "))
    ensures |keywords| == 0 ==> Contains(MatchExplanation(bucket, zip, keywords), "your described items")
  {
    var size, near, items := SizePhrase(bucket), NearPhrase(zip), ItemsPhrase(keywords);
    var mid := " that fit your needs for ";
    ContainsSelf(size);
    ContainsGrow(size, "Recommended ", size);
    ContainsGrow("Recommended " + size, near, size);
    ContainsGrow("Recommended " + size + near, mid, size);
    ContainsGrow("Recommended " + size + near + mid, items, size);
    ContainsGrow("Recommended " + size + near + mid + items, ".", size);
    ContainsSelf(near);
    ContainsGrow(near, "Recommended " + size, near);
    ContainsGrow("Recommended " + size + near, mid, near);
    ContainsGrow("Recommended " + size + near + mid, items, near);
    ContainsGrow("Recommended " + size + near + mid + items, ".", near);
    ContainsSelf(items);
    ContainsGrow(items, "Recommended " + size + near + mid, items);
    ContainsGrow("Recommended " + size + near + mid + items, ".", items);
  }

  /** Returned listings come highest score first, input order breaking ties. */
  lemma MatchIsOrderedByScore(listings: seq<Listing>, query: string, zip: Option<string>, i: nat, j: nat)
    requires i < j < |listings| && j < TopCount
    ensures var r := MatchListings(listings, query, zip);
            j < |r.listings| &&
            var si := ScoreListing(r.listings[i], r.bucket, zip, r.keywords);
            var sj := ScoreListing(r.listings[j], r.bucket, zip, r.keywords);
            (si > sj || (si == sj && r.order[i] < r.order[j]))
  {
    var r := MatchListings(listings, query, zip);
    var es := ScoreEntries(listings, r.bucket, zip, r.keywords);
    assert es[r.order[i]].score == ScoreListing(r.listings[i], r.bucket, zip, r.keywords);
    assert es[r.order[j]].score == ScoreListing(r.listings[j], r.bucket, zip, r.keywords);
  }

  /**
   * No listing left out of the recommendation scores above one returned, and one left
   * out with an equal score comes later in the input.
   */
  lemma MatchIsTopFive(listings: seq<Listing>, query: string, zip: Option<string>, j: nat, k: nat)
    requires j < |listings| && k < |listings| && k < TopCount
    ensures var r := MatchListings(listings, query, zip);
            var sk := ScoreListing(r.listings[k], r.bucket, zip, r.keywords);
            var sj := ScoreListing(listings[j], r.bucket, zip, r.keywords);
            j !in r.order ==> sk > sj || (sk == sj && r.order[k] < j)
  {
    var r := MatchListings(listings, query, zip);
    var es := ScoreEntries(listings, r.bucket, zip, r.keywords);
    assert es[r.order[k]].score == ScoreListing(r.listings[k], r.bucket, zip, r.keywords);
    assert es[j].score == ScoreListing(listings[j], r.bucket, zip, r.keywords);
  }
}
