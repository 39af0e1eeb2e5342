/** Listing creation, search and lookup. */
module Listings {
  import opened Wrappers
  import opened Seqs
  import opened Schemas
  import opened Ranking

  /** The placeholder rating a listing gets when none (or zero) is given. */
  const DefaultRating: real := 4.7

  /** At most this many listings are read for one search. */
  const PageLimit: nat := 100

  /** The position of the first listing with id `id`. */
  function FindListing(listings: seq<Listing>, id: string): Option<nat> {
    FindFirst(listings, (l: Listing) => l.id == id)
  }

  datatype ListingCreated = ListingCreated(listings: seq<Listing>, listing: Listing)

  /**
   * POST /listings: only hosts may list a space (403, nothing stored). The new document
   * carries the payload, the caller as host, and `payload.rating or 4.7` as its rating.
   */
  function CreateListing(
    listings: seq<Listing>, payload: ListingCreate, user: User, newId: string, now: int): (r: Result<ListingCreated>)
    ensures r.Err? <==> !user.isHost
    ensures r.Err? ==> r.error == ApiError(403, "Only hosts can create listings")
    ensures r.Ok? ==> r.value.listings == listings + [r.value.listing]
    ensures r.Ok? ==>
              var l := r.value.listing;
              && l.id == newId && l.hostId == user.id && l.createdAt == now
              && l.title == payload.title && l.description == payload.description
              && l.size == payload.size && l.pricePerMonth == payload.pricePerMonth
              && l.addressSummary == payload.addressSummary && l.zipCode == payload.zipCode
              && l.images == payload.images && l.availability == payload.availability
    ensures r.Ok? && payload.rating.Some? && payload.rating.value != 0.0 ==> r.value.listing.rating == payload.rating
    ensures r.Ok? && (payload.rating.None? || payload.rating.value == 0.0) ==> r.value.listing.rating == Some(DefaultRating)
  {
    if !user.isHost then
      Err(ApiError(403, "Only hosts can create listings"))
    else
      var rating := if payload.rating.Some? && payload.rating.value != 0.0 then payload.rating.value else DefaultRating;
      var doc := Listing(
        newId, user.id, payload.title, payload.description, payload.size, payload.pricePerMonth,
        payload.addressSummary, payload.zipCode, payload.images, payload.availability, Some(rating), now);
      Ok(ListingCreated(listings + [doc], doc))
  }

  /** A stored new listing always has a rating, and never a zero one. */
  lemma CreatedListingIsRated(listings: seq<Listing>, payload: ListingCreate, user: User, newId: string, now: int)
    requires user.isHost
    ensures var r := CreateListing(listings, payload, user, newId, now);
            r.Ok? && r.value.listing.rating.Some? && r.value.listing.rating.value != 0.0
  {
  }

  /** GET /listings query parameters. */
  datatype ListingQuery = ListingQuery(
    zipCode: Option<string>, priceMin: Option<real>, priceMax: Option<real>, size: Option<StorageSize>)

  /** `if zipCode:` — an empty zip code filters nothing. */
  predicate ZipGiven(q: ListingQuery) {
    q.zipCode.Some? && q.zipCode.value != ""
  }

  /** The query document the search sends to the store, as a predicate on listings. */
  predicate MatchesQuery(q: ListingQuery, l: Listing) {
    && (ZipGiven(q) ==> l.zipCode == q.zipCode.value)
    && (q.size.Some? ==> l.size == q.size.value)
    && (q.priceMin.Some? ==> q.priceMin.value <= l.pricePerMonth)
    && (q.priceMax.Some? ==> l.pricePerMonth <= q.priceMax.value)
  }

  /**
   * The listings the store returns for the query, before the cap: in store order, each
   * matching listing as often as it is stored, and nothing else.
   */
  function StoreMatches(listings: seq<Listing>, q: ListingQuery): (r: seq<Listing>)
    ensures IsSubsequence(r, listings)
    ensures forall x :: multiset(r)[x] == if MatchesQuery(q, x) then multiset(listings)[x] else 0
  {
    var r := Filter(listings, (l: Listing) => MatchesQuery(q, l));
    FilterIsSubsequence(listings, (l: Listing) => MatchesQuery(q, l));
    FilterMultiset(listings, (l: Listing) => MatchesQuery(q, l));
    r
  }

  /** `l.get("rating") or 0`: a missing rating sorts as zero. */
  function RatingKey(l: Listing): real {
    if l.rating.Some? then l.rating.value else 0.0
  }

  /**
   * `a`, found at position `i`, comes before `b`, found at position `j`, under the key
   * (0 if the zip matches else 1, -rating) of a stable sort.
   */
  predicate ListedBefore(a: Listing, i: nat, b: Listing, j: nat, zip: string) {
    || (a.zipCode == zip && b.zipCode != zip)
    || ((a.zipCode == zip) == (b.zipCode == zip)
        && (RatingKey(a) > RatingKey(b) || (RatingKey(a) == RatingKey(b) && i < j)))
  }

  function SortEntries(ls: seq<Listing>, zip: string): (es: seq<Entry>)
    ensures |es| == |ls|
    ensures forall i :: 0 <= i < |es| ==> es[i] == Entry(if ls[i].zipCode == zip then 0 else 1, RatingKey(ls[i]), i)
  {
    seq(|ls|, i requires 0 <= i < |ls| => Entry(if ls[i].zipCode == zip then 0 else 1, RatingKey(ls[i]), i))
  }

  /** The positions of `ls` in the order the zip-then-rating sort puts them. */
  function ListingOrder(ls: seq<Listing>, zip: string): (order: seq<nat>)
    ensures IsPermutationOf(order, |ls|)
    ensures forall i, j :: 0 <= i < j < |order| ==> ListedBefore(ls[order[i]], order[i], ls[order[j]], order[j], zip)
  {
    var es := SortEntries(ls, zip);
    var order := SortedIndices(es);
    forall i, j | 0 <= i < j < |order|
      ensures ListedBefore(ls[order[i]], order[i], ls[order[j]], order[j], zip)
    {
      assert NoLater(es[order[i]], es[order[j]]);
    }
    order
  }

  /**
   * `out` lists `page` in the order `order` gives, and listings with equal ratings
   * keep their relative order in `page`.
   */
  predicate StableByRating(page: seq<Listing>, order: seq<nat>, out: seq<Listing>)
    requires IsPermutationOf(order, |page|)
  {
    && |out| == |order|
    && (forall k :: 0 <= k < |out| ==> out[k] == page[order[k]])
    && (forall i, j :: 0 <= i < j < |out| && RatingKey(out[i]) == RatingKey(out[j]) ==> order[i] < order[j])
  }

  /** GET /listings: invalid when a price bound is negative. */
  predicate ValidQuery(q: ListingQuery) {
    (q.priceMin.Some? ==> q.priceMin.value >= 0.0) && (q.priceMax.Some? ==> q.priceMax.value >= 0.0)
  }

  /**
   * GET /listings: the first 100 stored listings the query matches, sorted by zip match
   * and then by rating (highest first) when a zip code is given, in store order otherwise.
   */
  function ListListings(listings: seq<Listing>, q: ListingQuery): (r: Result<seq<Listing>>)
    ensures r.Err? <==> !ValidQuery(q)
    ensures r.Err? ==> r.error.status == 422
    ensures r.Ok? ==> multiset(r.value) == multiset(Take(StoreMatches(listings, q), PageLimit))
    ensures r.Ok? ==> |r.value| <= PageLimit
    ensures r.Ok? ==> forall k :: 0 <= k < |r.value| ==> r.value[k] in listings && MatchesQuery(q, r.value[k])
    ensures r.Ok? && !ZipGiven(q) ==> r.value == Take(StoreMatches(listings, q), PageLimit)
    ensures r.Ok? && ZipGiven(q) ==>
              forall i, j :: 0 <= i < j < |r.value| ==> RatingKey(r.value[i]) >= RatingKey(r.value[j])
    ensures r.Ok? && ZipGiven(q) ==>
              var page := Take(StoreMatches(listings, q), PageLimit);
              exists order :: IsPermutationOf(order, |page|) && StableByRating(page, order, r.value)
  {
    if !ValidQuery(q) then
      Err(ApiError(422, "Input should be greater than or equal to 0"))
    else
      var page := Take(StoreMatches(listings, q), PageLimit);
      if ZipGiven(q) then
        var order := ListingOrder(page, q.zipCode.value);
        PermuteMultiset(page, order);
        var sorted := Permute(page, order);
        PageContents(listings, q, page, sorted);
        assert StableByRating(page, order, sorted);
        Ok(sorted)
      else
        PageContents(listings, q, page, page);
        Ok(page)
  }

  /** A reordering of the page holds stored listings that match the query. */
  lemma PageContents(listings: seq<Listing>, q: ListingQuery, page: seq<Listing>, out: seq<Listing>)
    requires page == Take(StoreMatches(listings, q), PageLimit)
    requires multiset(out) == multiset(page)
    ensures |out| <= PageLimit
    ensures forall k :: 0 <= k < |out| ==> out[k] in listings && MatchesQuery(q, out[k])
    ensures ZipGiven(q) ==> forall k :: 0 <= k < |out| ==> out[k].zipCode == q.zipCode.value
  {
    assert |out| == |multiset(out)| == |multiset(page)| == |page|;
    forall k | 0 <= k < |out| ensures out[k] in listings && MatchesQuery(q, out[k]) {
      assert out[k] in multiset(page);
      assert out[k] in StoreMatches(listings, q);
    }
  }

  /** GET /listings/{id}: the first listing with that id, or 404. */
  function GetListing(listings: seq<Listing>, id: string): (r: Result<Listing>)
    ensures r.Err? <==> forall k :: 0 <= k < |listings| ==> listings[k].id != id
    ensures r.Err? ==> r.error == ApiError(404, "Listing not found")
    ensures r.Ok? ==> r.value.id == id && r.value in listings
    ensures r.Ok? ==> exists k :: 0 <= k < |listings| && listings[k] == r.value
                        && forall m :: 0 <= m < k ==> listings[m].id != id
  {
    match FindListing(listings, id)
    case None => Err(ApiError(404, "Listing not found"))
    case Some(i) => Ok(listings[i])
  }
}
