/** Reservation quoting, creation, host approval and the "my reservations" listing. */
module Reservations {
  import opened Wrappers
  import opened Schemas
  import opened Money
  import opened Seqs
  import opened Listings

  /** The two fee settings read from the environment. */
  datatype Settings = Settings(serviceFeeRate: real, refundableDeposit: real)

  /** The configured defaults: a 10% service fee and a $50 refundable deposit. */
  const DefaultSettings: Settings := Settings(0.10, 50.0)

  const HoldSeconds: int := 24 * 60 * 60

  datatype Costs = Costs(total: real, base: real, serviceFee: real, deposit: real)

  /** Whole days between two dates, with a zero difference counted as one day. */
  function CostDays(start: int, end: int): (d: int)
    ensures d != 0
    ensures start < end ==> d == end - start >= 1
  {
    if end - start == 0 then 1 else end - start
  }

  /** The fee, deposit and total that go with an (unrounded) base price. */
  function CostsFromBase(settings: Settings, base: real): (c: Costs)
    ensures c.base == base && c.deposit == settings.refundableDeposit
    ensures c.serviceFee == Round2(base * settings.serviceFeeRate)
    ensures c.total == Round2(base + c.serviceFee + c.deposit)
  {
    var serviceFee := Round2(base * settings.serviceFeeRate);
    Costs(Round2(base + serviceFee + settings.refundableDeposit), base, serviceFee, settings.refundableDeposit)
  }

  /**
   * The fee formula: the monthly price prorated over a 30-day month, a service fee
   * rounded to cents, a flat deposit, and the total rounded to cents.
   */
  function CalculateCosts(settings: Settings, pricePerMonth: real, start: int, end: int): (c: Costs)
    ensures c.base * 30.0 == pricePerMonth * CostDays(start, end) as real
    ensures c == CostsFromBase(settings, c.base)
  {
    CostsFromBase(settings, pricePerMonth * CostDays(start, end) as real / 30.0)
  }

  /** A longer stay never lowers the (unrounded) base price. */
  lemma BaseNonDecreasingInDays(settings: Settings, price: real, start: int, end1: int, end2: int)
    requires price >= 0.0
    requires start < end1 <= end2
    ensures CalculateCosts(settings, price, start, end1).base <= CalculateCosts(settings, price, start, end2).base
  {
    var c1, c2 := CalculateCosts(settings, price, start, end1), CalculateCosts(settings, price, start, end2);
    var d1, d2 := CostDays(start, end1) as real, CostDays(start, end2) as real;
    assert c1.base * 30.0 == price * d1;
    assert c2.base * 30.0 == price * d2;
    ScaleMonotone(price, d1, d2);
    UnscaleMonotone(c1.base, c2.base);
  }

  /** With a non-negative price and fee rate, the total covers the (rounded) deposit. */
  lemma TotalCoversDeposit(settings: Settings, price: real, start: int, end: int)
    requires price >= 0.0 && settings.serviceFeeRate >= 0.0
    requires start < end
    ensures CalculateCosts(settings, price, start, end).total >= Round2(settings.refundableDeposit)
  {
    var c := CalculateCosts(settings, price, start, end);
    var days := (end - start) as real;
    assert c.base >= 0.0 by {
      assert c.base * 30.0 == price * days;
      assert price * days >= 0.0;
    }
    assert c.base * settings.serviceFeeRate >= 0.0;
    Round2NonNegative(c.base * settings.serviceFeeRate);
    Round2Monotone(settings.refundableDeposit, c.base + c.serviceFee + c.deposit);
  }

  /** Under the default settings the deposit is $50, the fee is 10% and the total is at least $50. */
  lemma DefaultCosts(price: real, start: int, end: int)
    requires price >= 0.0 && start < end
    ensures CalculateCosts(DefaultSettings, price, start, end).deposit == 50.0
    ensures CalculateCosts(DefaultSettings, price, start, end).serviceFee
            == Round2(CalculateCosts(DefaultSettings, price, start, end).base * 0.10)
    ensures CalculateCosts(DefaultSettings, price, start, end).total >= 50.0
  {
    TotalCoversDeposit(DefaultSettings, price, start, end);
    Round2Cents(5000);
  }

  datatype Created = Created(reservations: seq<Reservation>, reservation: ReservationPublic)

  function FindReservation(reservations: seq<Reservation>, id: string): Option<nat> {
    FindFirst(reservations, (r: Reservation) => r.id == id)
  }

  /**
   * POST /reservations: the listing must exist (404) and the end date must be after the
   * start date (400); the new reservation waits for the host, held for 24 hours.
   */
  function CreateReservation(
    settings: Settings, listings: seq<Listing>, reservations: seq<Reservation>,
    payload: ReservationCreate, user: User, newId: string, now: int): (r: Result<Created>)
    ensures r.Err? && r.error.status == 404 <==> forall k :: 0 <= k < |listings| ==> listings[k].id != payload.listingId
    ensures r.Err? && r.error.status == 400 <==>
              (exists k :: 0 <= k < |listings| && listings[k].id == payload.listingId)
              && payload.endDate <= payload.startDate
    ensures r.Ok? ==> payload.startDate < payload.endDate && |r.value.reservations| == |reservations| + 1
    ensures r.Ok? ==> r.value.reservations[..|reservations|] == reservations
    ensures r.Ok? ==>
              var doc := r.value.reservations[|reservations|];
              var i := FindListing(listings, payload.listingId).value;
              var c := CalculateCosts(settings, listings[i].pricePerMonth, payload.startDate, payload.endDate);
              && doc.id == newId && doc.listingId == payload.listingId && doc.renterId == user.id
              && doc.startDate == payload.startDate && doc.endDate == payload.endDate
              && doc.status == PendingHostConfirmation
              && doc.createdAt == now && doc.holdExpiresAt == now + 86400
              && doc.basePrice * 30.0 == listings[i].pricePerMonth * (payload.endDate - payload.startDate) as real
              && doc.basePrice == c.base && doc.serviceFee == c.serviceFee
              && doc.deposit == c.deposit && doc.totalPrice == c.total
              && r.value.reservation == ToReservationPublic(doc)
  {
    match FindListing(listings, payload.listingId)
    case None => Err(ApiError(404, "Listing not found"))
    case Some(i) =>
      if payload.endDate <= payload.startDate then
        Err(ApiError(400, "End date must be after start date"))
      else
        var c := CalculateCosts(settings, listings[i].pricePerMonth, payload.startDate, payload.endDate);
        var doc := Reservation(
          newId, payload.listingId, user.id, payload.startDate, payload.endDate,
          PendingHostConfirmation, c.base, c.serviceFee, c.deposit, c.total,
          now + HoldSeconds, now, "mocked-success");
        Ok(Created(reservations + [doc], ToReservationPublic(doc)))
  }

  datatype Updated = Updated(reservations: seq<Reservation>, reservation: ReservationPublic)

  /** The first listing with id `listingId` exists and is hosted by `userId`. */
  predicate HostedBy(listings: seq<Listing>, listingId: string, userId: string) {
    match FindListing(listings, listingId)
    case None => false
    case Some(j) => listings[j].hostId == userId
  }

  /** The shared body of approve and decline: only the listing's host may set the status. */
  function SetStatusAsHost(
    reservations: seq<Reservation>, listings: seq<Listing>, id: string, user: User,
    status: ReservationStatus): (r: Result<Updated>)
    ensures r.Err? && r.error.status == 404 <==> forall k :: 0 <= k < |reservations| ==> reservations[k].id != id
    ensures r.Err? && r.error.status == 403 <==>
              FindReservation(reservations, id).Some?
              && !HostedBy(listings, reservations[FindReservation(reservations, id).value].listingId, user.id)
    ensures r.Ok? ==>
              var i := FindReservation(reservations, id).value;
              && |r.value.reservations| == |reservations|
              && r.value.reservations[i] == reservations[i].(status := status)
              && (forall k :: 0 <= k < |reservations| && k != i ==> r.value.reservations[k] == reservations[k])
              && r.value.reservation == ToReservationPublic(reservations[i].(status := status))
  {
    match FindReservation(reservations, id)
    case None => Err(ApiError(404, "Reservation not found"))
    case Some(i) =>
      if !HostedBy(listings, reservations[i].listingId, user.id) then
        Err(ApiError(403, "Not authorized for this listing"))
      else
        var updated := reservations[i].(status := status);
        Ok(Updated(reservations[i := updated], ToReservationPublic(updated)))
  }

  /** POST /reservations/{id}/approve: the host confirms, whatever the prior status. */
  function ApproveReservation(reservations: seq<Reservation>, listings: seq<Listing>, id: string, user: User): (r: Result<Updated>)
    ensures r.Ok? <==> FindReservation(reservations, id).Some?
                       && HostedBy(listings, reservations[FindReservation(reservations, id).value].listingId, user.id)
    ensures r.Ok? ==> |r.value.reservations| == |reservations|
    ensures r.Ok? ==> r.value.reservation.status == Confirmed
                      && r.value.reservations[FindReservation(reservations, id).value].status == Confirmed
  {
    SetStatusAsHost(reservations, listings, id, user, Confirmed)
  }

  /** POST /reservations/{id}/decline: the host declines, whatever the prior status. */
  function DeclineReservation(reservations: seq<Reservation>, listings: seq<Listing>, id: string, user: User): (r: Result<Updated>)
    ensures r.Ok? <==> FindReservation(reservations, id).Some?
                       && HostedBy(listings, reservations[FindReservation(reservations, id).value].listingId, user.id)
    ensures r.Ok? ==> |r.value.reservations| == |reservations|
    ensures r.Ok? ==> r.value.reservation.status == Declined
                      && r.value.reservations[FindReservation(reservations, id).value].status == Declined
  {
    SetStatusAsHost(reservations, listings, id, user, Declined)
  }

  /** Some listing with id `listingId` is hosted by `userId`. */
  ghost predicate HostsListing(listings: seq<Listing>, userId: string, listingId: string) {
    exists j :: 0 <= j < |listings| && listings[j].id == listingId && listings[j].hostId == userId
  }

  /** The ids of the first 200 listings the user hosts (only looked up for hosts). */
  function HostListingIds(listings: seq<Listing>, user: User): (ids: seq<string>)
    ensures forall k :: 0 <= k < |ids| ==> HostsListing(listings, user.id, ids[k])
    ensures !user.isHost ==> ids == []
    ensures user.isHost && |listings| <= 200 ==>
              forall j :: 0 <= j < |listings| && listings[j].hostId == user.id ==> listings[j].id in ids
  {
    if !user.isHost then []
    else
      var hosted := Take(Filter(listings, (l: Listing) => l.hostId == user.id), 200);
      var ids := seq(|hosted|, k requires 0 <= k < |hosted| => hosted[k].id);
      assert forall k :: 0 <= k < |hosted| ==> hosted[k] in listings && hosted[k].hostId == user.id;
      assert forall j :: 0 <= j < |listings| && listings[j].hostId == user.id && |listings| <= 200
               ==> listings[j].id in ids by {
        forall j | 0 <= j < |listings| && listings[j].hostId == user.id && |listings| <= 200
          ensures listings[j].id in ids
        {
          assert listings[j] in hosted;
          var m :| 0 <= m < |hosted| && hosted[m] == listings[j];
          assert ids[m] == listings[j].id;
        }
      }
      ids
  }

  /** The user rented the reservation, or is a host and hosts its listing. */
  ghost predicate Sees(listings: seq<Listing>, user: User, x: Reservation) {
    x.renterId == user.id || (user.isHost && HostsListing(listings, user.id, x.listingId))
  }

  /**
   * The reservations GET /reservations returns: those the user rented and, for a host,
   * those on listings they host; at most 200, in store order.
   */
  function VisibleReservations(reservations: seq<Reservation>, listings: seq<Listing>, user: User): (r: seq<Reservation>)
    ensures |r| <= 200
    ensures forall k :: 0 <= k < |r| ==>
              r[k] in reservations
              && (r[k].renterId == user.id || (user.isHost && HostsListing(listings, user.id, r[k].listingId)))
    ensures |reservations| <= 200 && |listings| <= 200 ==>
              forall k :: 0 <= k < |reservations|
                && (reservations[k].renterId == user.id
                    || (user.isHost && HostsListing(listings, user.id, reservations[k].listingId)))
                ==> reservations[k] in r
    ensures IsSubsequence(r, reservations)
    ensures multiset(r) <= multiset(reservations)
  {
    var ids := HostListingIds(listings, user);
    var visible := Filter(reservations, (x: Reservation) => x.renterId == user.id || x.listingId in ids);
    assert forall k :: 0 <= k < |reservations| && |listings| <= 200 && user.isHost
             && HostsListing(listings, user.id, reservations[k].listingId)
             ==> reservations[k].listingId in ids;
    var r := Take(visible, 200);
    FilterIsSubsequence(reservations, (x: Reservation) => x.renterId == user.id || x.listingId in ids);
    assert r == visible[..|r|];
    PrefixIsSubsequence(visible, reservations, |r|);
    SubsequenceMultiset(r, reservations);
    r
  }

  /**
   * Under the caps, every stored reservation the user sees is returned exactly as often
   * as it is stored, and no other.
   */
  lemma VisibleReservationsExact(reservations: seq<Reservation>, listings: seq<Listing>, user: User)
    requires |reservations| <= 200 && |listings| <= 200
    ensures var r := VisibleReservations(reservations, listings, user);
            forall x :: multiset(r)[x] == if Sees(listings, user, x) then multiset(reservations)[x] else 0
  {
    var ids := HostListingIds(listings, user);
    var p := (x: Reservation) => x.renterId == user.id || x.listingId in ids;
    var visible := Filter(reservations, p);
    assert VisibleReservations(reservations, listings, user) == visible;
    FilterMultiset(reservations, p);
    forall x | x in reservations ensures p(x) <==> Sees(listings, user, x) {
      IdsAreHosted(listings, user, ids, x.listingId);
    }
  }

  /** Under the cap, a listing id is among the host's ids exactly when the user is a host hosting it. */
  lemma IdsAreHosted(listings: seq<Listing>, user: User, ids: seq<string>, id: string)
    requires |listings| <= 200 && ids == HostListingIds(listings, user)
    ensures id in ids <==> user.isHost && HostsListing(listings, user.id, id)
  {
    if user.isHost && HostsListing(listings, user.id, id) {
      var j :| 0 <= j < |listings| && listings[j].id == id && listings[j].hostId == user.id;
    }
    if id in ids {
      var k :| 0 <= k < |ids| && ids[k] == id;
    }
  }

  /** A renter who is not a host sees exactly their own reservations (up to the 200 cap). */
  lemma RenterSeesOwnReservations(reservations: seq<Reservation>, listings: seq<Listing>, user: User)
    requires !user.isHost
    ensures forall x :: x in VisibleReservations(reservations, listings, user) ==> x.renterId == user.id
    ensures |reservations| <= 200 ==>
              forall k :: 0 <= k < |reservations| && reservations[k].renterId == user.id
                ==> reservations[k] in VisibleReservations(reservations, listings, user)
  {
  }

  /** GET /reservations: the visible reservations in their public shape. */
  function ListMyReservations(reservations: seq<Reservation>, listings: seq<Listing>, user: User): (r: seq<ReservationPublic>)
    ensures |r| == |VisibleReservations(reservations, listings, user)| <= 200
    ensures forall k :: 0 <= k < |r| ==> r[k] == ToReservationPublic(VisibleReservations(reservations, listings, user)[k])
    ensures forall k :: 0 <= k < |r| ==>
              r[k].renterId == user.id || (user.isHost && HostsListing(listings, user.id, r[k].listingId))
  {
    var v := VisibleReservations(reservations, listings, user);
    seq(|v|, k requires 0 <= k < |v| => ToReservationPublic(v[k]))
  }
}
