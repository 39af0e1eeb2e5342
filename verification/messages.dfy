/** Messages between a renter and a host, scoped to one reservation. */
module Messages {
  import opened Wrappers
  import opened Seqs
  import opened Schemas
  import opened Ranking
  import opened Listings
  import opened Reservations

  /** At most this many messages are returned for one reservation. */
  const MessageLimit: nat := 500

  /** The caller rented the reservation, or is a host and hosts its listing. */
  predicate Participant(reservation: Reservation, listing: Listing, user: User) {
    reservation.renterId == user.id || (user.isHost && listing.hostId == user.id)
  }

  /**
   * The access check shared by sending and listing: the reservation must exist (404),
   * then its listing (404), then the caller must take part in it (403).
   */
  function AssertParticipant(
    reservations: seq<Reservation>, listings: seq<Listing>, reservationId: string, user: User): (r: Result<Reservation>)
    ensures r.Err? && r.error == ApiError(404, "Reservation not found")
            <==> forall k :: 0 <= k < |reservations| ==> reservations[k].id != reservationId
    ensures r.Err? && r.error == ApiError(404, "Listing not found")
            <==> FindReservation(reservations, reservationId).Some?
                 && FindListing(listings, reservations[FindReservation(reservations, reservationId).value].listingId).None?
    ensures r.Ok? <==>
              && FindReservation(reservations, reservationId).Some?
              && var res := reservations[FindReservation(reservations, reservationId).value];
              && FindListing(listings, res.listingId).Some?
              && Participant(res, listings[FindListing(listings, res.listingId).value], user)
    ensures r.Err? ==> r.error.status == 404 || r.error == ApiError(403, "Not part of this reservation")
    ensures r.Ok? ==> r.value.id == reservationId && r.value in reservations
  {
    match FindReservation(reservations, reservationId)
    case None => Err(ApiError(404, "Reservation not found"))
    case Some(i) =>
      match FindListing(listings, reservations[i].listingId)
      case None => Err(ApiError(404, "Listing not found"))
      case Some(j) =>
        if Participant(reservations[i], listings[j], user) then Ok(reservations[i])
        else Err(ApiError(403, "Not part of this reservation"))
  }

  /** The renter of a reservation always passes the check once the reservation and its listing exist. */
  lemma RenterIsParticipant(reservations: seq<Reservation>, listings: seq<Listing>, i: nat, user: User)
    requires i < |reservations| && reservations[i].renterId == user.id
    requires forall k :: 0 <= k < i ==> reservations[k].id != reservations[i].id
    requires exists j :: 0 <= j < |listings| && listings[j].id == reservations[i].listingId
    ensures AssertParticipant(reservations, listings, reservations[i].id, user) == Ok(reservations[i])
  {
    assert FindReservation(reservations, reservations[i].id) == Some(i);
  }

  datatype MessageSent = MessageSent(messages: seq<Message>, message: Message)

  /** POST /messages: a participant's message is appended to the store. */
  function SendMessage(
    messages: seq<Message>, reservations: seq<Reservation>, listings: seq<Listing>,
    payload: MessageCreate, user: User, newId: string, now: int): (r: Result<MessageSent>)
    ensures r.Ok? <==> AssertParticipant(reservations, listings, payload.reservationId, user).Ok?
    ensures r.Err? ==> r.error == AssertParticipant(reservations, listings, payload.reservationId, user).error
    ensures r.Ok? ==> r.value.messages == messages + [r.value.message]
    ensures r.Ok? ==> r.value.message == Message(newId, payload.reservationId, user.id, payload.content, now)
  {
    match AssertParticipant(reservations, listings, payload.reservationId, user)
    case Err(e) => Err(e)
    case Ok(_) =>
      var doc := Message(newId, payload.reservationId, user.id, payload.content, now);
      Ok(MessageSent(messages + [doc], doc))
  }

  /** The messages of one reservation, in store order. */
  function OfReservation(messages: seq<Message>, reservationId: string): (r: seq<Message>)
    ensures forall m :: m in r ==> m in messages && m.reservationId == reservationId
    ensures forall m :: m in messages && m.reservationId == reservationId ==> m in r
  {
    var r := Filter(messages, (m: Message) => m.reservationId == reservationId);
    forall m | m in r ensures m in messages && m.reservationId == reservationId {
      var k :| 0 <= k < |r| && r[k] == m;
    }
    forall m | m in messages && m.reservationId == reservationId ensures m in r {
      var k :| 0 <= k < |messages| && messages[k] == m;
    }
    r
  }

  function TimeEntries(ms: seq<Message>): (es: seq<Entry>)
    ensures |es| == |ms|
    ensures forall i :: 0 <= i < |es| ==> es[i] == Entry(ms[i].createdAt, 0.0, i)
  {
    seq(|ms|, i requires 0 <= i < |ms| => Entry(ms[i].createdAt, 0.0, i))
  }

  /**
   * `sort("createdAt")`: oldest first. The model breaks ties in store order; the contract
   * states only what the store promises, a reordering by time.
   */
  function ByTime(ms: seq<Message>): (r: seq<Message>)
    ensures multiset(r) == multiset(ms)
    ensures forall i, j :: 0 <= i < j < |r| ==> r[i].createdAt <= r[j].createdAt
  {
    var es := TimeEntries(ms);
    var order := SortedIndices(es);
    PermuteMultiset(ms, order);
    var r := Permute(ms, order);
    forall i, j | 0 <= i < j < |r| ensures r[i].createdAt <= r[j].createdAt {
      assert NoLater(es[order[i]], es[order[j]]);
    }
    r
  }

  /**
   * GET /messages/{reservationId}: for a participant, the reservation's 500 oldest
   * messages, oldest first.
   */
  function ListMessages(
    messages: seq<Message>, reservations: seq<Reservation>, listings: seq<Listing>,
    reservationId: string, user: User): (r: Result<seq<Message>>)
    ensures r.Ok? <==> AssertParticipant(reservations, listings, reservationId, user).Ok?
    ensures r.Err? ==> r.error == AssertParticipant(reservations, listings, reservationId, user).error
    ensures r.Ok? ==> |r.value| <= MessageLimit
    ensures r.Ok? ==> |r.value| == if |OfReservation(messages, reservationId)| < MessageLimit
                                   then |OfReservation(messages, reservationId)| else MessageLimit
    ensures r.Ok? ==> multiset(r.value) <= multiset(OfReservation(messages, reservationId))
    ensures r.Ok? ==> forall k :: 0 <= k < |r.value| ==> r.value[k] in messages && r.value[k].reservationId == reservationId
    ensures r.Ok? ==> forall i, j :: 0 <= i < j < |r.value| ==> r.value[i].createdAt <= r.value[j].createdAt
    ensures r.Ok? && |OfReservation(messages, reservationId)| <= MessageLimit ==>
              multiset(r.value) == multiset(OfReservation(messages, reservationId))
    ensures r.Ok? ==>
              forall m, k :: m in multiset(OfReservation(messages, reservationId)) - multiset(r.value) && 0 <= k < |r.value|
                ==> r.value[k].createdAt <= m.createdAt
  {
    match AssertParticipant(reservations, listings, reservationId, user)
    case Err(e) => Err(e)
    case Ok(_) =>
      var page := Take(ByTime(OfReservation(messages, reservationId)), MessageLimit);
      PageOfReservation(messages, reservationId, page);
      Ok(page)
  }

  /** The page ListMessages returns, stated against the reservation's stored messages. */
  lemma PageOfReservation(messages: seq<Message>, reservationId: string, page: seq<Message>)
    requires page == Take(ByTime(OfReservation(messages, reservationId)), MessageLimit)
    ensures |page| <= MessageLimit
    ensures |page| == if |OfReservation(messages, reservationId)| < MessageLimit
                      then |OfReservation(messages, reservationId)| else MessageLimit
    ensures multiset(page) <= multiset(OfReservation(messages, reservationId))
    ensures forall k :: 0 <= k < |page| ==> page[k] in messages && page[k].reservationId == reservationId
    ensures forall i, j :: 0 <= i < j < |page| ==> page[i].createdAt <= page[j].createdAt
    ensures |OfReservation(messages, reservationId)| <= MessageLimit ==>
              multiset(page) == multiset(OfReservation(messages, reservationId))
    ensures forall m, k :: m in multiset(OfReservation(messages, reservationId)) - multiset(page) && 0 <= k < |page|
              ==> page[k].createdAt <= m.createdAt
  {
    var mine := OfReservation(messages, reservationId);
    var sorted := ByTime(mine);
    OldestFirstPage(mine, sorted, page);
  }

  /** The first messages of a time-ordered copy are messages of the reservation, none later than any left out. */
  lemma OldestFirstPage(mine: seq<Message>, sorted: seq<Message>, page: seq<Message>)
    requires multiset(sorted) == multiset(mine)
    requires forall i, j :: 0 <= i < j < |sorted| ==> sorted[i].createdAt <= sorted[j].createdAt
    requires page == Take(sorted, MessageLimit)
    ensures forall k :: 0 <= k < |page| ==> page[k] in mine
    ensures |mine| <= MessageLimit ==> multiset(page) == multiset(mine)
    ensures |page| == if |mine| < MessageLimit then |mine| else MessageLimit
    ensures multiset(page) <= multiset(mine)
    ensures forall m, k :: m in multiset(mine) - multiset(page) && 0 <= k < |page| ==> page[k].createdAt <= m.createdAt
  {
    var n := |page|;
    assert page == sorted[..n];
    MultisetSplit(sorted, n);
    forall k | 0 <= k < |page| ensures page[k] in mine {
      assert page[k] in multiset(sorted);
    }
    LeftOutNotEarlier(mine, sorted, n);
  }

  /** Every message beyond the first `n` of a time-ordered copy is no earlier than those `n`. */
  lemma LeftOutNotEarlier(mine: seq<Message>, sorted: seq<Message>, n: nat)
    requires multiset(sorted) == multiset(mine) && n <= |sorted|
    requires forall i, j :: 0 <= i < j < |sorted| ==> sorted[i].createdAt <= sorted[j].createdAt
    ensures forall m, k :: m in multiset(mine) - multiset(sorted[..n]) && 0 <= k < n ==> sorted[..n][k].createdAt <= m.createdAt
  {
    MultisetSplit(sorted, n);
    forall m, k | m in multiset(mine) - multiset(sorted[..n]) && 0 <= k < n
      ensures sorted[..n][k].createdAt <= m.createdAt
    {
      assert m in multiset(sorted[n..]);
      var p :| 0 <= p < |sorted[n..]| && sorted[n..][p] == m;
      assert sorted[n + p] == m;
    }
  }

  /** A message a participant sends shows up when they list the reservation's messages, while under the limit. */
  lemma SentMessageIsListed(
    messages: seq<Message>, reservations: seq<Reservation>, listings: seq<Listing>,
    payload: MessageCreate, user: User, newId: string, now: int)
    requires SendMessage(messages, reservations, listings, payload, user, newId, now).Ok?
    requires |OfReservation(messages, payload.reservationId)| < MessageLimit
    ensures var sent := SendMessage(messages, reservations, listings, payload, user, newId, now).value;
            var listed := ListMessages(sent.messages, reservations, listings, payload.reservationId, user);
            listed.Ok? && sent.message in listed.value
  {
    var sent := SendMessage(messages, reservations, listings, payload, user, newId, now).value;
    var p := (m: Message) => m.reservationId == payload.reservationId;
    FilterConcat(messages, [sent.message], p);
    assert Filter([sent.message], p) == [sent.message];
    var mine := OfReservation(sent.messages, payload.reservationId);
    assert sent.message in multiset(mine);
  }
}
