/** The enums and records of the API schemas, with their defaults and public projections. */
module Schemas {
  import opened Wrappers

  /** Storage sizes with wire strings "S", "M", "L". */
  datatype StorageSize = S | M | L {
    function Wire(): string {
      match this
      case S => "S"
      case M => "M"
      case L => "L"
    }

    /** Position on the small-to-large scale. */
    function Ordinal(): int {
      match this
      case S => 0
      case M => 1
      case L => 2
    }
  }

  /** Decodes a wire string; anything but the three codes is rejected. */
  function ParseStorageSize(s: string): (r: Option<StorageSize>)
    ensures r.Some? ==> r.value.Wire() == s
    ensures r.None? <==> s != "S" && s != "M" && s != "L"
  {
    if s == "S" then Some(S) else if s == "M" then Some(M) else if s == "L" then Some(L) else None
  }

  lemma StorageSizeRoundTrip(z: StorageSize)
    ensures ParseStorageSize(z.Wire()) == Some(z)
  {
  }

  /** Reservation lifecycle states. */
  datatype ReservationStatus = PendingHostConfirmation | Confirmed | Declined | Expired {
    function Wire(): string {
      match this
      case PendingHostConfirmation => "pending_host_confirmation"
      case Confirmed => "confirmed"
      case Declined => "declined"
      case Expired => "expired"
    }
  }

  function ParseReservationStatus(s: string): (r: Option<ReservationStatus>)
    ensures r.Some? ==> r.value.Wire() == s
    ensures r.None? <==> s !in {"pending_host_confirmation", "confirmed", "declined", "expired"}
  {
    if s == "pending_host_confirmation" then Some(PendingHostConfirmation)
    else if s == "confirmed" then Some(Confirmed)
    else if s == "declined" then Some(Declined)
    else if s == "expired" then Some(Expired)
    else None
  }

  /** Every status has its own wire string and decodes back to itself. */
  lemma ReservationStatusRoundTrip(st: ReservationStatus)
    ensures ParseReservationStatus(st.Wire()) == Some(st)
  {
  }

  /** Registration payload. */
  datatype UserCreate = UserCreate(
    name: string, email: string, password: string, zipCode: string,
    isHost: bool, phone: Option<string>, backgroundCheckAccepted: bool)

  /** A registration payload that gives only the required fields. */
  function UserCreateWithDefaults(name: string, email: string, password: string, zipCode: string): (u: UserCreate)
    ensures u.name == name && u.email == email && u.password == password && u.zipCode == zipCode
    ensures !u.isHost && u.phone.None? && !u.backgroundCheckAccepted
  {
    UserCreate(name, email, password, zipCode, false, None, false)
  }

  /**
   * A stored user document. `verificationStatus` and `stripeSessionId` are `None`
   * when the document has no such key. Times are seconds.
   */
  datatype User = User(
    id: string, name: string, email: string, hashedPassword: string, zipCode: string,
    isHost: bool, phone: Option<string>, createdAt: int, backgroundCheckAccepted: bool,
    verificationStatus: Option<string>, stripeSessionId: Option<string>)

  datatype UserPublic = UserPublic(
    id: string, name: string, email: string, zipCode: string, isHost: bool,
    phone: Option<string>, createdAt: int, verificationStatus: Option<string>)

  /** The public shape of a user: the password hash and verification bookkeeping are dropped. */
  function ToUserPublic(u: User): (p: UserPublic)
    ensures p.id == u.id && p.name == u.name && p.email == u.email && p.zipCode == u.zipCode
    ensures p.isHost == u.isHost && p.phone == u.phone && p.createdAt == u.createdAt
    ensures p.verificationStatus == u.verificationStatus
  {
    UserPublic(u.id, u.name, u.email, u.zipCode, u.isHost, u.phone, u.createdAt, u.verificationStatus)
  }

  /** The password hash, the background-check flag and the session id never reach the public shape. */
  lemma PublicUserOmitsSecrets(u: User, hashedPassword: string, backgroundCheckAccepted: bool, stripeSessionId: Option<string>)
    ensures ToUserPublic(u) == ToUserPublic(u.(hashedPassword := hashedPassword,
                                               backgroundCheckAccepted := backgroundCheckAccepted,
                                               stripeSessionId := stripeSessionId))
  {
  }

  /** An access token, kept abstract: only the subject it was issued for is modelled. */
  datatype AccessToken = AccessToken(subject: string)

  datatype TokenResponse = TokenResponse(accessToken: AccessToken, tokenType: string)

  function TokenResponseWithDefaults(token: AccessToken): (t: TokenResponse)
    ensures t.accessToken == token && t.tokenType == "bearer"
  {
    TokenResponse(token, "bearer")
  }

  /** Listing payload. */
  datatype ListingCreate = ListingCreate(
    title: string, description: string, size: StorageSize, pricePerMonth: real,
    addressSummary: string, zipCode: string, images: seq<string>, availability: bool,
    rating: Option<real>)

  /** A listing payload that gives only the required fields. */
  function ListingCreateWithDefaults(
    title: string, description: string, size: StorageSize, pricePerMonth: real,
    addressSummary: string, zipCode: string): (c: ListingCreate)
    ensures c.title == title && c.description == description && c.size == size
    ensures c.pricePerMonth == pricePerMonth && c.addressSummary == addressSummary && c.zipCode == zipCode
    ensures c.images == [] && c.availability && c.rating.None?
  {
    ListingCreate(title, description, size, pricePerMonth, addressSummary, zipCode, [], true, None)
  }

  /** A stored listing document (also its public shape). */
  datatype Listing = Listing(
    id: string, hostId: string, title: string, description: string, size: StorageSize,
    pricePerMonth: real, addressSummary: string, zipCode: string, images: seq<string>,
    availability: bool, rating: Option<real>, createdAt: int)

  /** Reservation payload; dates are day numbers. */
  datatype ReservationCreate = ReservationCreate(listingId: string, startDate: int, endDate: int)

  /** A stored reservation document; dates are day numbers, instants are seconds. */
  datatype Reservation = Reservation(
    id: string, listingId: string, renterId: string, startDate: int, endDate: int,
    status: ReservationStatus, basePrice: real, serviceFee: real, deposit: real,
    totalPrice: real, holdExpiresAt: int, createdAt: int, paymentStatus: string)

  datatype ReservationPublic = ReservationPublic(
    id: string, listingId: string, renterId: string, startDate: int, endDate: int,
    status: ReservationStatus, totalPrice: real, serviceFee: real, deposit: real,
    holdExpiresAt: int, createdAt: int)

  function ToReservationPublic(r: Reservation): (p: ReservationPublic)
    ensures p.id == r.id && p.listingId == r.listingId && p.renterId == r.renterId
    ensures p.startDate == r.startDate && p.endDate == r.endDate && p.status == r.status
    ensures p.totalPrice == r.totalPrice && p.serviceFee == r.serviceFee && p.deposit == r.deposit
    ensures p.holdExpiresAt == r.holdExpiresAt && p.createdAt == r.createdAt
  {
    ReservationPublic(r.id, r.listingId, r.renterId, r.startDate, r.endDate, r.status,
                      r.totalPrice, r.serviceFee, r.deposit, r.holdExpiresAt, r.createdAt)
  }

  /** The stored base price and payment status never reach the public shape. */
  lemma PublicReservationOmitsBasePrice(r: Reservation, base: real, payment: string)
    ensures ToReservationPublic(r.(basePrice := base, paymentStatus := payment)) == ToReservationPublic(r)
  {
  }

  datatype MessageCreate = MessageCreate(reservationId: string, content: string)

  datatype Message = Message(id: string, reservationId: string, senderId: string, content: string, createdAt: int)
}
