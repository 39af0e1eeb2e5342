/**
 * Identity verification for hosts. The identity provider is outside the model: its
 * answers (a created session, a session's status, a webhook event) are inputs.
 */
module Verification {
  import opened Wrappers
  import opened Seqs
  import opened Schemas

  const VerifiedEvent: string := "identity.verification_session.verified"
  const RequiresInputEvent: string := "identity.verification_session.requires_input"

  function FindUser(users: seq<User>, id: string): Option<nat> {
    FindFirst(users, HasId(id))
  }

  function HasId(id: string): User -> bool {
    (u: User) => u.id == id
  }

  /** `update_one({"_id": id}, …)`: the first user with that id is changed; no match changes nothing. */
  function UpdateUser(users: seq<User>, id: string, change: User -> User): (r: seq<User>)
    ensures |r| == |users|
    ensures FindUser(users, id).None? ==> r == users
    ensures FindUser(users, id).Some? ==>
              var i := FindUser(users, id).value;
              r[i] == change(users[i]) && forall k :: 0 <= k < |users| && k != i ==> r[k] == users[k]
  {
    match FindUser(users, id)
    case None => users
    case Some(i) => users[i := change(users[i])]
  }

  /** An update that keeps every user's id keeps every lookup by id where it was. */
  lemma UpdateKeepsLookups(users: seq<User>, id: string, change: User -> User, x: string)
    requires forall u: User :: change(u).id == u.id
    ensures FindUser(UpdateUser(users, id, change), x) == FindUser(users, x)
  {
    var r := UpdateUser(users, id, change);
    assert forall k :: 0 <= k < |r| ==> r[k].id == users[k].id;
    FindFirstAgree(r, users, HasId(x), HasId(x));
  }

  /** What the identity provider answered when asked to create a session. */
  datatype SessionCreation = SessionCreated(sessionId: string, url: string) | CreationFailed(message: string)

  datatype SessionInfo = SessionInfo(url: string, sessionId: string)

  /** A handler's response together with the user store it leaves behind (which may change even on an error). */
  datatype Outcome<T> = Outcome(users: seq<User>, response: Result<T>)

  function PromoteToHost(u: User): User {
    u.(isHost := true)
  }

  function StartSession(sessionId: string): User -> User {
    (u: User) => u.(stripeSessionId := Some(sessionId), verificationStatus := Some("pending"))
  }

  /** `current` is the stored document of its id, as the authentication dependency loads it. */
  predicate IsStored(users: seq<User>, current: User) {
    FindUser(users, current.id).Some? && users[FindUser(users, current.id).value] == current
  }

  /**
   * POST /verification/create-session: refused (400) only when the status is exactly
   * "verified". The caller is made a host before the provider is asked, and stays one
   * if the provider fails (500); on success the session is recorded as pending.
   */
  function CreateSession(users: seq<User>, current: User, created: SessionCreation): (r: Outcome<SessionInfo>)
    requires IsStored(users, current)
    ensures r.response.Err? && r.response.error == ApiError(400, "Already verified")
            <==> current.verificationStatus == Some("verified")
    ensures current.verificationStatus == Some("verified") ==> r.users == users
    ensures current.verificationStatus != Some("verified") && created.CreationFailed? ==>
              && r.response == Err(ApiError(500, created.message))
              && r.users == users[FindUser(users, current.id).value := current.(isHost := true)]
    ensures current.verificationStatus != Some("verified") && created.SessionCreated? ==>
              && r.response == Ok(SessionInfo(created.url, created.sessionId))
              && r.users == users[FindUser(users, current.id).value :=
                                  current.(isHost := true, stripeSessionId := Some(created.sessionId),
                                           verificationStatus := Some("pending"))]
  {
    if current.verificationStatus == Some("verified") then
      Outcome(users, Err(ApiError(400, "Already verified")))
    else
      var promoted := if !current.isHost then UpdateUser(users, current.id, PromoteToHost) else users;
      match created
      case CreationFailed(message) => Outcome(promoted, Err(ApiError(500, message)))
      case SessionCreated(sessionId, url) =>
        UpdateKeepsLookups(users, current.id, PromoteToHost, current.id);
        Outcome(UpdateUser(promoted, current.id, StartSession(sessionId)), Ok(SessionInfo(url, sessionId)))
  }

  /** A failed session creation still leaves a caller who was not a host promoted to one. */
  lemma FailedCreationKeepsPromotion(users: seq<User>, current: User, message: string)
    requires IsStored(users, current)
    requires current.verificationStatus != Some("verified") && !current.isHost
    ensures var r := CreateSession(users, current, CreationFailed(message));
            && r.response.Err? && r.response.error.status == 500
            && r.users != users
            && r.users[FindUser(users, current.id).value].isHost
  {
    var i := FindUser(users, current.id).value;
    assert !users[i].isHost;
  }

  /** The local status a provider session status maps to when polled. */
  function SessionToLocal(sessionStatus: string): (s: string)
    ensures sessionStatus == "verified" <==> s == "verified"
    ensures s in {"verified", "pending", "processing", "cancelled"}
    ensures sessionStatus == "processing" ==> s == "processing"
    ensures sessionStatus == "canceled" ==> s == "cancelled"
    ensures sessionStatus !in {"verified", "processing", "canceled"} ==> s == "pending"
  {
    if sessionStatus == "verified" then "verified"
    else if sessionStatus == "requires_input" then "pending"
    else if sessionStatus == "processing" then "processing"
    else if sessionStatus == "canceled" then "cancelled"
    else "pending"
  }

  /** What the identity provider answered when asked for a session. */
  datatype SessionLookup = Retrieved(status: string) | LookupFailed(message: string)

  datatype StatusReport = StatusReport(status: string, verified: bool, providerStatus: Option<string>, error: Option<string>)

  /** `current_user.get("verificationStatus", "unverified")`. */
  function StoredStatus(u: User): string {
    if u.verificationStatus.Some? then u.verificationStatus.value else "unverified"
  }

  /** `if not session_id`: a missing or empty session id. */
  predicate HasSession(u: User) {
    u.stripeSessionId.Some? && u.stripeSessionId.value != ""
  }

  function SetStatus(status: string): User -> User {
    (u: User) => u.(verificationStatus := Some(status))
  }

  /**
   * GET /verification/status: without a session, the stored status; with one, the
   * provider's status mapped to a local one and stored when it differs; when the
   * provider fails, the stored status, reported unverified, and nothing written.
   * `lookup` is only consulted when there is a session.
   */
  function GetStatus(users: seq<User>, current: User, lookup: SessionLookup): (r: Outcome<StatusReport>)
    requires IsStored(users, current)
    ensures r.response.Ok?
    ensures r.response.value.verified ==> r.response.value.status == "verified"
    ensures !HasSession(current) ==>
              && r.users == users
              && r.response.value.status == StoredStatus(current)
              && (r.response.value.verified <==> current.verificationStatus == Some("verified"))
    ensures HasSession(current) && lookup.LookupFailed? ==>
              && r.users == users
              && r.response.value == StatusReport(StoredStatus(current), false, None, Some(lookup.message))
    ensures HasSession(current) && lookup.Retrieved? ==>
              var s := SessionToLocal(lookup.status);
              && r.response.value == StatusReport(s, s == "verified", Some(lookup.status), None)
              && r.users == users[FindUser(users, current.id).value := current.(verificationStatus := Some(s))]
    ensures r.users != users ==>
              HasSession(current) && lookup.Retrieved? && current.verificationStatus != Some(SessionToLocal(lookup.status))
  {
    if !HasSession(current) then
      Outcome(users, Ok(StatusReport(StoredStatus(current), current.verificationStatus == Some("verified"), None, None)))
    else
      match lookup
      case LookupFailed(message) =>
        Outcome(users, Ok(StatusReport(StoredStatus(current), false, None, Some(message))))
      case Retrieved(status) =>
        var s := SessionToLocal(status);
        var stored := if Some(s) != current.verificationStatus then UpdateUser(users, current.id, SetStatus(s)) else users;
        Outcome(stored, Ok(StatusReport(s, s == "verified", Some(status), None)))
  }

  /**
   * Polling twice with the same provider answer writes at most once: the second poll,
   * made by the refreshed user, reports the same status and leaves the store alone.
   */
  lemma GetStatusSettles(users: seq<User>, current: User, lookup: SessionLookup)
    requires IsStored(users, current)
    ensures var first := GetStatus(users, current, lookup);
            var refreshed := first.users[FindUser(users, current.id).value];
            && IsStored(first.users, refreshed)
            && var second := GetStatus(first.users, refreshed, lookup);
            second.users == first.users && second.response == first.response
  {
    var first := GetStatus(users, current, lookup);
    var i := FindUser(users, current.id).value;
    if HasSession(current) && lookup.Retrieved? && current.verificationStatus != Some(SessionToLocal(lookup.status)) {
      UpdateKeepsLookups(users, current.id, SetStatus(SessionToLocal(lookup.status)), current.id);
    }
  }

  /** A webhook event, as far as the handler reads it. */
  datatype Event = Event(eventType: string, userId: Option<string>)

  /** `if user_id:` — a missing or empty user id. */
  predicate NamesUser(e: Event) {
    e.userId.Some? && e.userId.value != ""
  }

  /**
   * POST /verification/webhook: an unparsable body (`None`) is a 400; a "verified"
   * event marks its user verified, a "requires_input" event records that status
   * as is; every other event, or one naming no user, changes nothing.
   */
  function Webhook(users: seq<User>, event: Option<Event>): (r: Result<seq<User>>)
    ensures r.Err? <==> event.None?
    ensures r.Err? ==> r.error == ApiError(400, "Invalid payload")
    ensures r.Ok? ==> |r.value| == |users|
    ensures r.Ok? && (!NamesUser(event.value) || event.value.eventType !in {VerifiedEvent, RequiresInputEvent}) ==>
              r.value == users
    ensures r.Ok? && NamesUser(event.value) && FindUser(users, event.value.userId.value).None? ==> r.value == users
    ensures r.Ok? && NamesUser(event.value) && FindUser(users, event.value.userId.value).Some? ==>
              var i := FindUser(users, event.value.userId.value).value;
              && (event.value.eventType == VerifiedEvent ==>
                    r.value[i] == users[i].(verificationStatus := Some("verified")))
              && (event.value.eventType == RequiresInputEvent ==>
                    r.value[i] == users[i].(verificationStatus := Some("requires_input")))
              && forall k :: 0 <= k < |users| && k != i ==> r.value[k] == users[k]
  {
    match event
    case None => Err(ApiError(400, "Invalid payload"))
    case Some(e) =>
      if e.eventType == VerifiedEvent && NamesUser(e) then
        Ok(UpdateUser(users, e.userId.value, SetStatus("verified")))
      else if e.eventType == RequiresInputEvent && NamesUser(e) then
        Ok(UpdateUser(users, e.userId.value, SetStatus("requires_input")))
      else
        Ok(users)
  }

  /**
   * The webhook and polling disagree on a session that needs input: the webhook
   * stores "requires_input", polling maps it to "pending".
   */
  lemma WebhookAndPollingDisagree(users: seq<User>, userId: string)
    requires userId != "" && FindUser(users, userId).Some?
    ensures var r := Webhook(users, Some(Event(RequiresInputEvent, Some(userId))));
            r.Ok? && r.value[FindUser(users, userId).value].verificationStatus == Some("requires_input")
    ensures SessionToLocal("requires_input") == "pending"
  {
  }
}
