/** The payment-request and wallet-event tables. A payment request belongs to a key instance and
    through it to an account; a wallet event belongs to an account or, with no account, to the
    whole wallet. Nothing refers to either, so their deletes cannot fail. */
module RequestTables {
  import opened Results
  import opened Constants
  import opened TableOps
  import opened Schema

  // ----- payment requests -----

  /** A `(state, value, expiration, description, paymentrequest_id)` entry of `update`. */
  datatype RequestUpdate = RequestUpdate(
    state: PaymentState,
    value: Option<int>,
    expiration: Option<int>,
    description: Option<string>,
    paymentRequestId: int)

  function RequestTarget(e: RequestUpdate): int { e.paymentRequestId }

  /** Creates payment requests; each must name a stored key instance. */
  function CreatePaymentRequests(s: Store, rows: seq<PaymentRequestRow>): (r: Result<Store, DbError>)
    requires Consistent(s)
    ensures r.Ok? ==> Consistent(r.value)
    ensures r.Ok? ==> r.value == s.(paymentRequests := r.value.paymentRequests)
    ensures r.Ok? ==> r.value.paymentRequests.Keys == s.paymentRequests.Keys + KeysOf(rows, PaymentRequestId)
    ensures r.Ok? ==> forall k | k in s.paymentRequests :: r.value.paymentRequests[k] == s.paymentRequests[k]
    ensures r.Ok? ==> forall i | 0 <= i < |rows| :: r.value.paymentRequests[rows[i].paymentRequestId] == rows[i]
    ensures !(DistinctKeys(rows, PaymentRequestId) && KeysOf(rows, PaymentRequestId) !! s.paymentRequests.Keys) ==>
      r == Err(PrimaryKeyViolation)
    ensures DistinctKeys(rows, PaymentRequestId) && KeysOf(rows, PaymentRequestId) !! s.paymentRequests.Keys ==>
      (r.Ok? <==> forall i | 0 <= i < |rows| :: rows[i].keyInstanceId in s.keyInstances)
  {
    match Insert(s.paymentRequests, rows, PaymentRequestId)
    case None => Err(PrimaryKeyViolation)
    case Some(m) =>
      var s' := s.(paymentRequests := m);
      assert (forall i | 0 <= i < |rows| :: rows[i].keyInstanceId in s.keyInstances) ==> PaymentRequestsOk(s') by {
        if forall i | 0 <= i < |rows| :: rows[i].keyInstanceId in s.keyInstances {
          forall k | k in m ensures m[k].keyInstanceId in s.keyInstances {
            if k !in s.paymentRequests {
              var i :| 0 <= i < |rows| && PaymentRequestId(rows[i]) == k;
            }
          }
        }
      }
      Checked(s')
  }

  function ApplyRequestUpdate(row: PaymentRequestRow, e: RequestUpdate): PaymentRequestRow {
    row.(state := e.state, value := e.value, expiration := e.expiration, description := e.description)
  }

  /** The columns the request `update` leaves alone. */
  function RequestFixed(row: PaymentRequestRow): (int, int, int) {
    (row.paymentRequestId, row.keyInstanceId, row.dateCreated)
  }

  /** The request `update`: sets state, value, expiration and description of the named
      requests; their key instance and creation time stay. */
  function UpdatePaymentRequests(s: Store, entries: seq<RequestUpdate>): (r: Store)
    ensures r == s.(paymentRequests := r.paymentRequests)
    ensures r.paymentRequests.Keys == s.paymentRequests.Keys
    ensures forall k | k in s.paymentRequests && k !in KeysOf(entries, RequestTarget) ::
      r.paymentRequests[k] == s.paymentRequests[k]
    ensures forall k | k in s.paymentRequests :: RequestFixed(r.paymentRequests[k]) == RequestFixed(s.paymentRequests[k])
    ensures DistinctKeys(entries, RequestTarget) ==>
      forall i | 0 <= i < |entries| && entries[i].paymentRequestId in s.paymentRequests ::
        var row := r.paymentRequests[entries[i].paymentRequestId];
        && row.state == entries[i].state
        && row.value == entries[i].value
        && row.expiration == entries[i].expiration
        && row.description == entries[i].description
    ensures Consistent(s) ==> Consistent(r)
  {
    var m := Update(s.paymentRequests, entries, RequestTarget, ApplyRequestUpdate);
    UpdatePreserves(s.paymentRequests, entries, RequestTarget, ApplyRequestUpdate, RequestFixed);
    PaymentRequestsFrame(s, m);
    s.(paymentRequests := m)
  }

  /** Whether a request's key instance belongs to the account. */
  predicate RequestInAccount(s: Store, row: PaymentRequestRow, accountId: int) {
    row.keyInstanceId in s.keyInstances && s.keyInstances[row.keyInstanceId].accountId == accountId
  }

  /** The request `read`: every request, or with an account those whose key belongs to it. */
  function ReadPaymentRequests(s: Store, accountId: Option<int>): (r: map<int, PaymentRequestRow>)
    ensures forall k | k in r :: k in s.paymentRequests && r[k] == s.paymentRequests[k]
    ensures forall k | k in s.paymentRequests ::
      k in r <==> accountId.None? || RequestInAccount(s, s.paymentRequests[k], accountId.value)
  {
    map k | k in s.paymentRequests
            && (accountId.None? || RequestInAccount(s, s.paymentRequests[k], accountId.value))
      :: s.paymentRequests[k]
  }

  /** An account that owns no key instance has no requests. */
  lemma UnknownAccountReadsNothing(s: Store, accountId: int)
    requires forall k | k in s.keyInstances :: s.keyInstances[k].accountId != accountId
    ensures ReadPaymentRequests(s, Some(accountId)) == map[]
  {
  }

  /** Deletes payment requests. */
  function DeletePaymentRequests(s: Store, ids: seq<int>): (r: Store)
    ensures r == s.(paymentRequests := r.paymentRequests)
    ensures r.paymentRequests.Keys == s.paymentRequests.Keys - set k | k in ids
    ensures forall k | k in r.paymentRequests :: r.paymentRequests[k] == s.paymentRequests[k]
    ensures Consistent(s) ==> Consistent(r)
  {
    s.(paymentRequests := Remove(s.paymentRequests, ids))
  }

  // ----- wallet events -----

  /** A `(event_flags, event_id)` entry of the event `update_flags`. */
  datatype EventFlagUpdate = EventFlagUpdate(flags: bv32, eventId: int)

  function EventTarget(e: EventFlagUpdate): int { e.eventId }

  /** Creates wallet events; an event's account, when it has one, must be stored. */
  function CreateWalletEvents(s: Store, rows: seq<WalletEventRow>): (r: Result<Store, DbError>)
    requires Consistent(s)
    ensures r.Ok? ==> Consistent(r.value)
    ensures r.Ok? ==> r.value == s.(walletEvents := r.value.walletEvents)
    ensures r.Ok? ==> r.value.walletEvents.Keys == s.walletEvents.Keys + KeysOf(rows, EventId)
    ensures r.Ok? ==> forall k | k in s.walletEvents :: r.value.walletEvents[k] == s.walletEvents[k]
    ensures r.Ok? ==> forall i | 0 <= i < |rows| :: r.value.walletEvents[rows[i].eventId] == rows[i]
    ensures !(DistinctKeys(rows, EventId) && KeysOf(rows, EventId) !! s.walletEvents.Keys) ==>
      r == Err(PrimaryKeyViolation)
    ensures DistinctKeys(rows, EventId) && KeysOf(rows, EventId) !! s.walletEvents.Keys ==>
      (r.Ok? <==> forall i | 0 <= i < |rows| :: Resolves(rows[i].accountId, s.accounts.Keys))
  {
    match Insert(s.walletEvents, rows, EventId)
    case None => Err(PrimaryKeyViolation)
    case Some(m) =>
      var s' := s.(walletEvents := m);
      assert (forall i | 0 <= i < |rows| :: Resolves(rows[i].accountId, s.accounts.Keys)) ==> WalletEventsOk(s') by {
        if forall i | 0 <= i < |rows| :: Resolves(rows[i].accountId, s.accounts.Keys) {
          forall k | k in m ensures Resolves(m[k].accountId, s.accounts.Keys) {
            if k !in s.walletEvents {
              var i :| 0 <= i < |rows| && EventId(rows[i]) == k;
            }
          }
        }
      }
      Checked(s')
  }

  function SetEventFlags(row: WalletEventRow, e: EventFlagUpdate): WalletEventRow {
    row.(eventFlags := e.flags)
  }

  function EventWithoutFlags(row: WalletEventRow): WalletEventRow {
    row.(eventFlags := 0)
  }

  /** The event `update_flags`: replaces the flags of the named events outright. */
  function UpdateWalletEventFlags(s: Store, entries: seq<EventFlagUpdate>): (r: Store)
    ensures r == s.(walletEvents := r.walletEvents)
    ensures r.walletEvents.Keys == s.walletEvents.Keys
    ensures forall k | k in s.walletEvents :: EventWithoutFlags(r.walletEvents[k]) == EventWithoutFlags(s.walletEvents[k])
    ensures DistinctKeys(entries, EventTarget) ==>
      forall i | 0 <= i < |entries| && entries[i].eventId in s.walletEvents ::
        r.walletEvents[entries[i].eventId].eventFlags == entries[i].flags
    ensures Consistent(s) ==> Consistent(r)
  {
    var m := Update(s.walletEvents, entries, EventTarget, SetEventFlags);
    UpdatePreserves(s.walletEvents, entries, EventTarget, SetEventFlags, EventWithoutFlags);
    WalletEventsFrame(s, m);
    s.(walletEvents := m)
  }

  /** The event `read`: every event, or with an account only the events tied to it; events
      without an account are wallet-wide and never match an account. */
  function ReadWalletEvents(s: Store, accountId: Option<int>): (r: map<int, WalletEventRow>)
    ensures forall k | k in r :: k in s.walletEvents && r[k] == s.walletEvents[k]
    ensures forall k | k in s.walletEvents ::
      k in r <==> accountId.None? || s.walletEvents[k].accountId == accountId
  {
    map k | k in s.walletEvents && (accountId.None? || s.walletEvents[k].accountId == accountId)
      :: s.walletEvents[k]
  }

  /** Deletes wallet events. */
  function DeleteWalletEvents(s: Store, ids: seq<int>): (r: Store)
    ensures r == s.(walletEvents := r.walletEvents)
    ensures r.walletEvents.Keys == s.walletEvents.Keys - set k | k in ids
    ensures forall k | k in r.walletEvents :: r.walletEvents[k] == s.walletEvents[k]
    ensures Consistent(s) ==> Consistent(r)
  {
    s.(walletEvents := Remove(s.walletEvents, ids))
  }
}
