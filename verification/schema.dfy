/** The wallet database as plain data: one row type per table, the store as one map per table
    from primary key to row, and the constraints SQLite enforces on it (every row under its own
    primary key, every foreign key resolving). */
module Schema {
  import opened Results
  import opened Constants
  import opened TableOps

  type Hash = seq<byte>

  datatype MasterKeyRow = MasterKeyRow(
    masterKeyId: int,
    parentMasterKeyId: Option<int>,
    derivationType: int,
    derivationData: seq<byte>)

  datatype AccountRow = AccountRow(
    accountId: int,
    defaultMasterKeyId: Option<int>,
    defaultScriptType: int,
    accountName: string)

  datatype KeyInstanceRow = KeyInstanceRow(
    keyInstanceId: int,
    accountId: int,
    masterKeyId: Option<int>,
    derivationType: DerivationType,
    derivationData: seq<byte>,
    scriptType: int,
    isActive: bool,
    description: Option<string>)

  /** The metadata columns of a transaction row; the three optional ones have a presence bit
      each in the row's flags. */
  datatype TxData = TxData(
    height: Option<int>,
    fee: Option<int>,
    position: Option<int>,
    dateAdded: int,
    dateUpdated: int)

  datatype TxRow = TxRow(
    txHash: Hash,
    byteData: Option<seq<byte>>,
    flags: bv32,
    metadata: TxData,
    proofData: Option<seq<byte>>,
    description: Option<string>)

  datatype OutputKey = OutputKey(txHash: Hash, txIndex: int)

  datatype TxOutputRow = TxOutputRow(
    txHash: Hash,
    txIndex: int,
    value: int,
    keyInstanceId: int,
    flags: bv32)

  datatype DeltaKey = DeltaKey(txHash: Hash, keyInstanceId: int)

  datatype TxDeltaRow = TxDeltaRow(txHash: Hash, keyInstanceId: int, valueDelta: int)

  datatype PaymentRequestRow = PaymentRequestRow(
    paymentRequestId: int,
    keyInstanceId: int,
    state: PaymentState,
    value: Option<int>,
    expiration: Option<int>,
    description: Option<string>,
    dateCreated: int)

  datatype WalletEventRow = WalletEventRow(
    eventId: int,
    eventType: int,
    accountId: Option<int>,
    eventFlags: bv32,
    dateCreated: int)

  datatype Store = Store(
    masterKeys: map<int, MasterKeyRow>,
    accounts: map<int, AccountRow>,
    keyInstances: map<int, KeyInstanceRow>,
    transactions: map<Hash, TxRow>,
    txOutputs: map<OutputKey, TxOutputRow>,
    txDeltas: map<DeltaKey, TxDeltaRow>,
    paymentRequests: map<int, PaymentRequestRow>,
    walletEvents: map<int, WalletEventRow>)

  const EmptyStore := Store(map[], map[], map[], map[], map[], map[], map[], map[])

  /** Why a write was refused. The first two are the SQLite integrity errors; the others are
      the argument checks the tables make themselves. */
  datatype DbError = PrimaryKeyViolation | ForeignKeyViolation | ByteDataFlagMismatch | ProofNotEncodable

  // Primary keys.
  function MasterKeyId(r: MasterKeyRow): int { r.masterKeyId }
  function AccountId(r: AccountRow): int { r.accountId }
  function KeyInstanceId(r: KeyInstanceRow): int { r.keyInstanceId }
  function TxHashOf(r: TxRow): Hash { r.txHash }
  function OutputKeyOf(r: TxOutputRow): OutputKey { OutputKey(r.txHash, r.txIndex) }
  function DeltaKeyOf(r: TxDeltaRow): DeltaKey { DeltaKey(r.txHash, r.keyInstanceId) }
  function PaymentRequestId(r: PaymentRequestRow): int { r.paymentRequestId }
  function EventId(r: WalletEventRow): int { r.eventId }

  /** A nullable foreign key resolves when it is null or names a stored key. */
  predicate Resolves<K>(ref: Option<K>, keys: set<K>) {
    ref.None? || ref.value in keys
  }

  /** A nullable foreign key points into `keys`. */
  predicate PointsInto<K>(ref: Option<K>, keys: set<K>) {
    ref.Some? && ref.value in keys
  }

  /** Whether a key passes a read's optional key list; a listed key that is not stored simply
      matches nothing. */
  predicate Selected<K(==)>(k: K, keys: Option<seq<K>>) {
    keys.None? || k in keys.value
  }

  predicate MasterKeysOk(s: Store) {
    && WellKeyed(s.masterKeys, MasterKeyId)
    && forall k | k in s.masterKeys :: Resolves(s.masterKeys[k].parentMasterKeyId, s.masterKeys.Keys)
  }

  predicate AccountsOk(s: Store) {
    && WellKeyed(s.accounts, AccountId)
    && forall k | k in s.accounts :: Resolves(s.accounts[k].defaultMasterKeyId, s.masterKeys.Keys)
  }

  predicate KeyInstancesOk(s: Store) {
    && WellKeyed(s.keyInstances, KeyInstanceId)
    && forall k | k in s.keyInstances ::
         && s.keyInstances[k].accountId in s.accounts
         && Resolves(s.keyInstances[k].masterKeyId, s.masterKeys.Keys)
  }

  predicate TransactionsOk(s: Store) {
    WellKeyed(s.transactions, TxHashOf)
  }

  predicate TxOutputsOk(s: Store) {
    && WellKeyed(s.txOutputs, OutputKeyOf)
    && forall k | k in s.txOutputs ::
         s.txOutputs[k].txHash in s.transactions && s.txOutputs[k].keyInstanceId in s.keyInstances
  }

  predicate TxDeltasOk(s: Store) {
    && WellKeyed(s.txDeltas, DeltaKeyOf)
    && forall k | k in s.txDeltas ::
         s.txDeltas[k].txHash in s.transactions && s.txDeltas[k].keyInstanceId in s.keyInstances
  }

  predicate PaymentRequestsOk(s: Store) {
    && WellKeyed(s.paymentRequests, PaymentRequestId)
    && forall k | k in s.paymentRequests :: s.paymentRequests[k].keyInstanceId in s.keyInstances
  }

  predicate WalletEventsOk(s: Store) {
    && WellKeyed(s.walletEvents, EventId)
    && forall k | k in s.walletEvents :: Resolves(s.walletEvents[k].accountId, s.accounts.Keys)
  }

  /** The integrity constraints of the wallet schema. */
  predicate Consistent(s: Store) {
    && MasterKeysOk(s) && AccountsOk(s) && KeyInstancesOk(s) && TransactionsOk(s)
    && TxOutputsOk(s) && TxDeltasOk(s) && PaymentRequestsOk(s) && WalletEventsOk(s)
  }

  /** The integrity check a batch passes before it is kept: the whole written store must satisfy
      every constraint. It is made once, after every row of the batch has been applied. */
  function Checked(s: Store): (r: Result<Store, DbError>)
    ensures r.Ok? <==> Consistent(s)
    ensures r.Ok? ==> r.value == s
    ensures r.Err? ==> r.error == ForeignKeyViolation
  {
    if Consistent(s) then Ok(s) else Err(ForeignKeyViolation)
  }

  // Frame lemmas: a table rewritten under the same keys, with the columns that act as keys or
  // foreign keys unchanged, keeps the store consistent.

  lemma MasterKeysFrame(s: Store, m: map<int, MasterKeyRow>)
    requires m.Keys == s.masterKeys.Keys
    requires forall k | k in m ::
      m[k].masterKeyId == s.masterKeys[k].masterKeyId && m[k].parentMasterKeyId == s.masterKeys[k].parentMasterKeyId
    ensures Consistent(s) ==> Consistent(s.(masterKeys := m))
  {
  }

  lemma AccountsFrame(s: Store, m: map<int, AccountRow>)
    requires m.Keys == s.accounts.Keys
    requires forall k | k in m ::
      m[k].accountId == s.accounts[k].accountId && m[k].defaultMasterKeyId == s.accounts[k].defaultMasterKeyId
    ensures Consistent(s) ==> Consistent(s.(accounts := m))
  {
  }

  lemma KeyInstancesFrame(s: Store, m: map<int, KeyInstanceRow>)
    requires m.Keys == s.keyInstances.Keys
    requires forall k | k in m ::
      && m[k].keyInstanceId == s.keyInstances[k].keyInstanceId
      && m[k].accountId == s.keyInstances[k].accountId
      && m[k].masterKeyId == s.keyInstances[k].masterKeyId
    ensures Consistent(s) ==> Consistent(s.(keyInstances := m))
  {
  }

  lemma TransactionsFrame(s: Store, m: map<Hash, TxRow>)
    requires m.Keys == s.transactions.Keys
    requires forall k | k in m :: m[k].txHash == s.transactions[k].txHash
    ensures Consistent(s) ==> Consistent(s.(transactions := m))
  {
  }

  lemma TxOutputsFrame(s: Store, m: map<OutputKey, TxOutputRow>)
    requires m.Keys == s.txOutputs.Keys
    requires forall k | k in m ::
      && m[k].txHash == s.txOutputs[k].txHash
      && m[k].txIndex == s.txOutputs[k].txIndex
      && m[k].keyInstanceId == s.txOutputs[k].keyInstanceId
    ensures Consistent(s) ==> Consistent(s.(txOutputs := m))
  {
  }

  lemma TxDeltasFrame(s: Store, m: map<DeltaKey, TxDeltaRow>)
    requires m.Keys == s.txDeltas.Keys
    requires forall k | k in m ::
      m[k].txHash == s.txDeltas[k].txHash && m[k].keyInstanceId == s.txDeltas[k].keyInstanceId
    ensures Consistent(s) ==> Consistent(s.(txDeltas := m))
  {
  }

  lemma PaymentRequestsFrame(s: Store, m: map<int, PaymentRequestRow>)
    requires m.Keys == s.paymentRequests.Keys
    requires forall k | k in m ::
      && m[k].paymentRequestId == s.paymentRequests[k].paymentRequestId
      && m[k].keyInstanceId == s.paymentRequests[k].keyInstanceId
    ensures Consistent(s) ==> Consistent(s.(paymentRequests := m))
  {
  }

  lemma WalletEventsFrame(s: Store, m: map<int, WalletEventRow>)
    requires m.Keys == s.walletEvents.Keys
    requires forall k | k in m :: m[k].eventId == s.walletEvents[k].eventId && m[k].accountId == s.walletEvents[k].accountId
    ensures Consistent(s) ==> Consistent(s.(walletEvents := m))
  {
  }

  /** With every other table consistent, a new delta table decides consistency on its own. */
  lemma DeltasReplacedConsistent(s: Store, m: map<DeltaKey, TxDeltaRow>)
    requires Consistent(s)
    ensures Consistent(s.(txDeltas := m)) <==> TxDeltasOk(s.(txDeltas := m))
  {
  }

  lemma EmptyStoreConsistent()
    ensures Consistent(EmptyStore)
  {
  }
}
