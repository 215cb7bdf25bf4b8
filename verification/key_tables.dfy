/** The key-management tables: master keys, accounts and key instances. Every write is a batch;
    a batch either applies whole or leaves the store as it was, and one that breaks a primary
    or foreign key is refused with the matching integrity error. */
module KeyTables {
  import opened Results
  import opened Constants
  import opened TableOps
  import opened Schema

  /** A `(derivation_data, id)` entry of the master-key and key-instance updates. */
  datatype DerivationDataUpdate = DerivationDataUpdate(derivationData: seq<byte>, id: int)

  /** A `(masterkey_id, script_type, account_id)` entry of `update_masterkey`. */
  datatype AccountMasterKeyUpdate = AccountMasterKeyUpdate(masterKeyId: Option<int>, scriptType: int, accountId: int)

  /** A `(name, account_id)` entry of `update_name`. */
  datatype AccountNameUpdate = AccountNameUpdate(name: string, accountId: int)

  /** A `(flags, keyinstance_id)` entry of the key-instance `update_flags`. */
  datatype ActiveUpdate = ActiveUpdate(isActive: bool, keyInstanceId: int)

  /** A `(description, keyinstance_id)` entry of `update_descriptions`. */
  datatype KeyDescriptionUpdate = KeyDescriptionUpdate(description: Option<string>, keyInstanceId: int)

  function DerivationTarget(e: DerivationDataUpdate): int { e.id }

  // ----- Master keys -----

  /** Creates master keys. A parent may be another row of the same batch. */
  function CreateMasterKeys(s: Store, rows: seq<MasterKeyRow>): (r: Result<Store, DbError>)
    requires Consistent(s)
    ensures r.Ok? ==> Consistent(r.value)
    ensures r.Ok? ==> r.value == s.(masterKeys := r.value.masterKeys)
    ensures r.Ok? ==> r.value.masterKeys.Keys == s.masterKeys.Keys + KeysOf(rows, MasterKeyId)
    ensures r.Ok? ==> forall k | k in s.masterKeys :: r.value.masterKeys[k] == s.masterKeys[k]
    ensures r.Ok? ==> forall i | 0 <= i < |rows| :: r.value.masterKeys[rows[i].masterKeyId] == rows[i]
    ensures !(DistinctKeys(rows, MasterKeyId) && KeysOf(rows, MasterKeyId) !! s.masterKeys.Keys) ==>
      r == Err(PrimaryKeyViolation)
    ensures DistinctKeys(rows, MasterKeyId) && KeysOf(rows, MasterKeyId) !! s.masterKeys.Keys ==>
      (r.Ok? <==> forall i | 0 <= i < |rows| ::
         Resolves(rows[i].parentMasterKeyId, s.masterKeys.Keys + KeysOf(rows, MasterKeyId)))
  {
    match Insert(s.masterKeys, rows, MasterKeyId)
    case None => Err(PrimaryKeyViolation)
    case Some(m) =>
      var s' := s.(masterKeys := m);
      assert (forall i | 0 <= i < |rows| :: Resolves(rows[i].parentMasterKeyId, m.Keys)) ==> MasterKeysOk(s') by {
        if forall i | 0 <= i < |rows| :: Resolves(rows[i].parentMasterKeyId, m.Keys) {
          forall k | k in m ensures Resolves(m[k].parentMasterKeyId, m.Keys) {
            if k !in s.masterKeys {
              var i :| 0 <= i < |rows| && MasterKeyId(rows[i]) == k;
            }
          }
        }
      }
      Checked(s')
  }

  function UpdateMasterKeyData(row: MasterKeyRow, e: DerivationDataUpdate): MasterKeyRow {
    row.(derivationData := e.derivationData)
  }

  function MasterKeyLink(row: MasterKeyRow): (int, Option<int>, int) {
    (row.masterKeyId, row.parentMasterKeyId, row.derivationType)
  }

  /** `update_derivation_data` on master keys: only the derivation data of the named rows
      changes, and no constraint can break. */
  function UpdateMasterKeyDerivationData(s: Store, entries: seq<DerivationDataUpdate>): (r: Store)
    ensures r == s.(masterKeys := r.masterKeys)
    ensures r.masterKeys.Keys == s.masterKeys.Keys
    ensures forall k | k in s.masterKeys ::
      r.masterKeys[k].(derivationData := s.masterKeys[k].derivationData) == s.masterKeys[k]
    ensures DistinctKeys(entries, DerivationTarget) ==>
      forall i | 0 <= i < |entries| && entries[i].id in s.masterKeys ::
        r.masterKeys[entries[i].id].derivationData == entries[i].derivationData
    ensures Consistent(s) ==> Consistent(r)
  {
    var m := Update(s.masterKeys, entries, DerivationTarget, UpdateMasterKeyData);
    UpdatePreserves(s.masterKeys, entries, DerivationTarget, UpdateMasterKeyData, MasterKeyLink);
    MasterKeysFrame(s, m);
    s.(masterKeys := m)
  }

  /** Whether a delete of `gone` would orphan a row: a surviving master key whose parent, an
      account whose default master key, or a key instance whose master key is among them. */
  predicate MasterKeysReferenced(s: Store, gone: set<int>) {
    || (exists k | k in s.masterKeys && k !in gone :: PointsInto(s.masterKeys[k].parentMasterKeyId, gone))
    || (exists k | k in s.accounts :: PointsInto(s.accounts[k].defaultMasterKeyId, gone))
    || (exists k | k in s.keyInstances :: PointsInto(s.keyInstances[k].masterKeyId, gone))
  }

  /** Deletes master keys; refused when a remaining row still refers to one of them. */
  function DeleteMasterKeys(s: Store, ids: seq<int>): (r: Result<Store, DbError>)
    requires Consistent(s)
    ensures r.Ok? ==> Consistent(r.value)
    ensures r.Ok? ==> r.value == s.(masterKeys := r.value.masterKeys)
    ensures r.Ok? ==> r.value.masterKeys == Remove(s.masterKeys, ids)
    ensures r.Ok? <==> !MasterKeysReferenced(s, set k | k in ids)
  {
    var gone := set k | k in ids;
    var s' := s.(masterKeys := Remove(s.masterKeys, ids));
    assert MasterKeysReferenced(s, gone) ==> !Consistent(s') by {
      if MasterKeysReferenced(s, gone) {
        if k :| k in s.masterKeys && k !in gone && PointsInto(s.masterKeys[k].parentMasterKeyId, gone) {
          assert k in s'.masterKeys;
        }
      }
    }
    Checked(s')
  }

  // ----- Accounts -----

  function AccountTarget(e: AccountMasterKeyUpdate): int { e.accountId }
  function AccountNameTarget(e: AccountNameUpdate): int { e.accountId }

  /** Creates accounts; each default master key must be stored. */
  function CreateAccounts(s: Store, rows: seq<AccountRow>): (r: Result<Store, DbError>)
    requires Consistent(s)
    ensures r.Ok? ==> Consistent(r.value)
    ensures r.Ok? ==> r.value == s.(accounts := r.value.accounts)
    ensures r.Ok? ==> r.value.accounts.Keys == s.accounts.Keys + KeysOf(rows, AccountId)
    ensures r.Ok? ==> forall k | k in s.accounts :: r.value.accounts[k] == s.accounts[k]
    ensures r.Ok? ==> forall i | 0 <= i < |rows| :: r.value.accounts[rows[i].accountId] == rows[i]
    ensures !(DistinctKeys(rows, AccountId) && KeysOf(rows, AccountId) !! s.accounts.Keys) ==>
      r == Err(PrimaryKeyViolation)
    ensures DistinctKeys(rows, AccountId) && KeysOf(rows, AccountId) !! s.accounts.Keys ==>
      (r.Ok? <==> forall i | 0 <= i < |rows| :: Resolves(rows[i].defaultMasterKeyId, s.masterKeys.Keys))
  {
    match Insert(s.accounts, rows, AccountId)
    case None => Err(PrimaryKeyViolation)
    case Some(m) =>
      var s' := s.(accounts := m);
      assert (forall i | 0 <= i < |rows| :: Resolves(rows[i].defaultMasterKeyId, s.masterKeys.Keys)) ==> AccountsOk(s') by {
        if forall i | 0 <= i < |rows| :: Resolves(rows[i].defaultMasterKeyId, s.masterKeys.Keys) {
          forall k | k in m ensures Resolves(m[k].defaultMasterKeyId, s.masterKeys.Keys) {
            if k !in s.accounts {
              var i :| 0 <= i < |rows| && AccountId(rows[i]) == k;
            }
          }
        }
      }
      Checked(s')
  }

  function SetAccountMasterKey(row: AccountRow, e: AccountMasterKeyUpdate): AccountRow {
    row.(defaultMasterKeyId := e.masterKeyId, defaultScriptType := e.scriptType)
  }

  function AccountIdentity(row: AccountRow): (int, string) {
    (row.accountId, row.accountName)
  }

  /** `update_masterkey`: sets the default master key and script type of the named accounts.
      The new master key is a foreign key, so the batch is refused when one is not stored. */
  function UpdateAccountMasterKey(s: Store, entries: seq<AccountMasterKeyUpdate>): (r: Result<Store, DbError>)
    requires Consistent(s)
    ensures r.Ok? ==> Consistent(r.value)
    ensures r.Ok? ==> r.value == s.(accounts := r.value.accounts)
    ensures r.Ok? ==> r.value.accounts.Keys == s.accounts.Keys
    ensures r.Ok? ==> forall k | k in s.accounts ::
      r.value.accounts[k].(defaultMasterKeyId := s.accounts[k].defaultMasterKeyId,
                           defaultScriptType := s.accounts[k].defaultScriptType) == s.accounts[k]
    ensures r.Ok? && DistinctKeys(entries, AccountTarget) ==>
      forall i | 0 <= i < |entries| && entries[i].accountId in s.accounts ::
        && r.value.accounts[entries[i].accountId].defaultMasterKeyId == entries[i].masterKeyId
        && r.value.accounts[entries[i].accountId].defaultScriptType == entries[i].scriptType
    ensures (forall i | 0 <= i < |entries| && entries[i].accountId in s.accounts ::
               Resolves(entries[i].masterKeyId, s.masterKeys.Keys)) ==> r.Ok?
    ensures DistinctKeys(entries, AccountTarget) ==>
      (r.Ok? <==> forall i | 0 <= i < |entries| && entries[i].accountId in s.accounts ::
                    Resolves(entries[i].masterKeyId, s.masterKeys.Keys))
  {
    var m := Update(s.accounts, entries, AccountTarget, SetAccountMasterKey);
    UpdatePreserves(s.accounts, entries, AccountTarget, SetAccountMasterKey, AccountIdentity);
    var s' := s.(accounts := m);
    assert (forall i | 0 <= i < |entries| && entries[i].accountId in s.accounts ::
              Resolves(entries[i].masterKeyId, s.masterKeys.Keys)) ==> Consistent(s') by {
      if forall i | 0 <= i < |entries| && entries[i].accountId in s.accounts ::
           Resolves(entries[i].masterKeyId, s.masterKeys.Keys) {
        UpdateResolves(s.accounts, entries, s.masterKeys.Keys);
        assert forall k | k in m :: Resolves(m[k].defaultMasterKeyId, s.masterKeys.Keys);
      }
    }
    Checked(s')
  }

  /** Every master key an `update_masterkey` batch leaves in the accounts table resolves when
      the stored ones did and each entry's does. */
  lemma {:induction false} UpdateResolves(m: map<int, AccountRow>, entries: seq<AccountMasterKeyUpdate>, keys: set<int>)
    requires forall k | k in m :: Resolves(m[k].defaultMasterKeyId, keys)
    requires forall i | 0 <= i < |entries| && entries[i].accountId in m :: Resolves(entries[i].masterKeyId, keys)
    ensures forall k | k in Update(m, entries, AccountTarget, SetAccountMasterKey) ::
      Resolves(Update(m, entries, AccountTarget, SetAccountMasterKey)[k].defaultMasterKeyId, keys)
    decreases |entries|
  {
    if |entries| > 0 {
      var k := AccountTarget(entries[0]);
      var m' := if k in m then m[k := SetAccountMasterKey(m[k], entries[0])] else m;
      forall i | 0 <= i < |entries| - 1 && entries[1..][i].accountId in m'
        ensures Resolves(entries[1..][i].masterKeyId, keys)
      {
        assert entries[1..][i] == entries[i + 1];
      }
      UpdateResolves(m', entries[1..], keys);
      assert Update(m, entries, AccountTarget, SetAccountMasterKey)
          == Update(m', entries[1..], AccountTarget, SetAccountMasterKey);
    }
  }

  function RenameAccount(row: AccountRow, e: AccountNameUpdate): AccountRow {
    row.(accountName := e.name)
  }

  function AccountLink(row: AccountRow): (int, Option<int>, int) {
    (row.accountId, row.defaultMasterKeyId, row.defaultScriptType)
  }

  /** `update_name`: only the names of the named accounts change. */
  function UpdateAccountName(s: Store, entries: seq<AccountNameUpdate>): (r: Store)
    ensures r == s.(accounts := r.accounts)
    ensures r.accounts.Keys == s.accounts.Keys
    ensures forall k | k in s.accounts :: r.accounts[k].(accountName := s.accounts[k].accountName) == s.accounts[k]
    ensures DistinctKeys(entries, AccountNameTarget) ==>
      forall i | 0 <= i < |entries| && entries[i].accountId in s.accounts ::
        r.accounts[entries[i].accountId].accountName == entries[i].name
    ensures Consistent(s) ==> Consistent(r)
  {
    var m := Update(s.accounts, entries, AccountNameTarget, RenameAccount);
    UpdatePreserves(s.accounts, entries, AccountNameTarget, RenameAccount, AccountLink);
    AccountsFrame(s, m);
    s.(accounts := m)
  }

  /** Whether a key instance or a wallet event still refers to one of the accounts in `gone`. */
  predicate AccountsReferenced(s: Store, gone: set<int>) {
    || (exists k | k in s.keyInstances :: s.keyInstances[k].accountId in gone)
    || (exists k | k in s.walletEvents :: PointsInto(s.walletEvents[k].accountId, gone))
  }

  /** Deletes accounts; refused while a key instance or event refers to one of them. */
  function DeleteAccounts(s: Store, ids: seq<int>): (r: Result<Store, DbError>)
    requires Consistent(s)
    ensures r.Ok? ==> Consistent(r.value)
    ensures r.Ok? ==> r.value == s.(accounts := r.value.accounts)
    ensures r.Ok? ==> r.value.accounts == Remove(s.accounts, ids)
    ensures r.Ok? <==> !AccountsReferenced(s, set k | k in ids)
  {
    Checked(s.(accounts := Remove(s.accounts, ids)))
  }

  // ----- Key instances -----

  function ActiveTarget(e: ActiveUpdate): int { e.keyInstanceId }
  function KeyDescriptionTarget(e: KeyDescriptionUpdate): int { e.keyInstanceId }

  /** Creates key instances; each must name a stored account and, when it has one, a stored
      master key. */
  function CreateKeyInstances(s: Store, rows: seq<KeyInstanceRow>): (r: Result<Store, DbError>)
    requires Consistent(s)
    ensures r.Ok? ==> Consistent(r.value)
    ensures r.Ok? ==> r.value == s.(keyInstances := r.value.keyInstances)
    ensures r.Ok? ==> r.value.keyInstances.Keys == s.keyInstances.Keys + KeysOf(rows, KeyInstanceId)
    ensures r.Ok? ==> forall k | k in s.keyInstances :: r.value.keyInstances[k] == s.keyInstances[k]
    ensures r.Ok? ==> forall i | 0 <= i < |rows| :: r.value.keyInstances[rows[i].keyInstanceId] == rows[i]
    ensures !(DistinctKeys(rows, KeyInstanceId) && KeysOf(rows, KeyInstanceId) !! s.keyInstances.Keys) ==>
      r == Err(PrimaryKeyViolation)
    ensures DistinctKeys(rows, KeyInstanceId) && KeysOf(rows, KeyInstanceId) !! s.keyInstances.Keys ==>
      (r.Ok? <==> forall i | 0 <= i < |rows| ::
         rows[i].accountId in s.accounts && Resolves(rows[i].masterKeyId, s.masterKeys.Keys))
  {
    match Insert(s.keyInstances, rows, KeyInstanceId)
    case None => Err(PrimaryKeyViolation)
    case Some(m) =>
      var s' := s.(keyInstances := m);
      assert (forall i | 0 <= i < |rows| :: rows[i].accountId in s.accounts && Resolves(rows[i].masterKeyId, s.masterKeys.Keys))
          ==> KeyInstancesOk(s') by {
        if forall i | 0 <= i < |rows| :: rows[i].accountId in s.accounts && Resolves(rows[i].masterKeyId, s.masterKeys.Keys) {
          forall k | k in m ensures m[k].accountId in s.accounts && Resolves(m[k].masterKeyId, s.masterKeys.Keys) {
            if k !in s.keyInstances {
              var i :| 0 <= i < |rows| && KeyInstanceId(rows[i]) == k;
            }
          }
        }
      }
      Checked(s')
  }

  function UpdateKeyData(row: KeyInstanceRow, e: DerivationDataUpdate): KeyInstanceRow {
    row.(derivationData := e.derivationData)
  }

  function SetActive(row: KeyInstanceRow, e: ActiveUpdate): KeyInstanceRow {
    row.(isActive := e.isActive)
  }

  function SetKeyDescription(row: KeyInstanceRow, e: KeyDescriptionUpdate): KeyInstanceRow {
    row.(description := e.description)
  }

  function KeyInstanceLink(row: KeyInstanceRow): (int, int, Option<int>) {
    (row.keyInstanceId, row.accountId, row.masterKeyId)
  }

  /** The columns of a key instance other than derivation data, activity and description. */
  function KeyInstanceFixed(row: KeyInstanceRow): (int, int, Option<int>, DerivationType, int) {
    (row.keyInstanceId, row.accountId, row.masterKeyId, row.derivationType, row.scriptType)
  }

  /** `update_derivation_data` on key instances. */
  function UpdateKeyInstanceDerivationData(s: Store, entries: seq<DerivationDataUpdate>): (r: Store)
    ensures r == s.(keyInstances := r.keyInstances)
    ensures r.keyInstances.Keys == s.keyInstances.Keys
    ensures forall k | k in s.keyInstances ::
      r.keyInstances[k].(derivationData := s.keyInstances[k].derivationData) == s.keyInstances[k]
    ensures DistinctKeys(entries, DerivationTarget) ==>
      forall i | 0 <= i < |entries| && entries[i].id in s.keyInstances ::
        r.keyInstances[entries[i].id].derivationData == entries[i].derivationData
    ensures Consistent(s) ==> Consistent(r)
  {
    var m := Update(s.keyInstances, entries, DerivationTarget, UpdateKeyData);
    UpdatePreserves(s.keyInstances, entries, DerivationTarget, UpdateKeyData, KeyInstanceLink);
    UpdatePreserves(s.keyInstances, entries, DerivationTarget, UpdateKeyData,
      (row: KeyInstanceRow) => row.(derivationData := []));
    KeyInstancesFrame(s, m);
    s.(keyInstances := m)
  }

  /** The key-instance `update_flags`: sets whether each named key is active. */
  function UpdateKeyInstanceActive(s: Store, entries: seq<ActiveUpdate>): (r: Store)
    ensures r == s.(keyInstances := r.keyInstances)
    ensures r.keyInstances.Keys == s.keyInstances.Keys
    ensures forall k | k in s.keyInstances ::
      r.keyInstances[k].(isActive := s.keyInstances[k].isActive) == s.keyInstances[k]
    ensures DistinctKeys(entries, ActiveTarget) ==>
      forall i | 0 <= i < |entries| && entries[i].keyInstanceId in s.keyInstances ::
        r.keyInstances[entries[i].keyInstanceId].isActive == entries[i].isActive
    ensures Consistent(s) ==> Consistent(r)
  {
    var m := Update(s.keyInstances, entries, ActiveTarget, SetActive);
    UpdatePreserves(s.keyInstances, entries, ActiveTarget, SetActive, KeyInstanceLink);
    UpdatePreserves(s.keyInstances, entries, ActiveTarget, SetActive,
      (row: KeyInstanceRow) => row.(isActive := false));
    KeyInstancesFrame(s, m);
    s.(keyInstances := m)
  }

  /** `update_descriptions` on key instances; a `None` description clears the label. */
  function UpdateKeyInstanceDescriptions(s: Store, entries: seq<KeyDescriptionUpdate>): (r: Store)
    ensures r == s.(keyInstances := r.keyInstances)
    ensures r.keyInstances.Keys == s.keyInstances.Keys
    ensures forall k | k in s.keyInstances ::
      r.keyInstances[k].(description := s.keyInstances[k].description) == s.keyInstances[k]
    ensures DistinctKeys(entries, KeyDescriptionTarget) ==>
      forall i | 0 <= i < |entries| && entries[i].keyInstanceId in s.keyInstances ::
        r.keyInstances[entries[i].keyInstanceId].description == entries[i].description
    ensures Consistent(s) ==> Consistent(r)
  {
    var m := Update(s.keyInstances, entries, KeyDescriptionTarget, SetKeyDescription);
    UpdatePreserves(s.keyInstances, entries, KeyDescriptionTarget, SetKeyDescription, KeyInstanceLink);
    UpdatePreserves(s.keyInstances, entries, KeyDescriptionTarget, SetKeyDescription,
      (row: KeyInstanceRow) => row.(description := None));
    KeyInstancesFrame(s, m);
    s.(keyInstances := m)
  }

  /** Whether an output, a delta or a payment request still refers to a key in `gone`. */
  predicate KeyInstancesReferenced(s: Store, gone: set<int>) {
    || (exists k | k in s.txOutputs :: s.txOutputs[k].keyInstanceId in gone)
    || (exists k | k in s.txDeltas :: s.txDeltas[k].keyInstanceId in gone)
    || (exists k | k in s.paymentRequests :: s.paymentRequests[k].keyInstanceId in gone)
  }

  /** Deletes key instances; refused while an output, delta or payment request refers to one. */
  function DeleteKeyInstances(s: Store, ids: seq<int>): (r: Result<Store, DbError>)
    requires Consistent(s)
    ensures r.Ok? ==> Consistent(r.value)
    ensures r.Ok? ==> r.value == s.(keyInstances := r.value.keyInstances)
    ensures r.Ok? ==> r.value.keyInstances == Remove(s.keyInstances, ids)
    ensures r.Ok? <==> !KeyInstancesReferenced(s, set k | k in ids)
  {
    Checked(s.(keyInstances := Remove(s.keyInstances, ids)))
  }
}
