/** The transaction-output and transaction-delta tables: both hang off a transaction and a key
    instance. Deltas also have an additive upsert that accumulates a key's balance change. */
module OutputTables {
  import opened Results
  import opened Constants
  import opened FlagMasks
  import opened TableOps
  import opened Schema

  // ----- transaction outputs -----

  /** A `(flags, tx_hash, tx_index)` entry of the output `update_flags`. */
  datatype OutputFlagUpdate = OutputFlagUpdate(flags: bv32, txHash: Hash, txIndex: int)

  function OutputTarget(e: OutputFlagUpdate): OutputKey { OutputKey(e.txHash, e.txIndex) }

  /** Creates outputs; each must name a stored transaction and key instance. */
  function CreateTxOutputs(s: Store, rows: seq<TxOutputRow>): (r: Result<Store, DbError>)
    requires Consistent(s)
    ensures r.Ok? ==> Consistent(r.value)
    ensures r.Ok? ==> r.value == s.(txOutputs := r.value.txOutputs)
    ensures r.Ok? ==> r.value.txOutputs.Keys == s.txOutputs.Keys + KeysOf(rows, OutputKeyOf)
    ensures r.Ok? ==> forall k | k in s.txOutputs :: r.value.txOutputs[k] == s.txOutputs[k]
    ensures r.Ok? ==> forall i | 0 <= i < |rows| :: r.value.txOutputs[OutputKeyOf(rows[i])] == rows[i]
    ensures !(DistinctKeys(rows, OutputKeyOf) && KeysOf(rows, OutputKeyOf) !! s.txOutputs.Keys) ==>
      r == Err(PrimaryKeyViolation)
    ensures DistinctKeys(rows, OutputKeyOf) && KeysOf(rows, OutputKeyOf) !! s.txOutputs.Keys ==>
      (r.Ok? <==> forall i | 0 <= i < |rows| ::
         rows[i].txHash in s.transactions && rows[i].keyInstanceId in s.keyInstances)
  {
    match Insert(s.txOutputs, rows, OutputKeyOf)
    case None => Err(PrimaryKeyViolation)
    case Some(m) =>
      var s' := s.(txOutputs := m);
      assert (forall i | 0 <= i < |rows| :: rows[i].txHash in s.transactions && rows[i].keyInstanceId in s.keyInstances)
          ==> TxOutputsOk(s') by {
        if forall i | 0 <= i < |rows| :: rows[i].txHash in s.transactions && rows[i].keyInstanceId in s.keyInstances {
          forall k | k in m ensures m[k].txHash in s.transactions && m[k].keyInstanceId in s.keyInstances {
            if k !in s.txOutputs {
              var i :| 0 <= i < |rows| && OutputKeyOf(rows[i]) == k;
            }
          }
        }
      }
      Checked(s')
  }

  function SetOutputFlags(row: TxOutputRow, e: OutputFlagUpdate): TxOutputRow {
    row.(flags := e.flags)
  }

  function OutputWithoutFlags(row: TxOutputRow): TxOutputRow {
    row.(flags := 0)
  }

  /** The output `update_flags`: replaces the flags of the named outputs outright. */
  function UpdateTxOutputFlags(s: Store, entries: seq<OutputFlagUpdate>): (r: Store)
    ensures r == s.(txOutputs := r.txOutputs)
    ensures r.txOutputs.Keys == s.txOutputs.Keys
    ensures forall k | k in s.txOutputs :: OutputWithoutFlags(r.txOutputs[k]) == OutputWithoutFlags(s.txOutputs[k])
    ensures DistinctKeys(entries, OutputTarget) ==>
      forall i | 0 <= i < |entries| && OutputTarget(entries[i]) in s.txOutputs ::
        r.txOutputs[OutputTarget(entries[i])].flags == entries[i].flags
    ensures Consistent(s) ==> Consistent(r)
  {
    var m := Update(s.txOutputs, entries, OutputTarget, SetOutputFlags);
    UpdatePreserves(s.txOutputs, entries, OutputTarget, SetOutputFlags, OutputWithoutFlags);
    TxOutputsFrame(s, m);
    s.(txOutputs := m)
  }

  /** The output `read`: the stored outputs that pass the flag filter. */
  function ReadTxOutputs(s: Store, filter: FlagFilter): (r: map<OutputKey, TxOutputRow>)
    ensures r.Keys <= s.txOutputs.Keys
    ensures forall k | k in r :: r[k] == s.txOutputs[k]
    ensures forall k | k in s.txOutputs :: k in r <==> Matches(s.txOutputs[k].flags, filter)
  {
    map k | k in s.txOutputs && Matches(s.txOutputs[k].flags, filter) :: s.txOutputs[k]
  }

  /** The read the wallet issues for unspent outputs, `read(mask=~IS_SPENT)`: it keeps the rows
      that have some flag other than the spent bit. */
  function ReadWithoutSpentMask(s: Store): (r: map<OutputKey, TxOutputRow>)
    ensures forall k | k in s.txOutputs :: k in r <==> s.txOutputs[k].flags & !IsSpent != 0
    ensures forall k | k in r :: k in s.txOutputs && r[k] == s.txOutputs[k]
  {
    ReadTxOutputs(s, FlagFilter(None, Some(!IsSpent)))
  }

  /** An unspent output whose flags are all clear is not returned by the masked read. */
  lemma MaskedReadMissesClearOutput(s: Store, k: OutputKey)
    requires k in s.txOutputs && s.txOutputs[k].flags == 0
    ensures k !in ReadWithoutSpentMask(s)
  {
  }

  /** The unspent outputs: exactly those whose spent bit is clear. */
  function UnspentOutputs(s: Store): (r: map<OutputKey, TxOutputRow>)
    ensures forall k | k in s.txOutputs :: k in r <==> s.txOutputs[k].flags & IsSpent == 0
    ensures forall k | k in r :: k in s.txOutputs && r[k] == s.txOutputs[k]
  {
    ReadTxOutputs(s, FlagFilter(Some(0), Some(IsSpent)))
  }

  /** The spent outputs, `read(mask=IS_SPENT)`. */
  function SpentOutputs(s: Store): (r: map<OutputKey, TxOutputRow>)
    ensures forall k | k in s.txOutputs :: k in r <==> s.txOutputs[k].flags & IsSpent != 0
    ensures forall k | k in r :: k in s.txOutputs && r[k] == s.txOutputs[k]
  {
    ReadTxOutputs(s, FlagFilter(None, Some(IsSpent)))
  }

  /** Every stored output is in exactly one of the spent and unspent reads. */
  lemma SpentUnspentPartition(s: Store)
    ensures SpentOutputs(s).Keys !! UnspentOutputs(s).Keys
    ensures SpentOutputs(s).Keys + UnspentOutputs(s).Keys == s.txOutputs.Keys
  {
  }

  /** Deletes outputs. Nothing refers to an output, so a delete cannot break a constraint. */
  function DeleteTxOutputs(s: Store, keys: seq<OutputKey>): (r: Store)
    ensures r == s.(txOutputs := r.txOutputs)
    ensures r.txOutputs.Keys == s.txOutputs.Keys - set k | k in keys
    ensures forall k | k in r.txOutputs :: r.txOutputs[k] == s.txOutputs[k]
    ensures Consistent(s) ==> Consistent(r)
  {
    s.(txOutputs := Remove(s.txOutputs, keys))
  }

  // ----- transaction deltas -----

  /** A `(value_delta, tx_hash, keyinstance_id)` entry of the delta `update`. */
  datatype DeltaUpdate = DeltaUpdate(valueDelta: int, txHash: Hash, keyInstanceId: int)

  function DeltaTarget(e: DeltaUpdate): DeltaKey { DeltaKey(e.txHash, e.keyInstanceId) }

  /** Creates deltas; each must name a stored transaction and key instance. */
  function CreateTxDeltas(s: Store, rows: seq<TxDeltaRow>): (r: Result<Store, DbError>)
    requires Consistent(s)
    ensures r.Ok? ==> Consistent(r.value)
    ensures r.Ok? ==> r.value == s.(txDeltas := r.value.txDeltas)
    ensures r.Ok? ==> r.value.txDeltas.Keys == s.txDeltas.Keys + KeysOf(rows, DeltaKeyOf)
    ensures r.Ok? ==> forall k | k in s.txDeltas :: r.value.txDeltas[k] == s.txDeltas[k]
    ensures r.Ok? ==> forall i | 0 <= i < |rows| :: r.value.txDeltas[DeltaKeyOf(rows[i])] == rows[i]
    ensures !(DistinctKeys(rows, DeltaKeyOf) && KeysOf(rows, DeltaKeyOf) !! s.txDeltas.Keys) ==>
      r == Err(PrimaryKeyViolation)
    ensures DistinctKeys(rows, DeltaKeyOf) && KeysOf(rows, DeltaKeyOf) !! s.txDeltas.Keys ==>
      (r.Ok? <==> forall i | 0 <= i < |rows| ::
         rows[i].txHash in s.transactions && rows[i].keyInstanceId in s.keyInstances)
  {
    match Insert(s.txDeltas, rows, DeltaKeyOf)
    case None => Err(PrimaryKeyViolation)
    case Some(m) =>
      var s' := s.(txDeltas := m);
      assert (forall i | 0 <= i < |rows| :: rows[i].txHash in s.transactions && rows[i].keyInstanceId in s.keyInstances)
          ==> TxDeltasOk(s') by {
        if forall i | 0 <= i < |rows| :: rows[i].txHash in s.transactions && rows[i].keyInstanceId in s.keyInstances {
          forall k | k in m ensures m[k].txHash in s.transactions && m[k].keyInstanceId in s.keyInstances {
            if k !in s.txDeltas {
              var i :| 0 <= i < |rows| && DeltaKeyOf(rows[i]) == k;
            }
          }
        }
      }
      Checked(s')
  }

  function SetDeltaValue(row: TxDeltaRow, e: DeltaUpdate): TxDeltaRow {
    row.(valueDelta := e.valueDelta)
  }

  function DeltaWithoutValue(row: TxDeltaRow): TxDeltaRow {
    row.(valueDelta := 0)
  }

  /** The delta `update`: overwrites the value of the named deltas. */
  function UpdateTxDeltas(s: Store, entries: seq<DeltaUpdate>): (r: Store)
    ensures r == s.(txDeltas := r.txDeltas)
    ensures r.txDeltas.Keys == s.txDeltas.Keys
    ensures forall k | k in s.txDeltas :: DeltaWithoutValue(r.txDeltas[k]) == DeltaWithoutValue(s.txDeltas[k])
    ensures DistinctKeys(entries, DeltaTarget) ==>
      forall i | 0 <= i < |entries| && DeltaTarget(entries[i]) in s.txDeltas ::
        r.txDeltas[DeltaTarget(entries[i])].valueDelta == entries[i].valueDelta
    ensures Consistent(s) ==> Consistent(r)
  {
    var m := Update(s.txDeltas, entries, DeltaTarget, SetDeltaValue);
    UpdatePreserves(s.txDeltas, entries, DeltaTarget, SetDeltaValue, DeltaWithoutValue);
    TxDeltasFrame(s, m);
    s.(txDeltas := m)
  }

  /** The total delta a batch carries for one key. */
  function SumFor(rows: seq<TxDeltaRow>, k: DeltaKey): int
    decreases |rows|
  {
    if |rows| == 0 then 0
    else (if DeltaKeyOf(rows[0]) == k then rows[0].valueDelta else 0) + SumFor(rows[1..], k)
  }

  /** One step of the upsert: add to the stored value, or insert the row as given. */
  function AddOne(m: map<DeltaKey, TxDeltaRow>, row: TxDeltaRow): (r: map<DeltaKey, TxDeltaRow>)
    ensures r.Keys == m.Keys + {DeltaKeyOf(row)}
    ensures forall k | k in r ::
      r[k].valueDelta == (if k in m then m[k].valueDelta else 0) + (if k == DeltaKeyOf(row) then row.valueDelta else 0)
    ensures WellKeyed(m, DeltaKeyOf) ==> WellKeyed(r, DeltaKeyOf)
  {
    var k := DeltaKeyOf(row);
    if k in m then m[k := m[k].(valueDelta := m[k].valueDelta + row.valueDelta)] else m[k := row]
  }

  /** The rows of `create_or_update_relative_values`, applied in order. Each key ends up holding
      its previous value (none counting as zero) plus every delta the batch carries for it. */
  function AddRelative(m: map<DeltaKey, TxDeltaRow>, rows: seq<TxDeltaRow>): (r: map<DeltaKey, TxDeltaRow>)
    ensures r.Keys == m.Keys + KeysOf(rows, DeltaKeyOf)
    ensures forall k | k in r :: r[k].valueDelta == (if k in m then m[k].valueDelta else 0) + SumFor(rows, k)
    ensures WellKeyed(m, DeltaKeyOf) ==> WellKeyed(r, DeltaKeyOf)
    decreases |rows|
  {
    if |rows| == 0 then m
    else
      KeysOfCons(rows, DeltaKeyOf);
      var m1 := AddOne(m, rows[0]);
      var r := AddRelative(m1, rows[1..]);
      assert forall k | k in r :: r[k].valueDelta == (if k in m then m[k].valueDelta else 0) + SumFor(rows, k) by {
        forall k | k in r
          ensures r[k].valueDelta == (if k in m then m[k].valueDelta else 0) + SumFor(rows, k)
        {
          assert SumFor(rows, k) == (if DeltaKeyOf(rows[0]) == k then rows[0].valueDelta else 0) + SumFor(rows[1..], k);
          assert (if k in m1 then m1[k].valueDelta else 0)
              == (if k in m then m[k].valueDelta else 0) + (if k == DeltaKeyOf(rows[0]) then rows[0].valueDelta else 0);
        }
      }
      r
  }

  /** The upserted deltas satisfy their constraints exactly when every row's transaction and key
      instance are stored. */
  lemma RelativeRowsResolve(s: Store, rows: seq<TxDeltaRow>)
    requires Consistent(s)
    ensures (forall i | 0 <= i < |rows| :: rows[i].txHash in s.transactions && rows[i].keyInstanceId in s.keyInstances)
        <==> TxDeltasOk(s.(txDeltas := AddRelative(s.txDeltas, rows)))
  {
    var m := AddRelative(s.txDeltas, rows);
    if forall i | 0 <= i < |rows| :: rows[i].txHash in s.transactions && rows[i].keyInstanceId in s.keyInstances {
      forall k | k in m ensures m[k].txHash in s.transactions && m[k].keyInstanceId in s.keyInstances {
        if k !in s.txDeltas {
          var i :| 0 <= i < |rows| && DeltaKeyOf(rows[i]) == k;
          assert DeltaKeyOf(m[k]) == k;
        } else {
          assert DeltaKeyOf(m[k]) == k && DeltaKeyOf(s.txDeltas[k]) == k;
        }
      }
    }
    if TxDeltasOk(s.(txDeltas := m)) {
      forall i | 0 <= i < |rows| ensures rows[i].txHash in s.transactions && rows[i].keyInstanceId in s.keyInstances {
        var k := DeltaKeyOf(rows[i]);
        assert k in m;
        assert DeltaKeyOf(m[k]) == k;
      }
    }
  }

  /** `create_or_update_relative_values`: the additive upsert, with the foreign keys of any
      inserted row checked once the batch has been applied. */
  function CreateOrUpdateRelativeValues(s: Store, rows: seq<TxDeltaRow>): (r: Result<Store, DbError>)
    requires Consistent(s)
    ensures r.Ok? ==> Consistent(r.value)
    ensures r.Ok? ==> r.value == s.(txDeltas := AddRelative(s.txDeltas, rows))
    ensures r.Ok? <==> forall i | 0 <= i < |rows| ::
      rows[i].txHash in s.transactions && rows[i].keyInstanceId in s.keyInstances
  {
    var s' := s.(txDeltas := AddRelative(s.txDeltas, rows));
    RelativeRowsResolve(s, rows);
    DeltasReplacedConsistent(s, s'.txDeltas);
    Checked(s')
  }

  /** Deletes deltas. Nothing refers to a delta, so a delete cannot break a constraint. */
  function DeleteTxDeltas(s: Store, keys: seq<DeltaKey>): (r: Store)
    ensures r == s.(txDeltas := r.txDeltas)
    ensures r.txDeltas.Keys == s.txDeltas.Keys - set k | k in keys
    ensures forall k | k in r.txDeltas :: r.txDeltas[k] == s.txDeltas[k]
    ensures Consistent(s) ==> Consistent(r)
  {
    s.(txDeltas := Remove(s.txDeltas, keys))
  }

  /** Whether a delta ties the transaction `h` to a key of the account. */
  predicate DeltaInAccount(s: Store, k: DeltaKey, h: Hash, accountId: int) {
    && k in s.txDeltas
    && s.txDeltas[k].txHash == h
    && s.txDeltas[k].keyInstanceId in s.keyInstances
    && s.keyInstances[s.txDeltas[k].keyInstanceId].accountId == accountId
  }

  /** The delta `read_descriptions`: the described transactions an account has a delta in. */
  function ReadDeltaDescriptions(s: Store, accountId: int): (r: map<Hash, string>)
    ensures forall h | h in r :: h in s.transactions && s.transactions[h].description == Some(r[h])
    ensures forall h | h in s.transactions && s.transactions[h].description.Some? ::
      h in r <==> exists k | k in s.txDeltas :: DeltaInAccount(s, k, h, accountId)
  {
    map h | h in s.transactions && s.transactions[h].description.Some?
            && (exists k | k in s.txDeltas :: DeltaInAccount(s, k, h, accountId))
      :: s.transactions[h].description.value
  }
}
