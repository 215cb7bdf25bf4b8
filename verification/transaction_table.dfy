/** The transactions table. A row's flags carry the transaction's state bits and the presence
    bits of its optional columns; `create` and the metadata updates derive the presence bits
    from the columns they write, while `update_flags` applies a caller's masked merge. */
module TransactionTable {
  import opened Results
  import opened Constants
  import opened FlagMasks
  import opened ProofCodec
  import opened TableOps
  import opened Schema

  /** The presence bits the optional metadata columns call for. */
  function PresenceBits(m: TxData): bv32 {
    (if m.height.Some? then HasHeight else Unset)
    | (if m.fee.Some? then HasFee else Unset)
    | (if m.position.Some? then HasPosition else Unset)
  }

  lemma PresenceBitsInZone(m: TxData)
    ensures PresenceBits(m) & !MetadataFieldMask == 0
  {
  }

  /** The caller's flags with the metadata presence bits replaced by those `m` calls for: each
      presence bit is set exactly when its column is present, and every bit outside the metadata
      zone passes through unchanged. */
  function ApplyMetadataFlags(flags: bv32, m: TxData): (r: bv32)
    ensures r & HasHeight != 0 <==> m.height.Some?
    ensures r & HasFee != 0 <==> m.fee.Some?
    ensures r & HasPosition != 0 <==> m.position.Some?
    ensures r & !MetadataFieldMask == flags & !MetadataFieldMask
  {
    var p := PresenceBits(m);
    PresenceBitsInZone(m);
    assert p & HasHeight != 0 <==> m.height.Some?;
    assert p & HasFee != 0 <==> m.fee.Some?;
    assert p & HasPosition != 0 <==> m.position.Some?;
    (flags & !MetadataFieldMask) | p
  }

  /** The flags `create` stores: the byte-data bit records whether bytes were supplied, the
      presence bits follow the metadata, and the caller's state bits are kept. */
  function CreateFlags(flags: bv32, m: TxData, byteData: Option<seq<byte>>): (r: bv32)
    ensures r & HasByteData != 0 <==> byteData.Some?
    ensures r & HasHeight != 0 <==> m.height.Some?
    ensures r & HasFee != 0 <==> m.fee.Some?
    ensures r & HasPosition != 0 <==> m.position.Some?
    ensures r & StateMask == flags & StateMask
  {
    var a := ApplyMetadataFlags(flags, m);
    assert a & StateMask == flags & StateMask;
    (a & !HasByteData) | (if byteData.Some? then HasByteData else Unset)
  }

  // ----- create -----

  /** A `(tx_hash, metadata, bytedata, flags, description)` entry of `create`. */
  datatype TxCreate = TxCreate(
    txHash: Hash,
    metadata: TxData,
    byteData: Option<seq<byte>>,
    flags: bv32,
    description: Option<string>)

  function CreateHash(e: TxCreate): Hash { e.txHash }

  function CreatedRow(e: TxCreate): TxRow {
    TxRow(e.txHash, e.byteData, CreateFlags(e.flags, e.metadata, e.byteData), e.metadata, None, e.description)
  }

  function CreatedRows(entries: seq<TxCreate>): (rows: seq<TxRow>)
    ensures |rows| == |entries|
    ensures forall i | 0 <= i < |entries| :: rows[i] == CreatedRow(entries[i])
  {
    seq(|entries|, i requires 0 <= i < |entries| => CreatedRow(entries[i]))
  }

  lemma CreatedRowsKeys(entries: seq<TxCreate>)
    ensures KeysOf(CreatedRows(entries), TxHashOf) == KeysOf(entries, CreateHash)
    ensures DistinctKeys(CreatedRows(entries), TxHashOf) <==> DistinctKeys(entries, CreateHash)
  {
    var rows := CreatedRows(entries);
    assert forall i | 0 <= i < |entries| :: TxHashOf(rows[i]) == CreateHash(entries[i]);
  }

  /** Creates transaction rows. Only the primary key can refuse the batch: no column of a
      transaction is a foreign key. */
  function CreateTransactions(s: Store, entries: seq<TxCreate>): (r: Result<Store, DbError>)
    ensures r.Ok? <==> DistinctKeys(entries, CreateHash) && KeysOf(entries, CreateHash) !! s.transactions.Keys
    ensures r.Err? ==> r.error == PrimaryKeyViolation
    ensures r.Ok? ==> r.value == s.(transactions := r.value.transactions)
    ensures r.Ok? ==> r.value.transactions.Keys == s.transactions.Keys + KeysOf(entries, CreateHash)
    ensures r.Ok? ==> forall h | h in s.transactions :: r.value.transactions[h] == s.transactions[h]
    ensures r.Ok? ==> forall i | 0 <= i < |entries| ::
      r.value.transactions[entries[i].txHash] == CreatedRow(entries[i])
    ensures r.Ok? && Consistent(s) ==> Consistent(r.value)
  {
    var rows := CreatedRows(entries);
    CreatedRowsKeys(entries);
    match Insert(s.transactions, rows, TxHashOf)
    case None => Err(PrimaryKeyViolation)
    case Some(m) =>
      assert forall i | 0 <= i < |entries| :: m[entries[i].txHash] == CreatedRow(entries[i]) by {
        forall i | 0 <= i < |entries| ensures m[entries[i].txHash] == CreatedRow(entries[i]) {
          assert TxHashOf(rows[i]) == entries[i].txHash;
        }
      }
      Ok(s.(transactions := m))
  }

  // ----- update -----

  /** The byte-data argument of `update`: no bytes, new bytes, or the sentinel that leaves the
      stored bytes as they are. */
  datatype ByteDataArg = NoByteData | NewByteData(bytes: seq<byte>) | UntouchedByteData

  /** A `(tx_hash, metadata, bytedata, flags)` entry of `update`. */
  datatype TxUpdate = TxUpdate(txHash: Hash, metadata: TxData, byteData: ByteDataArg, flags: bv32)

  function UpdateHash(e: TxUpdate): Hash { e.txHash }

  /** The argument check `update` makes before writing: a set byte-data flag needs bytes or the
      sentinel, and a clear one needs no bytes. */
  predicate ByteDataAgrees(e: TxUpdate) {
    if e.flags & HasByteData != 0 then !e.byteData.NoByteData? else e.byteData.NoByteData?
  }

  function UpdatedRow(row: TxRow, e: TxUpdate): TxRow {
    row.(
      byteData := match e.byteData
        case NoByteData => None
        case NewByteData(b) => Some(b)
        case UntouchedByteData => row.byteData,
      flags := ApplyMetadataFlags(e.flags, e.metadata),
      metadata := e.metadata.(dateAdded := row.metadata.dateAdded))
  }

  /** The columns `update` never writes. */
  function UpdateKept(row: TxRow): (Hash, Option<seq<byte>>, Option<string>, int) {
    (row.txHash, row.proofData, row.description, row.metadata.dateAdded)
  }

  /** `update`: rewrites the bytes, flags and metadata of the named rows. The whole batch is
      refused, before anything is written, when one entry's bytes disagree with its flag. */
  function UpdateTransactions(s: Store, entries: seq<TxUpdate>): (r: Result<Store, DbError>)
    ensures r.Ok? <==> forall i | 0 <= i < |entries| :: ByteDataAgrees(entries[i])
    ensures r.Err? ==> r.error == ByteDataFlagMismatch
    ensures r.Ok? ==> r.value == s.(transactions := r.value.transactions)
    ensures r.Ok? ==> r.value.transactions.Keys == s.transactions.Keys
    ensures r.Ok? ==> forall h | h in s.transactions && h !in KeysOf(entries, UpdateHash) ::
      r.value.transactions[h] == s.transactions[h]
    ensures r.Ok? ==> forall h | h in s.transactions ::
      UpdateKept(r.value.transactions[h]) == UpdateKept(s.transactions[h])
    ensures r.Ok? && DistinctKeys(entries, UpdateHash) ==>
      forall i | 0 <= i < |entries| && entries[i].txHash in s.transactions ::
        r.value.transactions[entries[i].txHash] == UpdatedRow(s.transactions[entries[i].txHash], entries[i])
    ensures r.Ok? && Consistent(s) ==> Consistent(r.value)
  {
    if exists i | 0 <= i < |entries| :: !ByteDataAgrees(entries[i]) then Err(ByteDataFlagMismatch)
    else
      var m := Update(s.transactions, entries, UpdateHash, UpdatedRow);
      UpdatePreserves(s.transactions, entries, UpdateHash, UpdatedRow, UpdateKept);
      TransactionsFrame(s, m);
      Ok(s.(transactions := m))
  }

  /** The row's byte-data flag is set exactly when it holds bytes. */
  predicate BytesMatchFlag(row: TxRow) {
    row.flags & HasByteData != 0 <==> row.byteData.Some?
  }

  /** An accepted update entry leaves the flag agreeing with the bytes, except when its sentinel
      keeps bytes the row never had: the flag is then set over no bytes. */
  lemma {:induction false} UpdateKeepsBytesMatchFlag(row: TxRow, e: TxUpdate)
    requires ByteDataAgrees(e)
    ensures BytesMatchFlag(UpdatedRow(row, e)) <==> !(e.byteData.UntouchedByteData? && row.byteData.None?)
  {
    var f := ApplyMetadataFlags(e.flags, e.metadata);
    assert f & HasByteData == e.flags & HasByteData by {
      assert f & !MetadataFieldMask == e.flags & !MetadataFieldMask;
    }
  }

  /** A created row's bytes always agree with its flag. */
  lemma CreatedRowBytesMatchFlag(e: TxCreate)
    ensures BytesMatchFlag(CreatedRow(e))
  {
  }

  /** With the sentinel the stored bytes survive the update. */
  lemma UntouchedKeepsBytes(row: TxRow, e: TxUpdate)
    requires e.byteData.UntouchedByteData?
    ensures UpdatedRow(row, e).byteData == row.byteData
  {
  }

  // ----- update_flags -----

  /** A `(tx_hash, flags, mask, date_updated)` entry of `update_flags`. */
  datatype TxFlagUpdate = TxFlagUpdate(txHash: Hash, flags: bv32, mask: bv32, dateUpdated: int)

  function FlagUpdateHash(e: TxFlagUpdate): Hash { e.txHash }

  function FlagUpdatedRow(row: TxRow, e: TxFlagUpdate): TxRow {
    row.(flags := MergeFlags(row.flags, e.flags, e.mask),
         metadata := row.metadata.(dateUpdated := e.dateUpdated))
  }

  /** A row without its flags and update time: what `update_flags` leaves alone. */
  function WithoutFlags(row: TxRow): TxRow {
    row.(flags := Unset, metadata := row.metadata.(dateUpdated := 0))
  }

  /** `update_flags`: merges each entry's `(flags, mask)` into the named row and stamps its
      update time; every other column and row stays as it was. */
  function UpdateTransactionFlags(s: Store, entries: seq<TxFlagUpdate>): (r: Store)
    ensures r == s.(transactions := r.transactions)
    ensures r.transactions.Keys == s.transactions.Keys
    ensures forall h | h in s.transactions && h !in KeysOf(entries, FlagUpdateHash) ::
      r.transactions[h] == s.transactions[h]
    ensures forall h | h in s.transactions :: WithoutFlags(r.transactions[h]) == WithoutFlags(s.transactions[h])
    ensures DistinctKeys(entries, FlagUpdateHash) ==>
      forall i | 0 <= i < |entries| && entries[i].txHash in s.transactions ::
        r.transactions[entries[i].txHash].flags
          == MergeFlags(s.transactions[entries[i].txHash].flags, entries[i].flags, entries[i].mask)
    ensures Consistent(s) ==> Consistent(r)
  {
    var m := Update(s.transactions, entries, FlagUpdateHash, FlagUpdatedRow);
    UpdatePreserves(s.transactions, entries, FlagUpdateHash, FlagUpdatedRow, WithoutFlags);
    UpdatePreserves(s.transactions, entries, FlagUpdateHash, FlagUpdatedRow, TxHashOf);
    TransactionsFrame(s, m);
    s.(transactions := m)
  }

  // ----- update_metadata -----

  /** A `(tx_hash, metadata, flags)` entry of `update_metadata`. The flags element is not
      consulted: the presence bits written follow the metadata itself. */
  datatype TxMetadataUpdate = TxMetadataUpdate(txHash: Hash, metadata: TxData, flags: bv32)

  function MetadataUpdateHash(e: TxMetadataUpdate): Hash { e.txHash }

  function MetadataUpdatedRow(row: TxRow, e: TxMetadataUpdate): TxRow {
    row.(metadata := e.metadata.(dateAdded := row.metadata.dateAdded),
         flags := ApplyMetadataFlags(row.flags, e.metadata))
  }

  /** What `update_metadata` leaves alone: every column but the metadata and the flags, whose
      bits outside the metadata zone it keeps too (see `ApplyMetadataFlags`). */
  function MetadataKept(row: TxRow): TxRow {
    row.(metadata := row.metadata.(height := None, fee := None, position := None, dateUpdated := 0),
         flags := Unset)
  }

  /** `update_metadata`: writes height, fee, position and update time, and sets the row's
      presence bits to match them; the state and byte/proof bits are kept. */
  function UpdateTransactionMetadata(s: Store, entries: seq<TxMetadataUpdate>): (r: Store)
    ensures r == s.(transactions := r.transactions)
    ensures r.transactions.Keys == s.transactions.Keys
    ensures forall h | h in s.transactions && h !in KeysOf(entries, MetadataUpdateHash) ::
      r.transactions[h] == s.transactions[h]
    ensures forall h | h in s.transactions :: MetadataKept(r.transactions[h]) == MetadataKept(s.transactions[h])
    ensures DistinctKeys(entries, MetadataUpdateHash) ==>
      forall i | 0 <= i < |entries| && entries[i].txHash in s.transactions ::
        var row := r.transactions[entries[i].txHash];
        && row.metadata.height == entries[i].metadata.height
        && row.metadata.fee == entries[i].metadata.fee
        && row.metadata.position == entries[i].metadata.position
        && row.flags == ApplyMetadataFlags(s.transactions[entries[i].txHash].flags, entries[i].metadata)
    ensures Consistent(s) ==> Consistent(r)
  {
    var m := Update(s.transactions, entries, MetadataUpdateHash, MetadataUpdatedRow);
    UpdatePreserves(s.transactions, entries, MetadataUpdateHash, MetadataUpdatedRow, MetadataKept);
    UpdatePreserves(s.transactions, entries, MetadataUpdateHash, MetadataUpdatedRow, TxHashOf);
    TransactionsFrame(s, m);
    s.(transactions := m)
  }

  // ----- update_proof and read_proof -----

  /** A `(tx_hash, proof, date_updated)` entry of `update_proof`. */
  datatype TxProofUpdate = TxProofUpdate(txHash: Hash, proof: TxProof, dateUpdated: int)

  function ProofUpdateHash(e: TxProofUpdate): Hash { e.txHash }

  function ProofUpdatedRow(row: TxRow, e: TxProofUpdate): TxRow {
    row.(proofData := PackProof(e.proof),
         flags := row.flags | HasProofData,
         metadata := row.metadata.(dateUpdated := e.dateUpdated))
  }

  function WithoutProof(row: TxRow): TxRow {
    row.(proofData := None, flags := Unset, metadata := row.metadata.(dateUpdated := 0))
  }

  /** `update_proof`: stores each packed proof, sets the proof-presence bit and stamps the
      update time. A proof the codec cannot pack refuses the batch. */
  function UpdateTransactionProofs(s: Store, entries: seq<TxProofUpdate>): (r: Result<Store, DbError>)
    ensures r.Ok? <==> forall i | 0 <= i < |entries| :: Encodable(entries[i].proof)
    ensures r.Err? ==> r.error == ProofNotEncodable
    ensures r.Ok? ==> r.value == s.(transactions := r.value.transactions)
    ensures r.Ok? ==> r.value.transactions.Keys == s.transactions.Keys
    ensures r.Ok? ==> forall h | h in s.transactions && h !in KeysOf(entries, ProofUpdateHash) ::
      r.value.transactions[h] == s.transactions[h]
    ensures r.Ok? ==> forall h | h in s.transactions ::
      WithoutProof(r.value.transactions[h]) == WithoutProof(s.transactions[h])
    ensures r.Ok? && DistinctKeys(entries, ProofUpdateHash) ==>
      forall i | 0 <= i < |entries| && entries[i].txHash in s.transactions ::
        && r.value.transactions[entries[i].txHash].proofData == PackProof(entries[i].proof)
        && r.value.transactions[entries[i].txHash].flags == s.transactions[entries[i].txHash].flags | HasProofData
    ensures r.Ok? && Consistent(s) ==> Consistent(r.value)
  {
    if exists i | 0 <= i < |entries| :: !Encodable(entries[i].proof) then Err(ProofNotEncodable)
    else
      var m := Update(s.transactions, entries, ProofUpdateHash, ProofUpdatedRow);
      UpdatePreserves(s.transactions, entries, ProofUpdateHash, ProofUpdatedRow, WithoutProof);
      UpdatePreserves(s.transactions, entries, ProofUpdateHash, ProofUpdatedRow, TxHashOf);
      TransactionsFrame(s, m);
      Ok(s.(transactions := m))
  }

  /** `read_proof`: the stored proofs of the listed hashes; a hash that is not stored, has no
      proof, or whose proof does not unpack is left out. */
  function ReadProofs(s: Store, hashes: seq<Hash>): (r: map<Hash, TxProof>)
    ensures forall h | h in r :: h in hashes && h in s.transactions && s.transactions[h].proofData.Some?
    ensures forall h | h in r :: UnpackProof(s.transactions[h].proofData.value) == Some(r[h])
    ensures forall h | h in hashes && h in s.transactions && s.transactions[h].proofData.Some? ::
      UnpackProof(s.transactions[h].proofData.value).Some? ==> h in r
  {
    map h | h in hashes && h in s.transactions && s.transactions[h].proofData.Some?
            && UnpackProof(s.transactions[h].proofData.value).Some?
      :: UnpackProof(s.transactions[h].proofData.value).value
  }

  /** A proof written by `update_proof` reads back unchanged. */
  lemma {:induction false} ProofReadBack(s: Store, e: TxProofUpdate)
    requires e.txHash in s.transactions
    requires Encodable(e.proof)
    ensures UpdateTransactionProofs(s, [e]).Ok?
    ensures ReadProofs(UpdateTransactionProofs(s, [e]).value, [e.txHash]) == map[e.txHash := e.proof]
  {
    SingleProofStored(s, e);
    StoredProofReads(UpdateTransactionProofs(s, [e]).value, e.txHash, e.proof);
  }

  /** A one-entry `update_proof` of a stored hash stores that proof's packed form. */
  lemma SingleProofStored(s: Store, e: TxProofUpdate)
    requires e.txHash in s.transactions
    requires Encodable(e.proof)
    ensures UpdateTransactionProofs(s, [e]).Ok?
    ensures e.txHash in UpdateTransactionProofs(s, [e]).value.transactions
    ensures UpdateTransactionProofs(s, [e]).value.transactions[e.txHash].proofData == PackProof(e.proof)
  {
    assert DistinctKeys([e], ProofUpdateHash);
  }

  /** A hash holding a packed proof reads back as exactly that proof. */
  lemma StoredProofReads(t: Store, h: Hash, p: TxProof)
    requires Encodable(p)
    requires h in t.transactions && t.transactions[h].proofData == PackProof(p)
    ensures ReadProofs(t, [h]) == map[h := p]
  {
    ProofRoundTrip(p);
    var got := ReadProofs(t, [h]);
    assert h in got;
    assert got.Keys == {h};
  }

  /** Reading the proof of a hash that is not stored yields nothing. */
  lemma AbsentProofReadsNothing(s: Store, h: Hash)
    requires h !in s.transactions
    ensures ReadProofs(s, [h]) == map[]
  {
  }

  // ----- descriptions -----

  /** A `(description, tx_hash)` entry of `update_descriptions`. */
  datatype TxDescriptionUpdate = TxDescriptionUpdate(description: Option<string>, txHash: Hash)

  function DescriptionUpdateHash(e: TxDescriptionUpdate): Hash { e.txHash }

  function DescribedRow(row: TxRow, e: TxDescriptionUpdate): TxRow {
    row.(description := e.description)
  }

  function WithoutDescription(row: TxRow): TxRow {
    row.(description := None)
  }

  /** `update_descriptions`: sets or, with `None`, clears each named row's description. */
  function UpdateTransactionDescriptions(s: Store, entries: seq<TxDescriptionUpdate>): (r: Store)
    ensures r == s.(transactions := r.transactions)
    ensures r.transactions.Keys == s.transactions.Keys
    ensures forall h | h in s.transactions :: WithoutDescription(r.transactions[h]) == WithoutDescription(s.transactions[h])
    ensures DistinctKeys(entries, DescriptionUpdateHash) ==>
      forall i | 0 <= i < |entries| && entries[i].txHash in s.transactions ::
        r.transactions[entries[i].txHash].description == entries[i].description
    ensures Consistent(s) ==> Consistent(r)
  {
    var m := Update(s.transactions, entries, DescriptionUpdateHash, DescribedRow);
    UpdatePreserves(s.transactions, entries, DescriptionUpdateHash, DescribedRow, WithoutDescription);
    UpdatePreserves(s.transactions, entries, DescriptionUpdateHash, DescribedRow, TxHashOf);
    TransactionsFrame(s, m);
    s.(transactions := m)
  }

  /** `read_descriptions`: the non-null descriptions of the selected rows. */
  function ReadTransactionDescriptions(s: Store, hashes: Option<seq<Hash>>): (r: map<Hash, string>)
    ensures forall h | h in r :: h in s.transactions && s.transactions[h].description == Some(r[h])
    ensures forall h | h in s.transactions && Selected(h, hashes) ::
      h in r <==> s.transactions[h].description.Some?
    ensures forall h | h in r :: Selected(h, hashes)
  {
    map h | h in s.transactions && Selected(h, hashes) && s.transactions[h].description.Some?
      :: s.transactions[h].description.value
  }

  // ----- read -----

  /** `read` and `read_metadata`: the stored rows that pass the flag filter and, when given, the
      hash list. */
  function ReadTransactions(s: Store, filter: FlagFilter, hashes: Option<seq<Hash>>): (r: map<Hash, TxRow>)
    ensures r.Keys <= s.transactions.Keys
    ensures forall h | h in r :: r[h] == s.transactions[h]
    ensures forall h | h in s.transactions ::
      h in r <==> Selected(h, hashes) && Matches(s.transactions[h].flags, filter)
  {
    map h | h in s.transactions && Selected(h, hashes) && Matches(s.transactions[h].flags, filter)
      :: s.transactions[h]
  }

  // ----- delete -----

  /** Whether an output or a delta still refers to one of the hashes in `gone`. */
  predicate TransactionsReferenced(s: Store, gone: set<Hash>) {
    || (exists k | k in s.txOutputs :: s.txOutputs[k].txHash in gone)
    || (exists k | k in s.txDeltas :: s.txDeltas[k].txHash in gone)
  }

  /** Deletes transactions; refused while an output or delta refers to one of them. */
  function DeleteTransactions(s: Store, hashes: seq<Hash>): (r: Result<Store, DbError>)
    requires Consistent(s)
    ensures r.Ok? ==> Consistent(r.value)
    ensures r.Ok? ==> r.value == s.(transactions := r.value.transactions)
    ensures r.Ok? ==> r.value.transactions == Remove(s.transactions, hashes)
    ensures r.Ok? <==> !TransactionsReferenced(s, set h | h in hashes)
  {
    Checked(s.(transactions := Remove(s.transactions, hashes)))
  }
}
