# ElectrumSV wallet ledger tables and BIP 270 invoices, in Dafny

This project models two sequential parts of the ElectrumSV wallet.

**The wallet database tables.** These are master keys, accounts, key instances, transactions,
transaction outputs, transaction deltas, payment requests and wallet events. The store is plain
data: one map per table, keyed by primary key (`Schema.Store`).

- Every write is a batch function from store to `Result<Store, DbError>`.
- A batch that breaks a primary key, a foreign key or an argument check is refused whole. The
  store is then left exactly as it was.
- Transaction flags are `bv32` values. The model covers the `(flags, mask)` read filter, the
  masked `update_flags` merge and the field-presence bits that `create`, `update` and
  `update_metadata` derive from the metadata columns.
- Merkle proofs are stored in a compact byte form (`ProofCodec`).
- The writer thread becomes `Writer`: jobs commit one at a time, in order, and each reports
  its own outcome.

The table implementation `electrumsv/wallet_database/tables.py` is not part of this model.
Its behaviour is taken from the assertions of `electrumsv/tests/test_wallet_database_tables.py`,
which is the file the table rows below cite.

**The BIP 270 messages and the invoice store** (`electrumsv/paymentrequest.py`):

- `Output`, `PaymentRequest`, `Payment` and `PaymentACK`. Each is read from and written to a
  JSON value datatype (`Json.Json`), with the field checks in the order each `from_dict` and
  `from_json` makes them.
- `send_payment`, with the HTTP exchange passed in as a function.
- `InvoiceStore`: the invoice map, the reverse index from paying transaction to invoice, and
  invoice status.

## Model

| member | source | states |
|---|---|---|
| TableOps.Insert | electrumsv/tests/test_wallet_database_tables.py:71-84 | A batch insert is refused when a row's key is already stored or repeats an earlier row's key. Otherwise the table gains exactly the batch's keys, keeps every stored row, and each new row sits under its own key. |
| TableOps.Update | electrumsv/tests/test_wallet_database_tables.py:86-101 | A targeted update keeps the key set and leaves rows no entry names untouched. With distinct targets, each named row becomes the entry applied to its old value. |
| TableOps.UpdatePreserves | electrumsv/tests/test_wallet_database_tables.py:251-270 | A part of a row that no entry ever writes keeps its value in every row, whatever the batch. |
| TableOps.Remove | electrumsv/tests/test_wallet_database_tables.py:492-511 | A delete removes exactly the listed keys; unknown keys are ignored and the other rows are unchanged. |
| FlagMasks.MergeFlags | electrumsv/tests/test_wallet_database_tables.py:465-489 | After `update_flags`, every bit of `flags` is set. Every other bit is set only if it was stored and lies inside the mask. |
| FlagMasks.MergeWithEmptyMask | electrumsv/tests/test_wallet_database_tables.py:479-489 | A mask of 0 replaces the stored flags by exactly `flags`. |
| FlagMasks.MergeWithinMask | electrumsv/tests/test_wallet_database_tables.py:465-477 | When all stored bits lie inside the mask, the update only adds `flags`. |
| FlagMasks.ZonesDisjoint | electrumsv/tests/test_wallet_database_tables.py:465-477 | A mask made of field-presence, byte-data and proof bits shares no bit with the state mask, so received state can be ORed in while presence bits are kept. |
| FlagMasks.Matches | electrumsv/tests/test_wallet_database_tables.py:613-643 | Without a filter every row passes. A row with no bit set is found only without a filter or by a two-part filter whose flags are zero. A row found by a two-part filter carries every flag of that filter. |
| FlagMasks.FullFilterMeaning | electrumsv/tests/test_wallet_database_tables.py:632-643 | When the flags of a two-part filter have a bit outside its mask, no row matches. |
| FlagMasks.UpdatedRowMatches | electrumsv/tests/test_wallet_database_tables.py:465-477 | A row written by a masked `update_flags` is found by a flags-only read for any of the written flags. |
| FlagMasks.ReplacedRowMatches | electrumsv/tests/test_wallet_database_tables.py:479-489 | A row written with a zero mask is found by a two-part read over any mask, with the written flags' part inside that mask as the flags. |
| ProofCodec.PackProof | electrumsv/tests/test_wallet_database_tables.py:315-320 | A proof packs if and only if its position, branch count and hash lengths fit 64-bit varints. The packed form holds at least one byte per hash plus two header bytes. |
| ProofCodec.UnpackProof | electrumsv/tests/test_wallet_database_tables.py:315-320 | Whatever unpacks has a non-negative position and a branch count that fits a varint. |
| ProofCodec.ReadVarInt | electrumsv/tests/test_wallet_database_tables.py:315-320 | A varint is read if and only if the input holds its marker and the full payload the marker announces. The rest of the input follows it untouched. |
| ProofCodec.VarIntRoundTrip | electrumsv/tests/test_wallet_database_tables.py:315-320 | Reading a packed varint gives back the number and the bytes after it. |
| ProofCodec.HashesRoundTrip | electrumsv/tests/test_wallet_database_tables.py:315-320 | Reading back a packed list of length-prefixed hashes gives the same hashes and the trailing bytes. |
| ProofCodec.ProofRoundTrip | electrumsv/tests/test_wallet_database_tables.py:315-320 | Unpacking a packed proof returns the same position and the same branch. |
| ProofCodec.EmptyRejected | electrumsv/tests/test_wallet_database_tables.py:315-320 | An empty byte string is not a proof. |
| KeyTables.CreateMasterKeys | electrumsv/tests/test_wallet_database_tables.py:60-84 | A repeated key gives a primary-key violation. Otherwise the batch succeeds if and only if every parent resolves within the store plus the batch (the check is made once after the whole batch). On success only the master-key table changes: old rows are kept and each new row is stored under its id. |
| KeyTables.UpdateMasterKeyDerivationData | electrumsv/tests/test_wallet_database_tables.py:86-101 | Only the derivation data of the named master keys changes, to the given bytes. Every other column, row and table stays the same, and consistency is kept. |
| KeyTables.DeleteMasterKeys | electrumsv/tests/test_wallet_database_tables.py:93-101 | The delete succeeds if and only if no surviving master key, account or key instance refers to a deleted id. On success exactly the listed rows go. |
| KeyTables.CreateAccounts | electrumsv/tests/test_wallet_database_tables.py:114-151 | A repeated id gives a primary-key violation. Otherwise the batch succeeds if and only if every default master key is stored, and stores each new row under its id. |
| KeyTables.UpdateAccountMasterKey | electrumsv/tests/test_wallet_database_tables.py:153-170 | Only the default master key and script type of the named accounts change. With distinct targets, the batch succeeds if and only if each new master key resolves. |
| KeyTables.UpdateResolves | electrumsv/tests/test_wallet_database_tables.py:153-170 | After `update_masterkey`, every account's master key resolves when the stored ones and the entries' ones did. |
| KeyTables.UpdateAccountName | electrumsv/tests/test_wallet_database_tables.py:160-172 | Only the names of the named accounts change, to the given names. |
| KeyTables.DeleteAccounts | electrumsv/tests/test_wallet_database_tables.py:173-180 | The delete succeeds if and only if no key instance or wallet event refers to a deleted account. On success exactly the listed rows go. |
| KeyTables.CreateKeyInstances | electrumsv/tests/test_wallet_database_tables.py:197-249 | A repeated id gives a primary-key violation. Otherwise the batch succeeds if and only if every row's account is stored and its master key resolves. |
| KeyTables.UpdateKeyInstanceDerivationData | electrumsv/tests/test_wallet_database_tables.py:251-268 | Only the derivation data of the named key instances changes. |
| KeyTables.UpdateKeyInstanceActive | electrumsv/tests/test_wallet_database_tables.py:258-270 | Only the active flag of the named key instances changes. |
| KeyTables.UpdateKeyInstanceDescriptions | electrumsv/tests/test_wallet_database_tables.py:282-291 | Only the description of the named key instances changes; `None` clears it. |
| KeyTables.DeleteKeyInstances | electrumsv/tests/test_wallet_database_tables.py:272-280 | The delete succeeds if and only if no output, delta or payment request refers to a deleted key. On success exactly the listed rows go. |
| TransactionTable.ApplyMetadataFlags | electrumsv/tests/test_wallet_database_tables.py:574-610 | The flags `update_metadata` writes have the height, fee and position presence bits each set exactly when that column is present. Every bit outside the metadata zone is as the caller gave it. |
| TransactionTable.CreateFlags | electrumsv/tests/test_wallet_database_tables.py:323-334 | A created row has the byte-data bit set exactly when bytes were supplied. Its presence bits follow its metadata columns, and its state bits are the caller's. |
| TransactionTable.CreateTransactions | electrumsv/tests/test_wallet_database_tables.py:341-354 | A create succeeds if and only if the hashes are fresh and distinct. Then exactly the created hashes are added, each holding its derived row, and old rows are kept. |
| TransactionTable.UpdateTransactions | electrumsv/tests/test_wallet_database_tables.py:357-384 | The batch is refused if and only if some entry's bytes disagree with its byte-data flag. Otherwise named rows get the new bytes, flags and metadata. Hash, proof, description and date added are never touched, and unnamed rows are unchanged. |
| TransactionTable.UpdateKeepsBytesMatchFlag | electrumsv/tests/test_wallet_database_tables.py:386-448 | For an entry that passes the argument check, the updated row's byte-data flag is set exactly when it has bytes, unless the entry's sentinel keeps the bytes of a row that has none: then the flag is set over no bytes. |
| TransactionTable.CreatedRowBytesMatchFlag | electrumsv/tests/test_wallet_database_tables.py:323-338 | A created row's byte-data flag is set exactly when it has bytes. |
| TransactionTable.UntouchedKeepsBytes | electrumsv/tests/test_wallet_database_tables.py:429-448 | An update with the untouched-bytes sentinel keeps the stored bytes. |
| TransactionTable.UpdateTransactionFlags | electrumsv/tests/test_wallet_database_tables.py:451-489 | Each named row's flags become the masked merge of its old flags and the entry. Only flags and update time change. |
| TransactionTable.UpdateTransactionMetadata | electrumsv/tests/test_wallet_database_tables.py:574-610 | Named rows get the new height, fee and position, with presence bits matching them. Other flag bits and every other column stay. |
| TransactionTable.UpdateTransactionProofs | electrumsv/tests/test_wallet_database_tables.py:655-662 | The batch is refused if and only if a proof cannot be packed. Otherwise each named row stores its packed proof and gains the proof bit, and nothing else changes but the update time. |
| TransactionTable.ReadProofs | electrumsv/tests/test_wallet_database_tables.py:664-670 | `read_proof` returns exactly the listed, stored hashes whose stored proof unpacks, each with that unpacked proof. |
| TransactionTable.ProofReadBack | electrumsv/tests/test_wallet_database_tables.py:646-670 | A proof written by `update_proof` reads back as the same proof. |
| TransactionTable.AbsentProofReadsNothing | electrumsv/tests/test_wallet_database_tables.py:664-665 | Reading the proof of a hash that is not stored returns nothing. |
| TransactionTable.UpdateTransactionDescriptions | electrumsv/tests/test_wallet_database_tables.py:688-700 | Only the descriptions of the named rows change; `None` clears one. |
| TransactionTable.ReadTransactionDescriptions | electrumsv/tests/test_wallet_database_tables.py:693-708 | Returns exactly the selected rows with a description, each with its description. A listed hash that is not stored matches nothing. |
| TransactionTable.ReadTransactions | electrumsv/tests/test_wallet_database_tables.py:613-643 | A stored row is returned, unchanged, if and only if it passes the hash list and the flag filter. Unknown hashes are dropped. |
| TransactionTable.DeleteTransactions | electrumsv/tests/test_wallet_database_tables.py:492-511 | The delete succeeds if and only if no output or delta refers to a deleted hash. On success exactly the listed rows go. |
| OutputTables.CreateTxOutputs | electrumsv/tests/test_wallet_database_tables.py:729-791 | A repeated key gives a primary-key violation. Otherwise the batch succeeds if and only if every row's transaction and key instance are stored. |
| OutputTables.UpdateTxOutputFlags | electrumsv/tests/test_wallet_database_tables.py:793-804 | Named outputs get exactly the given flags; every other column and row stays. |
| OutputTables.ReadTxOutputs | electrumsv/tests/test_wallet_database_tables.py:786-812 | A stored output is returned if and only if its flags pass the filter. |
| OutputTables.ReadWithoutSpentMask | electrumsv/tests/test_wallet_database_tables.py:806-808 | The masked read as written returns a stored output, unchanged, if and only if it has a set bit other than the spent bit. |
| OutputTables.MaskedReadMissesClearOutput | electrumsv/tests/test_wallet_database_tables.py:806-808 | An unspent output whose flags are all clear is missing from the masked read. |
| OutputTables.UnspentOutputs | electrumsv/tests/test_wallet_database_tables.py:806-808 | Returns exactly the stored outputs whose spent bit is clear. |
| OutputTables.SpentOutputs | electrumsv/tests/test_wallet_database_tables.py:810-812 | Returns exactly the stored outputs whose spent bit is set. |
| OutputTables.SpentUnspentPartition | electrumsv/tests/test_wallet_database_tables.py:806-812 | Every stored output is in exactly one of the spent and unspent reads. |
| OutputTables.DeleteTxOutputs | electrumsv/tests/test_wallet_database_tables.py:814-820 | Exactly the listed outputs go; nothing else changes and consistency is kept. |
| OutputTables.CreateTxDeltas | electrumsv/tests/test_wallet_database_tables.py:844-905 | A repeated key gives a primary-key violation. Otherwise the batch succeeds if and only if every row's transaction and key instance are stored. |
| OutputTables.UpdateTxDeltas | electrumsv/tests/test_wallet_database_tables.py:907-917 | Named deltas get exactly the given value; every other column and row stays. |
| OutputTables.AddRelative | electrumsv/tests/test_wallet_database_tables.py:919-931 | After the upsert, each key holds its previous value (zero if absent) plus every delta the batch carries for it. The key set becomes the old keys plus the batch's. |
| OutputTables.CreateOrUpdateRelativeValues | electrumsv/tests/test_wallet_database_tables.py:919-931 | The upsert succeeds if and only if every row's transaction and key instance are stored, and then stores the accumulated deltas. |
| OutputTables.DeleteTxDeltas | electrumsv/tests/test_wallet_database_tables.py:933-939 | Exactly the listed deltas go. |
| OutputTables.ReadDeltaDescriptions | electrumsv/tests/test_wallet_database_tables.py:941-943 | Returns the described transactions that have a delta on a key of the account, each with its description, and no others. |
| RequestTables.CreatePaymentRequests | electrumsv/tests/test_wallet_database_tables.py:967-1016 | A repeated id gives a primary-key violation. Otherwise the batch succeeds if and only if every row's key instance is stored. |
| RequestTables.UpdatePaymentRequests | electrumsv/tests/test_wallet_database_tables.py:1018-1034 | Named requests get the given state, value, expiration and description. Their id, key and creation time stay, and unnamed rows are unchanged. |
| RequestTables.ReadPaymentRequests | electrumsv/tests/test_wallet_database_tables.py:1036-1042 | Without an account, returns every request. With one, returns exactly the requests whose key instance belongs to that account. |
| RequestTables.UnknownAccountReadsNothing | electrumsv/tests/test_wallet_database_tables.py:1036-1038 | An account that owns no key instance reads no requests. |
| RequestTables.DeletePaymentRequests | electrumsv/tests/test_wallet_database_tables.py:1044-1050 | Exactly the listed requests go. |
| RequestTables.CreateWalletEvents | electrumsv/tests/test_wallet_database_tables.py:1062-1103 | A repeated id gives a primary-key violation. Otherwise the batch succeeds if and only if every event's account is null or stored. |
| RequestTables.UpdateWalletEventFlags | electrumsv/tests/test_wallet_database_tables.py:1105-1117 | Named events get exactly the given flags. |
| RequestTables.ReadWalletEvents | electrumsv/tests/test_wallet_database_tables.py:1119-1125 | Without an account, returns every event. With one, returns exactly the events tied to that account; wallet-wide events are excluded. |
| RequestTables.DeleteWalletEvents | electrumsv/tests/test_wallet_database_tables.py:1127-1133 | Exactly the listed events go. |
| Writer.Execute | electrumsv/tests/test_wallet_database_tables.py:739-791 | Every job run on a consistent store leaves a consistent store when it succeeds. |
| Writer.Submit | electrumsv/tests/test_wallet_database_tables.py:780-791 | A job fails if and only if its batch is refused, and a failed job leaves the store exactly as it was. |
| Writer.RunAll | electrumsv/tests/test_wallet_database_tables.py:770-791 | Jobs run in order give one outcome per job and always leave a consistent store. |
| Writer.RunJobs | electrumsv/tests/test_wallet_database_tables.py:770-791 | The writer loop commits the jobs one by one and ends where running them in order ends, with one outcome per job. |
| Writer.FailedJobInvisible | electrumsv/tests/test_wallet_database_tables.py:780-791 | A failed job changes nothing later jobs see: the final store is the same as without it. |
| Scenarios.DispatchedStateSurvivesCreate | electrumsv/tests/test_wallet_database_tables.py:323-334 | A transaction created in the dispatched state reads back dispatched under the state mask. |
| Scenarios.UpdateFlagsSequence | electrumsv/tests/test_wallet_database_tables.py:451-489 | Creating with height, fee and bytes gives exactly those presence bits. A presence-bit mask then adds the received state, and a zero mask leaves only the received state. |
| Scenarios.ReadFilterCases | electrumsv/tests/test_wallet_database_tables.py:632-643 | The four asserted filter cases on a row created with a fee: three match and flags Unset with mask HasFee does not. |
| Scenarios.RelativeDeltaCase | electrumsv/tests/test_wallet_database_tables.py:919-931 | A stored 20 plus 200 gives 220, and an absent key is inserted with its 999. |
| Scenarios.SpendingMovesOutput | electrumsv/tests/test_wallet_database_tables.py:793-812 | Marking an output spent moves it from the unspent read to the spent read. |
| Scenarios.RequestChainCreates | electrumsv/tests/test_wallet_database_tables.py:979-1003 | Creating a master key, an account on it, a key instance of the account, then a request on that key each succeed. |
| Json.Get | electrumsv/paymentrequest.py:88-94 | `d.get(key)` finds a value if and only if the key is present and not null, and then it is the stored value. |
| Json.DumpedLength | electrumsv/paymentrequest.py:73-74 | A string dumped to JSON is never shorter than its length plus the quotes, and at most twelve characters per character. |
| Json.PlainDumpedLength | electrumsv/paymentrequest.py:73-74 | A string of plain printable characters dumps to itself in quotes. |
| Hex.HexEncode | electrumsv/paymentrequest.py:100 | `to_hex` writes two hex digits per byte. |
| Hex.HexDecode | electrumsv/paymentrequest.py:96 | What `from_hex` decodes has at most one byte per two characters. |
| Hex.HexRoundTrip | electrumsv/paymentrequest.py:96-100 | Decoding the hex a script was written as gives the same bytes. |
| Hex.StrayCharacterRejected | electrumsv/paymentrequest.py:96 | Text with a character that is neither a hex digit nor whitespace does not decode. |
| Bip270.NewOutput | electrumsv/paymentrequest.py:68-77 | An output is built if and only if its description, dumped to JSON, is at most 100 characters; otherwise the description is too long. |
| Bip270.ShortPlainDescriptionFits | electrumsv/paymentrequest.py:71-76 | Whatever the script and amount, an output with a description of up to 98 plain characters is built as given. |
| Bip270.LongDescriptionRejected | electrumsv/paymentrequest.py:71-76 | A description of more than 98 characters is always refused. |
| Bip270.OutputFromValue | electrumsv/paymentrequest.py:83-96 | A non-object or an object without `script` is refused with that reason. An accepted output's script is the hex decoding of the `script` string, and its description fits. |
| Bip270.OutputFromValueAccepts | electrumsv/paymentrequest.py:83-96 | An output dictionary is accepted if and only if it has a hex `script`, an optional int `amount` and an optional str `description` that fits. |
| Bip270.OutputToValue | electrumsv/paymentrequest.py:98-106 | `to_dict` always writes the script as hex. It writes the amount exactly when it is nonzero and the description exactly when it is not empty, and no other key. |
| Bip270.OutputRoundTrip | electrumsv/paymentrequest.py:83-106 | Writing an output and reading it back gives it again, except that a zero amount and an empty description come back as `None`. |
| Bip270.OutputsFromValues | electrumsv/paymentrequest.py:171-173 | An output list is accepted if and only if every entry is. Then the result has one output per entry, in order. |
| Bip270.OutputsRoundTrip | electrumsv/paymentrequest.py:171-208 | A list of fitting outputs reads back as the same list with falsy amounts and descriptions dropped. |
| Bip270.RequestFromValue | electrumsv/paymentrequest.py:160-203 | A non-object is refused, and so is a network other than "bitcoin". An accepted request has a fresh id, no requestor and no payment. Its outputs are the decoded `outputs` entries and its creation time the given int. Its expiration is an optional int, and its memo, payment URL and merchant data are optional strs, each as given. |
| Bip270.RequestFromValueAccepts | electrumsv/paymentrequest.py:160-203 | A parsed request is accepted if and only if it is an object on network "bitcoin" with an `outputs` list of acceptable outputs and an int `creationTimestamp`. Its `expirationTimestamp` must be absent, null or an int, and `memo`, `paymentUrl` and `merchantData` absent, null or strs. |
| Bip270.RequestFromJson | electrumsv/paymentrequest.py:155-160 | Text over 10,000,000 characters is refused before parsing, and text that does not parse is refused. Otherwise the parsed value decides. |
| Bip270.RequestToValue | electrumsv/paymentrequest.py:205-218 | The dumped object always holds network, outputs and creation time. It holds expiration, memo, payment URL and merchant data each exactly when set, and no other key. |
| Bip270.RequestToValueFields | electrumsv/paymentrequest.py:205-218 | `to_json` writes network "bitcoin", the outputs and the creation time, and the optional fields with their values as the reader looks them up. |
| Bip270.RequestRoundTrip | electrumsv/paymentrequest.py:155-218 | A request written and read back keeps its timestamps, memo, payment URL, merchant data and outputs. Only falsy output fields are dropped; the id is fresh and requestor and payment are cleared. |
| Bip270.RequestJsonRoundTrip | electrumsv/paymentrequest.py:155-218 | The same through text, for a JSON codec that reads back what it writes and a text within the size limit. |
| Bip270.HasExpired | electrumsv/paymentrequest.py:227-228 | A missing or zero expiry never passes. A set expiry has passed exactly when the time is beyond it. |
| Bip270.ExpiryIsPermanent | electrumsv/paymentrequest.py:227-228 | Once a request has expired it stays expired at every later time. |
| Bip270.GetAmount | electrumsv/paymentrequest.py:233-234 | The amount is defined if and only if every output has one. |
| Bip270.GetAmountSingle | electrumsv/paymentrequest.py:233-234 | The amount of one output is that output's amount. |
| Bip270.GetAmountIsTotal | electrumsv/paymentrequest.py:233-234 | When every output has an amount, the amount is their total, counted independently from the last output back. |
| Bip270.GetAmountAppend | electrumsv/paymentrequest.py:233-234 | The amount of two output lists together is defined exactly when both are, and is their sum. |
| Bip270.GetId | electrumsv/paymentrequest.py:258-259 | A request with a requestor is known by its random id. Without one it is known by the encoded script of its first output, and has no id when it has no output. |
| Bip270.RereadKeepsId | electrumsv/paymentrequest.py:236-259 | An unsigned request keeps its id through a JSON trip. |
| Bip270.FromWalletEntry | electrumsv/paymentrequest.py:145-153 | The invoice for a wallet request pays its value to the key's script, carries its description as memo, and expires its lifetime after its creation time. |
| Bip270.WalletEntryAmount | electrumsv/paymentrequest.py:148-152 | That invoice asks for exactly the request's value. |
| Bip270.WalletEntryExpiry | electrumsv/paymentrequest.py:149-151 | It has expired exactly when creation time plus lifetime is nonzero and has passed. |
| Payment.PaymentFromValue | electrumsv/paymentrequest.py:333-356 | A missing `merchantData` is refused. An accepted payment carries the merchant data as given, the `transaction` string, the decoded `refundTo` outputs and the optional str `memo`. |
| Payment.PaymentFromValueAccepts | electrumsv/paymentrequest.py:333-356 | A payment dictionary is accepted if and only if it has `merchantData`, a str `transaction` and a `refundTo` list of acceptable outputs, and its `memo` is absent, null or a str. |
| Payment.PaymentFromJson | electrumsv/paymentrequest.py:368-373 | Text over 10,000,000 characters or text that does not parse is refused; otherwise the parsed value decides. |
| Payment.PaymentToValue | electrumsv/paymentrequest.py:358-366 | The written object always holds merchant data, transaction and refund outputs. It holds the memo exactly when it is not empty, and no other key. |
| Payment.PaymentToValueFields | electrumsv/paymentrequest.py:358-366 | `to_dict` writes merchant data, transaction and refund outputs, and the memo only when it is not empty. |
| Payment.PaymentRoundTrip | electrumsv/paymentrequest.py:333-366 | A payment written and read back is the same payment, except that an empty memo and falsy output fields come back as `None`. |
| Payment.PaymentJsonRoundTrip | electrumsv/paymentrequest.py:358-376 | The same through text, within the size limit. |
| Payment.AckFromValue | electrumsv/paymentrequest.py:394-404 | A missing `payment` is refused. An accepted ACK's payment is what its `payment` text parses to, and its memo is the optional str `memo`. |
| Payment.AckFromJson | electrumsv/paymentrequest.py:410-415 | Text over 11,000,000 characters or text that does not parse is refused. |
| Payment.AckToValue | electrumsv/paymentrequest.py:386-392 | The written ACK always holds the payment as a JSON string. It holds the memo exactly when it is not empty, and no other key. |
| Payment.AckToValueFields | electrumsv/paymentrequest.py:386-392 | `to_dict` writes the payment as its JSON text, and the memo only when it is not empty. |
| Payment.AckJsonRoundTrip | electrumsv/paymentrequest.py:386-415 | An ACK written and read back holds the same payment and memo, up to falsy fields. |
| Payment.NestedPaymentObjectRejected | electrumsv/paymentrequest.py:403 | An ACK whose `payment` is an object rather than JSON text is refused, even when the object is a valid payment. |
| Transport.PaymentFor | electrumsv/paymentrequest.py:270-275 | The payment sent carries the request's merchant data, the transaction and one refund output with no amount, under the fixed memo. |
| Transport.SentPaymentReadsBack | electrumsv/paymentrequest.py:274-278 | The merchant reads back exactly the payment the wallet built. |
| Transport.SendPayment | electrumsv/paymentrequest.py:264-297 | With no payment URL the result is (False, "no url"). Success holds if and only if there is an answer with status 200 whose body is a valid ACK. Every failure carries a message. |
| Transport.SendPaymentMessages | electrumsv/paymentrequest.py:277-297 | The failure messages are fixed by case. No answer gives the failure message; 400 gives reason plus body; another non-200 status gives the reason; an unreadable ACK gives the "payment was sent" message. An ACK gives (True, its memo). |
| Transport.AcknowledgedMemoShown | electrumsv/paymentrequest.py:290-297 | A merchant that answers 200 with a well-formed ACK gets its memo shown. |
| Invoices.Put | electrumsv/paymentrequest.py:468 | `paid[tx] = id` makes `tx` map to `id`, leaves every other transaction's entry alone and adds `tx` to the keys. |
| Invoices.PutKeepsDistinct | electrumsv/paymentrequest.py:461-468 | The reverse index never holds a transaction twice. |
| Invoices.PopFirst | electrumsv/paymentrequest.py:521-526 | The remove loop drops exactly the first entry naming the invoice, if there is one: the result is the index with that one entry cut out. |
| Invoices.Snapshot | electrumsv/paymentrequest.py:495-502 | What `save` writes has one record per invoice, holding its requestor and its paying transaction. |
| Invoices.Save | electrumsv/paymentrequest.py:495-502 | After `save` the stored copy agrees with the invoices, which are unchanged. |
| Invoices.Get | electrumsv/paymentrequest.py:530-531 | `get` finds an invoice if and only if its id is filed. |
| Invoices.Add | electrumsv/paymentrequest.py:515-519 | `add` files the request under its id and returns that id; other ids and the reverse index are untouched, and the store is saved. It fails only when the id cannot be computed. |
| Invoices.SetPaid | electrumsv/paymentrequest.py:466-468 | `set_paid` marks the invoice paid by `tx` and maps `tx` to its id. Other transactions, other invoices and the saved copy stay as they were. |
| Invoices.GetStatus | electrumsv/paymentrequest.py:504-513 | The status is UNKNOWN exactly for an absent id and PAID exactly when the invoice has a transaction, whatever its expiry. It is EXPIRED exactly when unpaid and past expiry, and UNPAID otherwise. |
| Invoices.UnpaidInvoices | electrumsv/paymentrequest.py:537-539 | Returns exactly the invoices with no paying transaction, expired ones included. |
| Invoices.Remove | electrumsv/paymentrequest.py:521-528 | `remove` as written cuts out the first reverse-index entry naming the invoice and no other, so every other transaction maps as before. It drops the invoice and saves if the invoice is filed; otherwise it fails after the entry has gone, without saving. |
| Invoices.PopFirstKeepsOthers | electrumsv/paymentrequest.py:521-526 | After the remove loop, every transaction except the one whose entry it dropped maps to the same invoice as before. |
| Invoices.RemoveFixed | electrumsv/paymentrequest.py:521-528 | The intended `remove` drops every reverse-index entry naming the invoice and keeps the others' mappings. |
| Invoices.RemoveFixedKeepsIndexClean | electrumsv/paymentrequest.py:521-528 | After the intended `remove`, every reverse-index entry still names a filed invoice. |
| Invoices.SetPaidMakesPaid | electrumsv/paymentrequest.py:466-468 | Paying a filed invoice makes its status PAID. |
| Invoices.AddedInvoiceStatus | electrumsv/paymentrequest.py:504-519 | A freshly added unpaid invoice is UNPAID, or EXPIRED once past its expiry. |
| Invoices.SetPaidNotSaved | electrumsv/paymentrequest.py:466-502 | `set_paid` does not save: the stored copy still shows the invoice unpaid. |
| Invoices.StalePaidEntryAfterRemove | electrumsv/paymentrequest.py:521-528 | An invoice paid by two transactions and then removed leaves the second transaction still mapped to the removed id. |
| Invoices.RemoveFixedClearsPaidEntries | electrumsv/paymentrequest.py:521-528 | On the same history the intended `remove` leaves the reverse index empty. |
| Scenarios.StoredRequestExpires | electrumsv/paymentrequest.py:145-153 | A wallet request created at 10 with a lifetime of 3600 becomes an invoice that is UNPAID at 3610 and EXPIRED at 3611. |

## Left out

- The writer thread, its queue, `SynchronousWriter`, completion callbacks and SQLite itself. Each job is one atomic function from store to result, and jobs run in submission order.
- Reads racing writes. Reads here see a committed store.
- Foreign keys are checked once, after a whole batch has been applied. So a row may name a parent created by a later row of the same batch. SQLite's default immediate constraints check each row as it is written and would refuse that order, unless `tables.py` declares the constraints deferrable, which nothing here shows.
- A delete of a row that other rows still refer to is refused with a foreign-key violation rather than cascading. No table test deletes a referenced row, and the `ON DELETE` clauses live in the schema, which is not part of this model.
- `tables.py` and the wallet's constants file are not part of this model. The table behaviour follows the test assertions. The flag values in `Constants` follow ElectrumSV's `TxFlags` layout; the proofs depend only on which bits overlap.
- The read filter is inferred from the table test. With only flags or only a mask, a row must share a bit with it. With both, a row must satisfy `row & mask == flags`. A `(row & mask) == (flags & mask)` filter would return the unspent row for `mask=IS_SPENT` at lines 806-812, where the test expects only the spent one.
- `update_flags` stores `(old & mask) | flags`. The zero-mask case at lines 479-489 expects exactly the new flags; a `(old & ~mask) | (flags & mask)` merge would keep the old flags there.
- The proof byte layout is not visible in the table test, which only requires the round trip (lines 315-320 and 646-670). The model uses Bitcoin's variable-length integers: position, hash count, then each hash prefixed by its length.
- `FlagMasks.MergeFlags`: idempotence of a repeated merge is not stated as a lemma.
- `TransactionTable.UpdateTransactionMetadata`: the flags element of each entry is ignored. Presence bits follow the metadata written, because the test never reads the flags back.
- `get_all_pending` is a read of all stored hashes (`TransactionTable.ReadTransactions` with no filter), so it has no member of its own. Timestamps and `date_updated` are kept only where a table writes them.
- `InvoiceStore.__init__`, `load` and `import_file`, because they are file I/O. There is also no save-then-load round trip: `save` writes only requestor and txid while `load` reads a `hex` key.
- `sorted_list`, which is insertion order, and the iteration order of the invoice map.
- `get_address`: the network selection and BIP 276 encoding are the `encode` parameter of `Bip270.GetId`.
- `get_payment_request` and `_make_request`, which are HTTP and file fetches. `send_payment` receives the merchant's answer through the `post` parameter, whose `None` stands for the `SSLError` that `_make_request` catches. Any other transport error (a refused connection, a timeout) raises out of `send_payment` and is not modelled. `get_fresh_keys` and the script template become the `refundScript` parameter.
- Decoding the HTTP body from UTF-8. Lengths are counted in characters of the decoded text.
- JSON parsing and printing of whole documents are the `JsonCodec` parameter. `JReal` stands for floats; NaN and other float details are not modelled.
- Python's exception classes collapse into `Bip270Error`. Every non-object is refused as `NotAnObject`, whatever Python's message. For example, a JSON array without "script" raises the missing-field error in `Output.from_dict`.
- `Script.from_hex` and `to_hex` are taken as `bytes.fromhex` and `bytes.hex`; the bitcoinx library is not part of this model.
- `Invoices.SetPaid`: Python mutates the passed invoice object. The model assumes it is the object filed under its id and replaces that entry, rather than tracking object identity.
- `verify`, `is_pr`, `get_requestor`, `get_outputs`, `to_tx_output`, `get_verify_status` and `get_memo`. These are accessors with no logic beyond what the modelled fields show.
- `Bip270.GetAmount`: Python's `sum` raises on an output without an amount; here the amount is `None`.
- `Bip270.GetId`: Python raises for an unsigned request with no outputs; here the id is `None`, and `Invoices.Add` and `Invoices.SetPaid` then fail.
- TransactionTable.UpdateKeepsBytesMatchFlag: the model accepts an update whose sentinel keeps the bytes of a row that has none, and the row then has its byte-data flag set with no bytes. The tests use the sentinel only on rows that hold bytes, and `tables.py` is not part of this model, so whether the source refuses this case is unknown.

## Findings

| source | as written | input that shows it | evidently intended | confidence | as-written member | corrected member |
|---|---|---|---|---|---|---|
| electrumsv/paymentrequest.py:521-528 | `remove` breaks after popping the first reverse-index entry that names the invoice | an invoice passed to `set_paid` with "t1" and then "t2" (a replacement payment), then removed: "t2" still maps to the removed id | removing an invoice drops every reverse-index entry naming it | medium, not executed | Invoices.StalePaidEntryAfterRemove | Invoices.RemoveFixedKeepsIndexClean |
| electrumsv/tests/test_wallet_database_tables.py:806-808 | unspent outputs are read with `mask=~IS_SPENT`, which keeps rows sharing a bit with the mask | an unspent output whose flags are 0 is not returned | the read returns every output whose spent bit is clear | low, not executed | OutputTables.MaskedReadMissesClearOutput | OutputTables.SpentUnspentPartition |
