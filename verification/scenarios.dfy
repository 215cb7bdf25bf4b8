/** Worked cases of the ledger tables and the invoice store, each stated over the model's
    functions with the concrete values the table tests use. */
module Scenarios {
  import opened Results
  import opened Constants
  import opened FlagMasks
  import opened TableOps
  import opened Schema
  import opened KeyTables
  import opened TransactionTable
  import opened OutputTables
  import opened RequestTables
  import opened Bip270
  import opened Invoices

  /** A transaction created dispatched keeps that state under the state mask. */
  lemma DispatchedStateSurvivesCreate(bytes: seq<byte>)
    ensures CreateFlags(StateDispatched, TxData(None, None, None, 1, 1), Some(bytes)) & StateMask == StateDispatched
  {
  }

  /** `create` with height and fee present sets their presence bits and the byte-data bit; a
      masked update then adds the received state, and an update with an empty mask leaves only
      the received state. */
  lemma UpdateFlagsSequence(bytes: seq<byte>)
    ensures CreateFlags(Unset, TxData(Some(1), Some(2), None, 1, 1), Some(bytes)) == HasByteData | HasFee | HasHeight
    ensures MergeFlags(HasByteData | HasFee | HasHeight, StateReceived, MetadataFieldMask | HasByteData | HasProofData)
      == HasByteData | HasFee | HasHeight | StateReceived
    ensures MergeFlags(HasByteData | HasFee | HasHeight | StateReceived, StateReceived, Unset) == StateReceived
  {
  }

  /** The four filter cases of the transaction read, on rows created with a fee and bytes. */
  lemma ReadFilterCases(bytes: seq<byte>)
    ensures var f := CreateFlags(HasFee, TxData(None, Some(2), None, 1, 1), Some(bytes));
      && Matches(f, FlagFilter(Some(HasFee), None))
      && Matches(f, FlagFilter(Some(Unset), Some(HasHeight)))
      && Matches(f, FlagFilter(Some(HasFee), Some(HasFee)))
      && !Matches(f, FlagFilter(Some(Unset), Some(HasFee)))
  {
  }

  /** Adding 200 to a stored delta of 20 gives 220, and a delta for a new key is inserted as is. */
  lemma RelativeDeltaCase(h: Hash, other: Hash)
    requires h != other
    ensures var m := map[DeltaKey(h, 1) := TxDeltaRow(h, 1, 20)];
      var r := AddRelative(m, [TxDeltaRow(h, 1, 200), TxDeltaRow(other, 1, 999)]);
      && r[DeltaKey(h, 1)].valueDelta == 220
      && r[DeltaKey(other, 1)].valueDelta == 999
  {
    var m := map[DeltaKey(h, 1) := TxDeltaRow(h, 1, 20)];
    var rows := [TxDeltaRow(h, 1, 200), TxDeltaRow(other, 1, 999)];
    assert rows[1..] == [TxDeltaRow(other, 1, 999)] && rows[1..][1..] == [];
    var tail := rows[1..];
    assert DeltaKeyOf(tail[0]) == DeltaKey(other, 1) != DeltaKey(h, 1);
    assert SumFor(tail, DeltaKey(h, 1)) == 0 + SumFor(tail[1..], DeltaKey(h, 1)) == 0;
    assert SumFor(tail, DeltaKey(other, 1)) == 999 + SumFor(tail[1..], DeltaKey(other, 1)) == 999;
    assert SumFor(rows, DeltaKey(h, 1)) == 200 + SumFor(tail, DeltaKey(h, 1));
    assert SumFor(rows, DeltaKey(other, 1)) == 0 + SumFor(tail, DeltaKey(other, 1));
    assert DeltaKeyOf(rows[1]) in KeysOf(rows, DeltaKeyOf);
  }

  /** Marking an output spent moves it from the unspent read to the spent read. */
  lemma SpendingMovesOutput(s: Store, h: Hash, index: int)
    requires OutputKey(h, index) in s.txOutputs && s.txOutputs[OutputKey(h, index)].flags == 0
    ensures OutputKey(h, index) in UnspentOutputs(s)
    ensures var t := UpdateTxOutputFlags(s, [OutputFlagUpdate(IsSpent, h, index)]);
      OutputKey(h, index) in SpentOutputs(t) && OutputKey(h, index) !in UnspentOutputs(t)
  {
    var e := [OutputFlagUpdate(IsSpent, h, index)];
    assert DistinctKeys(e, OutputTarget);
    assert e[0].txHash == h && e[0].txIndex == index;
  }

  /** A request filed in the wallet, turned into an invoice and added to the invoice store is
      unpaid up to its expiry (creation at 10 plus 3600 seconds) and expired after it. */
  lemma StoredRequestExpires(s: Store, id: int, script: seq<byte>, nonce: string, encode: seq<byte> -> string)
    requires id in s.paymentRequests
    requires s.paymentRequests[id].expiration == Some(3600) && s.paymentRequests[id].dateCreated == 10
    ensures var pr := FromWalletEntry(s.paymentRequests[id], script, nonce);
      var (invoices, key) := Add(EmptyInvoices, pr, encode).value;
      && GetStatus(invoices, key, 3610) == Unpaid
      && GetStatus(invoices, key, 3611) == Expired
  {
    var pr := FromWalletEntry(s.paymentRequests[id], script, nonce);
    assert GetId(pr, encode).Some?;
  }

  /** The chain of rows a payment request needs: a master key, an account on it, a key instance
      of the account, then the request on that key. Each create succeeds on the store the
      previous one left. */
  lemma RequestChainCreates(mk: MasterKeyRow, account: AccountRow, key: KeyInstanceRow, request: PaymentRequestRow)
    requires mk.parentMasterKeyId.None?
    requires account.defaultMasterKeyId == Some(mk.masterKeyId)
    requires key.accountId == account.accountId && key.masterKeyId == Some(mk.masterKeyId)
    requires request.keyInstanceId == key.keyInstanceId
    ensures CreateMasterKeys(EmptyStore, [mk]).Ok?
    ensures var s1 := CreateMasterKeys(EmptyStore, [mk]).value;
      CreateAccounts(s1, [account]).Ok?
    ensures var s1 := CreateMasterKeys(EmptyStore, [mk]).value;
      var s2 := CreateAccounts(s1, [account]).value;
      CreateKeyInstances(s2, [key]).Ok?
    ensures var s1 := CreateMasterKeys(EmptyStore, [mk]).value;
      var s2 := CreateAccounts(s1, [account]).value;
      var s3 := CreateKeyInstances(s2, [key]).value;
      CreatePaymentRequests(s3, [request]).Ok?
  {
  }
}
