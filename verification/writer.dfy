/** The single writer: jobs run one at a time in submission order, each as one atomic commit,
    and each reports its own outcome. A job that fails leaves the store exactly as it found it. */
module Writer {
  import opened Results
  import opened Schema
  import opened KeyTables
  import opened TransactionTable
  import opened OutputTables
  import opened RequestTables
  import opened ProofCodec

  /** One batch write against one table. */
  datatype Job =
    | CreateMasterKeysJob(masterKeyRows: seq<MasterKeyRow>)
    | UpdateMasterKeyDataJob(masterKeyData: seq<DerivationDataUpdate>)
    | DeleteMasterKeysJob(masterKeyIds: seq<int>)
    | CreateAccountsJob(accountRows: seq<AccountRow>)
    | UpdateAccountMasterKeyJob(accountMasterKeys: seq<AccountMasterKeyUpdate>)
    | UpdateAccountNameJob(accountNames: seq<AccountNameUpdate>)
    | DeleteAccountsJob(accountIds: seq<int>)
    | CreateKeyInstancesJob(keyRows: seq<KeyInstanceRow>)
    | UpdateKeyDataJob(keyData: seq<DerivationDataUpdate>)
    | UpdateKeyActiveJob(keyActive: seq<ActiveUpdate>)
    | UpdateKeyDescriptionsJob(keyDescriptions: seq<KeyDescriptionUpdate>)
    | DeleteKeyInstancesJob(keyIds: seq<int>)
    | CreateTransactionsJob(txCreates: seq<TxCreate>)
    | UpdateTransactionsJob(txUpdates: seq<TxUpdate>)
    | UpdateTransactionFlagsJob(txFlags: seq<TxFlagUpdate>)
    | UpdateTransactionMetadataJob(txMetadata: seq<TxMetadataUpdate>)
    | UpdateTransactionProofsJob(txProofs: seq<TxProofUpdate>)
    | UpdateTransactionDescriptionsJob(txDescriptions: seq<TxDescriptionUpdate>)
    | DeleteTransactionsJob(txHashes: seq<Hash>)
    | CreateTxOutputsJob(outputRows: seq<TxOutputRow>)
    | UpdateTxOutputFlagsJob(outputFlags: seq<OutputFlagUpdate>)
    | DeleteTxOutputsJob(outputKeys: seq<OutputKey>)
    | CreateTxDeltasJob(deltaRows: seq<TxDeltaRow>)
    | UpdateTxDeltasJob(deltaUpdates: seq<DeltaUpdate>)
    | RelativeDeltasJob(relativeRows: seq<TxDeltaRow>)
    | DeleteTxDeltasJob(deltaKeys: seq<DeltaKey>)
    | CreatePaymentRequestsJob(requestRows: seq<PaymentRequestRow>)
    | UpdatePaymentRequestsJob(requestUpdates: seq<RequestUpdate>)
    | DeletePaymentRequestsJob(requestIds: seq<int>)
    | CreateWalletEventsJob(eventRows: seq<WalletEventRow>)
    | UpdateWalletEventFlagsJob(eventFlags: seq<EventFlagUpdate>)
    | DeleteWalletEventsJob(eventIds: seq<int>)

  /** Runs one job against a consistent store. */
  function Execute(s: Store, job: Job): (r: Result<Store, DbError>)
    requires Consistent(s)
    ensures r.Ok? ==> Consistent(r.value)
  {
    match job
    case CreateMasterKeysJob(rows) => CreateMasterKeys(s, rows)
    case UpdateMasterKeyDataJob(es) => Ok(UpdateMasterKeyDerivationData(s, es))
    case DeleteMasterKeysJob(ids) => DeleteMasterKeys(s, ids)
    case CreateAccountsJob(rows) => CreateAccounts(s, rows)
    case UpdateAccountMasterKeyJob(es) => UpdateAccountMasterKey(s, es)
    case UpdateAccountNameJob(es) => Ok(UpdateAccountName(s, es))
    case DeleteAccountsJob(ids) => DeleteAccounts(s, ids)
    case CreateKeyInstancesJob(rows) => CreateKeyInstances(s, rows)
    case UpdateKeyDataJob(es) => Ok(UpdateKeyInstanceDerivationData(s, es))
    case UpdateKeyActiveJob(es) => Ok(UpdateKeyInstanceActive(s, es))
    case UpdateKeyDescriptionsJob(es) => Ok(UpdateKeyInstanceDescriptions(s, es))
    case DeleteKeyInstancesJob(ids) => DeleteKeyInstances(s, ids)
    case CreateTransactionsJob(es) => CreateTransactions(s, es)
    case UpdateTransactionsJob(es) => UpdateTransactions(s, es)
    case UpdateTransactionFlagsJob(es) => Ok(UpdateTransactionFlags(s, es))
    case UpdateTransactionMetadataJob(es) => Ok(UpdateTransactionMetadata(s, es))
    case UpdateTransactionProofsJob(es) => UpdateTransactionProofs(s, es)
    case UpdateTransactionDescriptionsJob(es) => Ok(UpdateTransactionDescriptions(s, es))
    case DeleteTransactionsJob(hs) => DeleteTransactions(s, hs)
    case CreateTxOutputsJob(rows) => CreateTxOutputs(s, rows)
    case UpdateTxOutputFlagsJob(es) => Ok(UpdateTxOutputFlags(s, es))
    case DeleteTxOutputsJob(ks) => Ok(DeleteTxOutputs(s, ks))
    case CreateTxDeltasJob(rows) => CreateTxDeltas(s, rows)
    case UpdateTxDeltasJob(es) => Ok(UpdateTxDeltas(s, es))
    case RelativeDeltasJob(rows) => CreateOrUpdateRelativeValues(s, rows)
    case DeleteTxDeltasJob(ks) => Ok(DeleteTxDeltas(s, ks))
    case CreatePaymentRequestsJob(rows) => CreatePaymentRequests(s, rows)
    case UpdatePaymentRequestsJob(es) => Ok(UpdatePaymentRequests(s, es))
    case DeletePaymentRequestsJob(ids) => Ok(DeletePaymentRequests(s, ids))
    case CreateWalletEventsJob(rows) => CreateWalletEvents(s, rows)
    case UpdateWalletEventFlagsJob(es) => Ok(UpdateWalletEventFlags(s, es))
    case DeleteWalletEventsJob(ids) => Ok(DeleteWalletEvents(s, ids))
  }

  /** What a job's completion callback hears. */
  datatype Outcome = Succeeded | Failed(error: DbError)

  /** Commits one job: on success the store becomes the job's result, on failure it stays. */
  function Submit(s: Store, job: Job): (r: (Store, Outcome))
    requires Consistent(s)
    ensures Consistent(r.0)
    ensures r.1.Failed? ==> r.0 == s
    ensures r.1.Failed? <==> Execute(s, job).Err?
  {
    match Execute(s, job)
    case Ok(s') => (s', Succeeded)
    case Err(e) => (s, Failed(e))
  }

  /** The jobs that succeed when `jobs` run in order from `s`, and the store they leave. */
  function RunAll(s: Store, jobs: seq<Job>): (r: (Store, seq<Outcome>))
    requires Consistent(s)
    ensures |r.1| == |jobs|
    ensures Consistent(r.0)
    decreases |jobs|
  {
    if |jobs| == 0 then (s, [])
    else
      var (s', o) := Submit(s, jobs[0]);
      var (t, os) := RunAll(s', jobs[1..]);
      (t, [o] + os)
  }

  /** What the writer loop keeps: the run from `s` is the outcomes so far followed by the run of
      the remaining jobs from the current store `t`. */
  predicate Progress(s: Store, jobs: seq<Job>, i: int, t: Store, outcomes: seq<Outcome>)
    requires Consistent(s) && Consistent(t)
    requires 0 <= i <= |jobs|
  {
    RunAll(s, jobs) == (RunAll(t, jobs[i..]).0, outcomes + RunAll(t, jobs[i..]).1)
  }

  /** Committing job `i` keeps the loop's account of the run. */
  lemma ProgressStep(s: Store, jobs: seq<Job>, i: int, t: Store, outcomes: seq<Outcome>)
    requires Consistent(s) && Consistent(t)
    requires 0 <= i < |jobs|
    requires Progress(s, jobs, i, t, outcomes)
    ensures Progress(s, jobs, i + 1, Submit(t, jobs[i]).0, outcomes + [Submit(t, jobs[i]).1])
  {
    assert jobs[i..][1..] == jobs[i + 1..];
    var (t', o) := Submit(t, jobs[i]);
    var later := RunAll(t', jobs[i + 1..]);
    assert RunAll(t, jobs[i..]) == (later.0, [o] + later.1);
    assert outcomes + ([o] + later.1) == (outcomes + [o]) + later.1;
  }

  /** The writer loop: dequeues the jobs in order and commits each, collecting one outcome per
      job. The store stays consistent after every job, whatever fails. */
  method RunJobs(s: Store, jobs: seq<Job>) returns (t: Store, outcomes: seq<Outcome>)
    requires Consistent(s)
    ensures Consistent(t)
    ensures |outcomes| == |jobs|
    ensures (t, outcomes) == RunAll(s, jobs)
  {
    t := s;
    outcomes := [];
    var i := 0;
    assert jobs[0..] == jobs;
    assert outcomes + RunAll(s, jobs).1 == RunAll(s, jobs).1;
    while i < |jobs|
      invariant 0 <= i <= |jobs|
      invariant Consistent(t)
      invariant |outcomes| == i
      invariant Progress(s, jobs, i, t, outcomes)
    {
      ProgressStep(s, jobs, i, t, outcomes);
      var step := Submit(t, jobs[i]);
      t, outcomes, i := step.0, outcomes + [step.1], i + 1;
    }
    assert jobs[i..] == [];
    assert outcomes + [] == outcomes;
  }

  /** A failed job is invisible to every later one: running the failing job then the rest is the
      same as running the rest alone, apart from the failed outcome. */
  lemma {:induction false} FailedJobInvisible(s: Store, job: Job, rest: seq<Job>)
    requires Consistent(s)
    requires Execute(s, job).Err?
    ensures RunAll(s, [job] + rest).0 == RunAll(s, rest).0
    ensures RunAll(s, [job] + rest).1 == [Failed(Execute(s, job).error)] + RunAll(s, rest).1
  {
    assert ([job] + rest)[1..] == rest;
  }
}
