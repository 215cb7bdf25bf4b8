/** The invoice store: the payment requests the wallet has been asked to pay, keyed by request
    id, with a reverse index from paying transaction to request id. The wallet's stored copy
    (`saved`) only keeps each invoice's requestor and paying transaction. */
module Invoices {
  import opened Results
  import opened Constants
  import opened Bip270

  /** What `save` writes for one invoice. */
  datatype SavedInvoice = SavedInvoice(requestor: Option<string>, txid: Option<string>)

  /** `paid` is a Python dict from transaction id to request id; its entries are kept in
      insertion order, which decides which entry `remove` drops. */
  datatype InvoiceStore = InvoiceStore(
    invoices: map<string, PaymentRequest>,
    paid: seq<(string, string)>,
    saved: map<string, SavedInvoice>)

  const EmptyInvoices := InvoiceStore(map[], [], map[])

  // ----- the paid index as an ordered dict -----

  /** `paid.get(tx)`. */
  function Lookup(paid: seq<(string, string)>, tx: string): (r: Option<string>)
    ensures r.Some? ==> exists i | 0 <= i < |paid| :: paid[i] == (tx, r.value)
    ensures r.None? <==> forall i | 0 <= i < |paid| :: paid[i].0 != tx
    decreases |paid|
  {
    if |paid| == 0 then None
    else if paid[0].0 == tx then Some(paid[0].1)
    else Lookup(paid[1..], tx)
  }

  /** Every transaction id appears once, as in a dict. */
  predicate DistinctTx(paid: seq<(string, string)>) {
    forall i, j | 0 <= i < j < |paid| :: paid[i].0 != paid[j].0
  }

  /** The transaction ids the index holds. */
  function TxIds(paid: seq<(string, string)>): set<string> {
    set i | 0 <= i < |paid| :: paid[i].0
  }

  lemma TxIdsCons(x: (string, string), rest: seq<(string, string)>)
    ensures TxIds([x] + rest) == {x.0} + TxIds(rest)
  {
    var whole := [x] + rest;
    forall t | t in TxIds(whole) ensures t in {x.0} + TxIds(rest) {
      var i :| 0 <= i < |whole| && whole[i].0 == t;
      if i > 0 { assert rest[i - 1].0 == t; }
    }
    forall t | t in TxIds(rest) ensures t in TxIds(whole) {
      var i :| 0 <= i < |rest| && rest[i].0 == t;
      assert whole[i + 1].0 == t;
    }
    assert whole[0].0 == x.0;
  }

  /** `paid[tx] = id`: overwrites in place when `tx` is present, appends otherwise. */
  function Put(paid: seq<(string, string)>, tx: string, id: string): (r: seq<(string, string)>)
    ensures Lookup(r, tx) == Some(id)
    ensures forall t | t != tx :: Lookup(r, t) == Lookup(paid, t)
    ensures TxIds(r) == TxIds(paid) + {tx}
    ensures |r| == |paid| || |r| == |paid| + 1
    decreases |paid|
  {
    if |paid| == 0 then
      assert TxIds([(tx, id)]) == {tx} by { TxIdsCons((tx, id), []); }
      [(tx, id)]
    else
      assert paid == [paid[0]] + paid[1..];
      TxIdsCons(paid[0], paid[1..]);
      if paid[0].0 == tx then
        var r := [(tx, id)] + paid[1..];
        TxIdsCons((tx, id), paid[1..]);
        assert r[1..] == paid[1..];
        r
      else
        var rest := Put(paid[1..], tx, id);
        var r := [paid[0]] + rest;
        TxIdsCons(paid[0], rest);
        assert r[1..] == rest;
        r
  }

  /** Writing into a dict keeps its keys distinct. */
  lemma {:induction false} PutKeepsDistinct(paid: seq<(string, string)>, tx: string, id: string)
    requires DistinctTx(paid)
    ensures DistinctTx(Put(paid, tx, id))
    decreases |paid|
  {
    if |paid| > 0 && paid[0].0 != tx {
      PutKeepsDistinct(paid[1..], tx, id);
      var rest := Put(paid[1..], tx, id);
      assert paid[0].0 !in TxIds(paid[1..]);
      assert paid[0].0 !in TxIds(rest);
      var r := Put(paid, tx, id);
      assert r == [paid[0]] + rest;
      forall i, j | 0 <= i < j < |r| ensures r[i].0 != r[j].0 {
        if i == 0 {
          assert r[j].0 == rest[j - 1].0;
          assert rest[j - 1].0 in TxIds(rest);
        } else {
          assert r[i] == rest[i - 1] && r[j] == rest[j - 1];
        }
      }
    }
  }

  /** How many entries name request `id`. */
  function Count(paid: seq<(string, string)>, id: string): nat
    decreases |paid|
  {
    if |paid| == 0 then 0 else (if paid[0].1 == id then 1 else 0) + Count(paid[1..], id)
  }

  /** Entry `i` is the first one that names `id`. */
  predicate FirstNaming(paid: seq<(string, string)>, id: string, i: int) {
    0 <= i < |paid| && paid[i].1 == id && forall j | 0 <= j < i :: paid[j].1 != id
  }

  /** The `remove` loop: drops the first entry that names `id`, and only that one. */
  function PopFirst(paid: seq<(string, string)>, id: string): (r: seq<(string, string)>)
    ensures Count(paid, id) > 0 ==> Count(r, id) == Count(paid, id) - 1 && |r| == |paid| - 1
    ensures Count(paid, id) == 0 ==> r == paid
    ensures forall other | other != id :: Count(r, other) == Count(paid, other)
    ensures Count(paid, id) > 0 ==> exists i | FirstNaming(paid, id, i) :: r == paid[..i] + paid[i + 1..]
    decreases |paid|
  {
    if |paid| == 0 then []
    else if paid[0].1 == id then
      assert FirstNaming(paid, id, 0) && paid[1..] == paid[..0] + paid[1..];
      paid[1..]
    else
      var rest := PopFirst(paid[1..], id);
      PopFirstStep(paid, id, rest);
      [paid[0]] + rest
  }

  /** When the head does not name `id`, the first entry naming it in the tail is the first in the
      whole index, one place further on. */
  lemma PopFirstStep(paid: seq<(string, string)>, id: string, rest: seq<(string, string)>)
    requires |paid| > 0 && paid[0].1 != id
    requires Count(paid[1..], id) > 0 ==> exists i | FirstNaming(paid[1..], id, i) :: rest == paid[1..][..i] + paid[1..][i + 1..]
    ensures Count(paid, id) > 0 ==> exists i | FirstNaming(paid, id, i) :: [paid[0]] + rest == paid[..i] + paid[i + 1..]
  {
    if Count(paid, id) > 0 {
      var i :| FirstNaming(paid[1..], id, i) && rest == paid[1..][..i] + paid[1..][i + 1..];
      assert paid[..i + 1] == [paid[0]] + paid[1..][..i];
      assert paid[i + 2..] == paid[1..][i + 1..];
      assert FirstNaming(paid, id, i + 1);
    }
  }

  /** Dropping entry `i` leaves the lookup of every other transaction as it was. */
  lemma {:induction false} DropKeepsOtherLookups(paid: seq<(string, string)>, i: int, t: string)
    requires 0 <= i < |paid|
    requires t != paid[i].0
    ensures Lookup(paid[..i] + paid[i + 1..], t) == Lookup(paid, t)
    decreases i
  {
    var dropped := paid[..i] + paid[i + 1..];
    if i == 0 {
      assert dropped == paid[1..];
    } else {
      assert dropped[0] == paid[0];
      assert dropped[1..] == paid[1..][..i - 1] + paid[1..][i..];
      if paid[0].0 != t {
        DropKeepsOtherLookups(paid[1..], i - 1, t);
      }
    }
  }

  /** `after` is `paid` without its first entry naming `id`: every other transaction looks up
      as before. */
  ghost predicate DropsFirstNaming(paid: seq<(string, string)>, id: string, after: seq<(string, string)>) {
    exists i | FirstNaming(paid, id, i) ::
      after == paid[..i] + paid[i + 1..] &&
      forall t | t != paid[i].0 :: Lookup(after, t) == Lookup(paid, t)
  }

  /** The remove loop leaves every transaction's lookup as it was, except the one whose entry it
      dropped. */
  lemma PopFirstKeepsOthers(paid: seq<(string, string)>, id: string)
    requires Count(paid, id) > 0
    ensures DropsFirstNaming(paid, id, PopFirst(paid, id))
  {
    var r := PopFirst(paid, id);
    var i :| FirstNaming(paid, id, i) && r == paid[..i] + paid[i + 1..];
    forall t | t != paid[i].0 ensures Lookup(r, t) == Lookup(paid, t) {
      DropKeepsOtherLookups(paid, i, t);
    }
  }

  /** Drops every entry that names `id`. */
  function RemoveAll(paid: seq<(string, string)>, id: string): (r: seq<(string, string)>)
    ensures Count(r, id) == 0
    ensures forall other | other != id :: Count(r, other) == Count(paid, other)
    ensures forall i | 0 <= i < |r| :: r[i].1 != id
    ensures forall t | Lookup(paid, t).Some? && Lookup(paid, t) != Some(id) :: Lookup(r, t) == Lookup(paid, t)
    decreases |paid|
  {
    if |paid| == 0 then []
    else if paid[0].1 == id then RemoveAll(paid[1..], id)
    else [paid[0]] + RemoveAll(paid[1..], id)
  }

  lemma {:induction false} NoEntryMeansZeroCount(paid: seq<(string, string)>, id: string)
    requires forall i | 0 <= i < |paid| :: paid[i].1 != id
    ensures Count(paid, id) == 0
    decreases |paid|
  {
    if |paid| > 0 {
      NoEntryMeansZeroCount(paid[1..], id);
    }
  }

  lemma {:induction false} EntryMeansPositiveCount(paid: seq<(string, string)>, i: int)
    requires 0 <= i < |paid|
    ensures Count(paid, paid[i].1) > 0
    decreases |paid|
  {
    if i > 0 {
      EntryMeansPositiveCount(paid[1..], i - 1);
    }
  }

  // ----- the store -----

  /** What `save` writes: each invoice's requestor and paying transaction. */
  function Snapshot(invoices: map<string, PaymentRequest>): (r: map<string, SavedInvoice>)
    ensures r.Keys == invoices.Keys
    ensures forall k | k in r :: r[k].requestor == invoices[k].requestor && r[k].txid == invoices[k].tx
  {
    map k | k in invoices :: SavedInvoice(invoices[k].requestor, invoices[k].tx)
  }

  /** `save`. */
  function Save(s: InvoiceStore): (r: InvoiceStore)
    ensures r.invoices == s.invoices && r.paid == s.paid
    ensures SavedCurrent(r)
  {
    s.(saved := Snapshot(s.invoices))
  }

  /** The wallet's stored copy agrees with the store. */
  predicate SavedCurrent(s: InvoiceStore) {
    && s.saved.Keys == s.invoices.Keys
    && forall k | k in s.saved :: s.saved[k] == SavedInvoice(s.invoices[k].requestor, s.invoices[k].tx)
  }

  /** `get`. */
  function Get(s: InvoiceStore, id: string): (r: Option<PaymentRequest>)
    ensures r.Some? <==> id in s.invoices
    ensures r.Some? ==> r.value == s.invoices[id]
  {
    if id in s.invoices then Some(s.invoices[id]) else None
  }

  /** `add`: files the request under its id and saves. Python raises where the id cannot be
      computed (an unsigned request without outputs). */
  function Add(s: InvoiceStore, pr: PaymentRequest, encode: seq<byte> -> string): (r: Option<(InvoiceStore, string)>)
    ensures r.Some? <==> GetId(pr, encode).Some?
    ensures r.Some? ==> r.value.1 == GetId(pr, encode).value
    ensures r.Some? ==> Get(r.value.0, r.value.1) == Some(pr)
    ensures r.Some? ==> forall k | k != r.value.1 :: Get(r.value.0, k) == Get(s, k)
    ensures r.Some? ==> r.value.0.paid == s.paid
    ensures r.Some? ==> SavedCurrent(r.value.0)
  {
    match GetId(pr, encode)
    case None => None
    case Some(id) => Some((Save(s.(invoices := s.invoices[id := pr])), id))
  }

  /** `set_paid`: marks the invoice paid by `tx` and records `tx` in the paid index under the
      invoice's id. Python mutates the invoice object itself, which is the one the store holds
      under that id; the stored copy is not saved. */
  function SetPaid(s: InvoiceStore, pr: PaymentRequest, tx: string, encode: seq<byte> -> string): (r: Option<(InvoiceStore, PaymentRequest)>)
    ensures r.Some? <==> GetId(pr, encode).Some?
    ensures r.Some? ==> r.value.1 == pr.(tx := Some(tx))
    ensures r.Some? ==> Lookup(r.value.0.paid, tx) == GetId(pr, encode)
    ensures r.Some? ==> forall t | t != tx :: Lookup(r.value.0.paid, t) == Lookup(s.paid, t)
    ensures r.Some? ==> r.value.0.saved == s.saved
    ensures r.Some? ==> r.value.0.invoices.Keys == s.invoices.Keys
    ensures r.Some? ==> forall k | k in s.invoices && k != GetId(pr, encode).value :: r.value.0.invoices[k] == s.invoices[k]
  {
    match GetId(pr, encode)
    case None => None
    case Some(id) =>
      var marked := pr.(tx := Some(tx));
      var invoices := if id in s.invoices then s.invoices[id := marked] else s.invoices;
      Some((s.(invoices := invoices, paid := Put(s.paid, tx, id)), marked))
  }

  /** `get_status`. */
  function GetStatus(s: InvoiceStore, id: string, now: int): (r: PaymentState)
    ensures r == Unknown <==> id !in s.invoices
    ensures r == Paid <==> id in s.invoices && s.invoices[id].tx.Some?
    ensures r == Expired <==> id in s.invoices && s.invoices[id].tx.None? && HasExpired(s.invoices[id], now)
  {
    match Get(s, id)
    case None => Unknown
    case Some(pr) => if pr.tx.Some? then Paid else if HasExpired(pr, now) then Expired else Unpaid
  }

  /** `unpaid_invoices`: the invoices not yet paid, expired ones included. */
  function UnpaidInvoices(s: InvoiceStore, now: int): (r: map<string, PaymentRequest>)
    ensures forall k | k in r :: k in s.invoices && r[k] == s.invoices[k]
    ensures forall k | k in s.invoices :: k in r <==> s.invoices[k].tx.None?
  {
    map k | k in s.invoices && GetStatus(s, k, now) != Paid :: s.invoices[k]
  }

  /** `remove` as written: drops the first paid entry naming the invoice, then the invoice
      itself, then saves. Python raises `KeyError` (the flag is false) when there is no such
      invoice, after the paid entry has already gone and before the save. */
  function Remove(s: InvoiceStore, id: string): (r: (InvoiceStore, bool))
    ensures r.1 <==> id in s.invoices
    ensures Count(r.0.paid, id) == if Count(s.paid, id) > 0 then Count(s.paid, id) - 1 else 0
    ensures Count(s.paid, id) == 0 ==> r.0.paid == s.paid
    ensures Count(s.paid, id) > 0 ==> DropsFirstNaming(s.paid, id, r.0.paid)
    ensures r.1 ==> r.0.invoices == s.invoices - {id} && SavedCurrent(r.0)
    ensures !r.1 ==> r.0.invoices == s.invoices && r.0.saved == s.saved
  {
    var paid := PopFirst(s.paid, id);
    if Count(s.paid, id) > 0 then PopFirstKeepsOthers(s.paid, id); Removed(s, id, paid)
    else Removed(s, id, paid)
  }

  /** The store after the remove loop has left `paid`. */
  function Removed(s: InvoiceStore, id: string, paid: seq<(string, string)>): (r: (InvoiceStore, bool))
    ensures r.0.paid == paid && (r.1 <==> id in s.invoices)
    ensures r.1 ==> r.0.invoices == s.invoices - {id} && SavedCurrent(r.0)
    ensures !r.1 ==> r.0.invoices == s.invoices && r.0.saved == s.saved
  {
    if id !in s.invoices then (s.(paid := paid), false)
    else (Save(s.(invoices := s.invoices - {id}, paid := paid)), true)
  }

  /** `remove` as intended: every paid entry naming the invoice goes with it. */
  function RemoveFixed(s: InvoiceStore, id: string): (r: (InvoiceStore, bool))
    ensures r.1 <==> id in s.invoices
    ensures forall i | 0 <= i < |r.0.paid| :: r.0.paid[i].1 != id
    ensures forall t | Lookup(s.paid, t).Some? && Lookup(s.paid, t) != Some(id) :: Lookup(r.0.paid, t) == Lookup(s.paid, t)
    ensures r.1 ==> r.0.invoices == s.invoices - {id} && SavedCurrent(r.0)
    ensures !r.1 ==> r.0.invoices == s.invoices && r.0.saved == s.saved
  {
    Removed(s, id, RemoveAll(s.paid, id))
  }

  /** Every paid entry names an invoice the store holds. */
  predicate PaidIndexClean(s: InvoiceStore) {
    forall i | 0 <= i < |s.paid| :: s.paid[i].1 in s.invoices
  }

  /** The intended `remove` keeps the paid index clean. */
  lemma RemoveFixedKeepsIndexClean(s: InvoiceStore, id: string)
    requires PaidIndexClean(s)
    ensures PaidIndexClean(RemoveFixed(s, id).0)
  {
    var r := RemoveFixed(s, id).0;
    forall i | 0 <= i < |r.paid| ensures r.paid[i].1 in r.invoices {
      assert r.paid[i].1 != id;
      EntryMeansPositiveCount(r.paid, i);
      assert Count(s.paid, r.paid[i].1) > 0;
      if r.paid[i].1 !in s.invoices {
        NoEntryMeansZeroCount(s.paid, r.paid[i].1);
      }
    }
  }

  /** Paying an invoice the store holds makes its status paid. */
  lemma SetPaidMakesPaid(s: InvoiceStore, pr: PaymentRequest, tx: string, encode: seq<byte> -> string, now: int)
    requires GetId(pr, encode).Some? && GetId(pr, encode).value in s.invoices
    ensures GetStatus(SetPaid(s, pr, tx, encode).value.0, GetId(pr, encode).value, now) == Paid
  {
  }

  /** A fresh invoice is unpaid, or expired once its expiry has passed. */
  lemma AddedInvoiceStatus(s: InvoiceStore, pr: PaymentRequest, encode: seq<byte> -> string, now: int)
    requires GetId(pr, encode).Some? && pr.tx.None?
    ensures var (t, id) := Add(s, pr, encode).value;
      GetStatus(t, id, now) == if HasExpired(pr, now) then Expired else Unpaid
  {
  }

  /** Paying is not saved until the next save: the stored copy still shows the invoice unpaid. */
  lemma SetPaidNotSaved(s: InvoiceStore, pr: PaymentRequest, tx: string, encode: seq<byte> -> string)
    requires SavedCurrent(s)
    requires GetId(pr, encode).Some? && GetId(pr, encode).value in s.invoices
    requires s.invoices[GetId(pr, encode).value].tx.None?
    ensures !SavedCurrent(SetPaid(s, pr, tx, encode).value.0)
  {
    var id := GetId(pr, encode).value;
    var t := SetPaid(s, pr, tx, encode).value.0;
    assert t.saved[id].txid.None?;
    assert t.invoices[id].tx == Some(tx);
  }

  /** An invoice paid twice (a first transaction that never confirmed, then a second one) and
      then removed: as written, `remove` drops only the first paid entry, so the second one
      still names an invoice that is gone. */
  lemma StalePaidEntryAfterRemove(encode: seq<byte> -> string)
    ensures var pr := PaymentRequest("n", Some("merchant"), None, [], 0, None, None, None, None);
      var (s1, id) := Add(EmptyInvoices, pr, encode).value;
      var (s2, pr2) := SetPaid(s1, pr, "t1", encode).value;
      var (s3, _) := SetPaid(s2, pr2, "t2", encode).value;
      var (s4, removed) := Remove(s3, id);
      removed && id !in s4.invoices && Lookup(s4.paid, "t2") == Some(id) && !PaidIndexClean(s4)
  {
    var pr := PaymentRequest("n", Some("merchant"), None, [], 0, None, None, None, None);
    var (s1, id) := Add(EmptyInvoices, pr, encode).value;
    assert id == "n" && s1.paid == [];
    var (s2, pr2) := SetPaid(s1, pr, "t1", encode).value;
    assert s2.paid == [("t1", "n")];
    var (s3, _) := SetPaid(s2, pr2, "t2", encode).value;
    assert s3.paid == [("t1", "n"), ("t2", "n")];
    var (s4, removed) := Remove(s3, id);
    assert s4.paid == [("t2", "n")];
    assert s4.paid[0].1 !in s4.invoices;
  }

  /** The intended `remove` on the same history leaves no entry behind. */
  lemma RemoveFixedClearsPaidEntries(encode: seq<byte> -> string)
    ensures var pr := PaymentRequest("n", Some("merchant"), None, [], 0, None, None, None, None);
      var (s1, id) := Add(EmptyInvoices, pr, encode).value;
      var (s2, pr2) := SetPaid(s1, pr, "t1", encode).value;
      var (s3, _) := SetPaid(s2, pr2, "t2", encode).value;
      var (s4, removed) := RemoveFixed(s3, id);
      removed && s4.paid == [] && PaidIndexClean(s4)
  {
    var pr := PaymentRequest("n", Some("merchant"), None, [], 0, None, None, None, None);
    var (s1, id) := Add(EmptyInvoices, pr, encode).value;
    var (s2, pr2) := SetPaid(s1, pr, "t1", encode).value;
    assert s2.paid == [("t1", "n")];
    var (s3, _) := SetPaid(s2, pr2, "t2", encode).value;
    assert s3.paid == [("t1", "n"), ("t2", "n")];
    var rest := s3.paid[1..];
    assert rest == [("t2", "n")] && rest[1..] == [];
    assert RemoveAll(rest, "n") == RemoveAll(rest[1..], "n") == [];
    assert RemoveAll(s3.paid, "n") == RemoveAll(rest, "n");
  }
}
