/** The BIP 270 payment request: its outputs, how it is read from and written to JSON, and the
    questions the wallet asks of it (expiry, amount, identity). */
module Bip270 {
  import opened Results
  import opened Constants
  import opened Json
  import opened Hex
  import Schema

  /** `PaymentRequest.MAXIMUM_JSON_LENGTH` and `Payment.MAXIMUM_JSON_LENGTH`. */
  const MaxRequestLength := 10_000_000
  /** The longest an output description may be once dumped as a JSON string. */
  const MaxDescriptionLength := 100

  /** The reasons a message is refused. Python raises `Bip270Exception` for most of them, and
      a JSON decoding or type error for `MalformedJson` and `NotAnObject`. */
  datatype Bip270Error =
    | TooLarge
    | MalformedJson
    | NotAnObject
    | WrongNetwork
    | MissingField(name: string)
    | InvalidField(name: string)
    | InvalidScript
    | DescriptionTooLong

  /** A requested payment to one locking script. */
  datatype Output = Output(script: seq<byte>, amount: Option<int>, description: Option<string>)

  predicate DescriptionFits(description: Option<string>) {
    description.None? || DumpedLength(description.value) <= MaxDescriptionLength
  }

  /** The `Output` constructor: a description whose JSON form is too long is refused. */
  function NewOutput(script: seq<byte>, amount: Option<int>, description: Option<string>): (r: Result<Output, Bip270Error>)
    ensures r.Ok? <==> DescriptionFits(description)
    ensures r.Ok? ==> r.value == Output(script, amount, description)
    ensures r.Err? ==> r.error == DescriptionTooLong
  {
    if description.Some? && DumpedLength(description.value) > MaxDescriptionLength then Err(DescriptionTooLong)
    else Ok(Output(script, amount, description))
  }

  /** Up to 98 plain printable characters always fit in a description. */
  lemma ShortPlainDescriptionFits(script: seq<byte>, amount: Option<int>, d: string)
    requires |d| <= MaxDescriptionLength - 2
    requires forall i | 0 <= i < |d| :: Plain(d[i])
    ensures NewOutput(script, amount, Some(d)) == Ok(Output(script, amount, Some(d)))
  {
    PlainDumpedLength(d);
  }

  /** More than 98 characters never fit, whatever they are. */
  lemma LongDescriptionRejected(script: seq<byte>, amount: Option<int>, d: string)
    requires |d| > MaxDescriptionLength - 2
    ensures NewOutput(script, amount, Some(d)) == Err(DescriptionTooLong)
  {
    assert DumpedLength(d) >= |d| + 2;
  }

  predicate IsOptionalInt(v: Option<Json>) { v.None? || v.value.JInt? }
  predicate IsOptionalString(v: Option<Json>) { v.None? || v.value.JString? }

  function AsOptionalInt(v: Option<Json>): Option<int>
    requires IsOptionalInt(v)
  {
    if v.None? then None else Some(v.value.i)
  }

  function AsOptionalString(v: Option<Json>): Option<string>
    requires IsOptionalString(v)
  {
    if v.None? then None else Some(v.value.s)
  }

  /** `Output.from_dict`, with its checks in the order `from_dict` makes them. Every non-object is
      refused as `NotAnObject`, whatever exception Python raises for it. */
  function OutputFromValue(j: Json): (r: Result<Output, Bip270Error>)
    ensures !j.JObject? ==> r == Err(NotAnObject)
    ensures j.JObject? && "script" !in j.fields ==> r == Err(MissingField("script"))
    ensures r.Ok? ==> j.JObject? && "script" in j.fields && j.fields["script"].JString?
    ensures r.Ok? ==> Some(r.value.script) == HexDecode(j.fields["script"].s)
    ensures r.Ok? ==> DescriptionFits(r.value.description)
  {
    if !j.JObject? then Err(NotAnObject)
    else if "script" !in j.fields then Err(MissingField("script"))
    else
      var amount := Get(j.fields, "amount");
      var description := Get(j.fields, "description");
      if !IsOptionalInt(amount) then Err(InvalidField("amount"))
      else if !IsOptionalString(description) then Err(InvalidField("description"))
      else if !j.fields["script"].JString? then Err(InvalidScript)
      else match HexDecode(j.fields["script"].s)
        case None => Err(InvalidScript)
        case Some(script) => NewOutput(script, AsOptionalInt(amount), AsOptionalString(description))
  }

  /** What an output dictionary must hold to be accepted, stated field by field. */
  predicate OutputValueOk(j: Json) {
    && j.JObject?
    && "script" in j.fields
    && j.fields["script"].JString?
    && HexDecode(j.fields["script"].s).Some?
    && IsOptionalInt(Get(j.fields, "amount"))
    && IsOptionalString(Get(j.fields, "description"))
    && DescriptionFits(AsOptionalString(Get(j.fields, "description")))
  }

  lemma OutputFromValueAccepts(j: Json)
    ensures OutputFromValue(j).Ok? <==> OutputValueOk(j)
  {
  }

  /** `Output.to_dict`: an amount of zero and an empty description are left out. */
  function OutputToValue(o: Output): (r: Json)
    ensures r.JObject? && "script" in r.fields && r.fields["script"] == JString(HexEncode(o.script))
    ensures "amount" in r.fields <==> o.amount.Some? && o.amount.value != 0
    ensures "description" in r.fields <==> o.description.Some? && o.description.value != ""
    ensures r.fields.Keys <= {"script", "amount", "description"}
  {
    var withScript := map["script" := JString(HexEncode(o.script))];
    var withAmount := if o.amount.Some? && o.amount.value != 0 then withScript["amount" := JInt(o.amount.value)] else withScript;
    var withDescription := if o.description.Some? && o.description.value != "" then withAmount["description" := JString(o.description.value)] else withAmount;
    JObject(withDescription)
  }

  /** The output as it reads back: the falsy values the writer leaves out become `None`. */
  function NormalOutput(o: Output): Output {
    o.(amount := if o.amount == Some(0) then None else o.amount,
       description := if o.description == Some("") then None else o.description)
  }

  /** Writing an acceptable output and reading it back gives it again, up to falsy fields. */
  lemma OutputRoundTrip(o: Output)
    requires DescriptionFits(o.description)
    ensures OutputFromValue(OutputToValue(o)) == Ok(NormalOutput(o))
  {
    HexRoundTrip(o.script);
  }

  /** The `from_dict` of every entry of an output list, stopping at the first refusal. */
  function OutputsFromValues(items: seq<Json>): (r: Result<seq<Output>, Bip270Error>)
    ensures r.Ok? <==> forall i | 0 <= i < |items| :: OutputFromValue(items[i]).Ok?
    ensures r.Ok? ==> |r.value| == |items|
    ensures r.Ok? ==> forall i | 0 <= i < |items| :: r.value[i] == OutputFromValue(items[i]).value
    decreases |items|
  {
    if |items| == 0 then Ok([])
    else
      var first :- OutputFromValue(items[0]);
      var rest :- OutputsFromValues(items[1..]);
      Ok([first] + rest)
  }

  function OutputsToValues(outputs: seq<Output>): (r: seq<Json>)
    ensures |r| == |outputs|
    ensures forall i | 0 <= i < |outputs| :: r[i] == OutputToValue(outputs[i])
  {
    seq(|outputs|, i requires 0 <= i < |outputs| => OutputToValue(outputs[i]))
  }

  function NormalOutputs(outputs: seq<Output>): (r: seq<Output>)
    ensures |r| == |outputs|
    ensures forall i | 0 <= i < |outputs| :: r[i] == NormalOutput(outputs[i])
  {
    seq(|outputs|, i requires 0 <= i < |outputs| => NormalOutput(outputs[i]))
  }

  predicate AllFit(outputs: seq<Output>) {
    forall i | 0 <= i < |outputs| :: DescriptionFits(outputs[i].description)
  }

  lemma OutputsRoundTrip(outputs: seq<Output>)
    requires AllFit(outputs)
    ensures OutputsFromValues(OutputsToValues(outputs)) == Ok(NormalOutputs(outputs))
  {
    var items := OutputsToValues(outputs);
    forall i | 0 <= i < |items| ensures OutputFromValue(items[i]) == Ok(NormalOutput(outputs[i])) {
      OutputRoundTrip(outputs[i]);
    }
    var r := OutputsFromValues(items);
    assert r.value == NormalOutputs(outputs);
  }

  /** A payment request as the wallet holds it. `id` is random, `requestor` is only known for
      signed requests and `tx` is set once the request is paid. */
  datatype PaymentRequest = PaymentRequest(
    id: string,
    requestor: Option<string>,
    tx: Option<string>,
    outputs: seq<Output>,
    creationTimestamp: int,
    expirationTimestamp: Option<int>,
    memo: Option<string>,
    paymentUrl: Option<string>,
    merchantData: Option<string>)

  /** `PaymentRequest.from_json` after the text has been parsed; `nonce` is the random id the
      constructor draws. */
  function RequestFromValue(d: Json, nonce: string): (r: Result<PaymentRequest, Bip270Error>)
    ensures !d.JObject? ==> r == Err(NotAnObject)
    ensures d.JObject? && Get(d.fields, "network") != Some(JString("bitcoin")) ==> r == Err(WrongNetwork)
    ensures r.Ok? ==> r.value.id == nonce && r.value.requestor.None? && r.value.tx.None?
    ensures r.Ok? ==> "outputs" in d.fields && d.fields["outputs"].JArray?
                      && |r.value.outputs| == |d.fields["outputs"].items|
    ensures r.Ok? ==> "creationTimestamp" in d.fields && d.fields["creationTimestamp"] == JInt(r.value.creationTimestamp)
    ensures r.Ok? ==> OutputsFromValues(d.fields["outputs"].items) == Ok(r.value.outputs)
    ensures r.Ok? ==> IsOptionalInt(Get(d.fields, "expirationTimestamp"))
                      && r.value.expirationTimestamp == AsOptionalInt(Get(d.fields, "expirationTimestamp"))
    ensures r.Ok? ==> IsOptionalString(Get(d.fields, "memo"))
                      && r.value.memo == AsOptionalString(Get(d.fields, "memo"))
    ensures r.Ok? ==> IsOptionalString(Get(d.fields, "paymentUrl"))
                      && r.value.paymentUrl == AsOptionalString(Get(d.fields, "paymentUrl"))
    ensures r.Ok? ==> IsOptionalString(Get(d.fields, "merchantData"))
                      && r.value.merchantData == AsOptionalString(Get(d.fields, "merchantData"))
  {
    if !d.JObject? then Err(NotAnObject)
    else
      var f := d.fields;
      if Get(f, "network") != Some(JString("bitcoin")) then Err(WrongNetwork)
      else if "outputs" !in f then Err(MissingField("outputs"))
      else if !f["outputs"].JArray? then Err(InvalidField("outputs"))
      else
        var outputs :- OutputsFromValues(f["outputs"].items);
        if "creationTimestamp" !in f then Err(MissingField("creationTimestamp"))
        else if !f["creationTimestamp"].JInt? then Err(InvalidField("creationTimestamp"))
        else
          var expiration := Get(f, "expirationTimestamp");
          var memo := Get(f, "memo");
          var url := Get(f, "paymentUrl");
          var merchantData := Get(f, "merchantData");
          if !IsOptionalInt(expiration) then Err(InvalidField("expirationTimestamp"))
          else if !IsOptionalString(memo) then Err(InvalidField("memo"))
          else if !IsOptionalString(url) then Err(InvalidField("paymentUrl"))
          else if !IsOptionalString(merchantData) then Err(InvalidField("merchantData"))
          else Ok(PaymentRequest(nonce, None, None, outputs, f["creationTimestamp"].i,
                                 AsOptionalInt(expiration), AsOptionalString(memo),
                                 AsOptionalString(url), AsOptionalString(merchantData)))
  }

  /** What a parsed request must hold to be accepted, stated field by field. */
  predicate RequestValueOk(d: Json) {
    && d.JObject?
    && Get(d.fields, "network") == Some(JString("bitcoin"))
    && "outputs" in d.fields && d.fields["outputs"].JArray?
    && (forall i | 0 <= i < |d.fields["outputs"].items| :: OutputValueOk(d.fields["outputs"].items[i]))
    && "creationTimestamp" in d.fields && d.fields["creationTimestamp"].JInt?
    && IsOptionalInt(Get(d.fields, "expirationTimestamp"))
    && IsOptionalString(Get(d.fields, "memo"))
    && IsOptionalString(Get(d.fields, "paymentUrl"))
    && IsOptionalString(Get(d.fields, "merchantData"))
  }

  lemma RequestFromValueAccepts(d: Json, nonce: string)
    ensures RequestFromValue(d, nonce).Ok? <==> RequestValueOk(d)
  {
    if d.JObject? && "outputs" in d.fields && d.fields["outputs"].JArray? {
      var items := d.fields["outputs"].items;
      forall i | 0 <= i < |items| ensures OutputFromValue(items[i]).Ok? <==> OutputValueOk(items[i]) {
        OutputFromValueAccepts(items[i]);
      }
    }
  }

  /** `PaymentRequest.from_json`: oversized text is refused before it is parsed. */
  function RequestFromJson(text: string, nonce: string, codec: JsonCodec): (r: Result<PaymentRequest, Bip270Error>)
    ensures |text| > MaxRequestLength ==> r == Err(TooLarge)
    ensures |text| <= MaxRequestLength && codec.loads(text).None? ==> r == Err(MalformedJson)
    ensures r.Ok? ==> |text| <= MaxRequestLength && codec.loads(text).Some?
                      && r == RequestFromValue(codec.loads(text).value, nonce)
  {
    if |text| > MaxRequestLength then Err(TooLarge)
    else match codec.loads(text)
      case None => Err(MalformedJson)
      case Some(d) => RequestFromValue(d, nonce)
  }

  /** Adds `key` to a JSON object only when there is a value for it. */
  function WithOptional(m: map<string, Json>, key: string, v: Option<Json>): map<string, Json> {
    if v.Some? then m[key := v.value] else m
  }

  function OptionalInt(v: Option<int>): Option<Json> {
    if v.Some? then Some(JInt(v.value)) else None
  }

  function OptionalString(v: Option<string>): Option<Json> {
    if v.Some? then Some(JString(v.value)) else None
  }

  /** The object `PaymentRequest.to_json` dumps: network, outputs and creation time always,
      the rest only when set. */
  function RequestToValue(pr: PaymentRequest): (r: Json)
    ensures r.JObject? && {"network", "outputs", "creationTimestamp"} <= r.fields.Keys
    ensures "expirationTimestamp" in r.fields <==> pr.expirationTimestamp.Some?
    ensures "memo" in r.fields <==> pr.memo.Some?
    ensures "paymentUrl" in r.fields <==> pr.paymentUrl.Some?
    ensures "merchantData" in r.fields <==> pr.merchantData.Some?
    ensures r.fields.Keys <= {"network", "outputs", "creationTimestamp", "expirationTimestamp", "memo", "paymentUrl", "merchantData"}
  {
    var required := map[
      "network" := JString("bitcoin"),
      "outputs" := JArray(OutputsToValues(pr.outputs)),
      "creationTimestamp" := JInt(pr.creationTimestamp)];
    var withExpiration := WithOptional(required, "expirationTimestamp", OptionalInt(pr.expirationTimestamp));
    var withMemo := WithOptional(withExpiration, "memo", OptionalString(pr.memo));
    var withUrl := WithOptional(withMemo, "paymentUrl", OptionalString(pr.paymentUrl));
    JObject(WithOptional(withUrl, "merchantData", OptionalString(pr.merchantData)))
  }

  function RequestToJson(pr: PaymentRequest, codec: JsonCodec): string {
    codec.dumps(RequestToValue(pr))
  }

  /** What a request looks like after a trip through JSON: a fresh id, no requestor, no payment,
      and outputs with their falsy fields dropped. */
  function Reread(pr: PaymentRequest, nonce: string): PaymentRequest {
    pr.(id := nonce, requestor := None, tx := None, outputs := NormalOutputs(pr.outputs))
  }

  /** The fields `RequestToValue` writes, as the reader looks them up. */
  lemma RequestToValueFields(pr: PaymentRequest)
    ensures RequestToValue(pr).JObject?
    ensures Get(RequestToValue(pr).fields, "network") == Some(JString("bitcoin"))
    ensures "outputs" in RequestToValue(pr).fields
    ensures RequestToValue(pr).fields["outputs"] == JArray(OutputsToValues(pr.outputs))
    ensures "creationTimestamp" in RequestToValue(pr).fields
    ensures RequestToValue(pr).fields["creationTimestamp"] == JInt(pr.creationTimestamp)
    ensures Get(RequestToValue(pr).fields, "expirationTimestamp") == OptionalInt(pr.expirationTimestamp)
    ensures Get(RequestToValue(pr).fields, "memo") == OptionalString(pr.memo)
    ensures Get(RequestToValue(pr).fields, "paymentUrl") == OptionalString(pr.paymentUrl)
    ensures Get(RequestToValue(pr).fields, "merchantData") == OptionalString(pr.merchantData)
  {
  }

  /** Writing a request and reading it back keeps every field the message carries. */
  lemma RequestRoundTrip(pr: PaymentRequest, nonce: string)
    requires AllFit(pr.outputs)
    ensures RequestFromValue(RequestToValue(pr), nonce) == Ok(Reread(pr, nonce))
  {
    RequestToValueFields(pr);
    OutputsRoundTrip(pr.outputs);
  }

  /** The same through the text form, for a JSON codec that reads back what it writes. */
  lemma RequestJsonRoundTrip(pr: PaymentRequest, nonce: string, codec: JsonCodec)
    requires AllFit(pr.outputs)
    requires ReadsBack(codec, RequestToValue(pr))
    requires |RequestToJson(pr, codec)| <= MaxRequestLength
    ensures RequestFromJson(RequestToJson(pr, codec), nonce, codec) == Ok(Reread(pr, nonce))
  {
    RequestRoundTrip(pr, nonce);
  }

  /** `has_expired`: an expiry of zero or none never passes, and a set expiry has passed once
      the clock is beyond it. */
  function HasExpired(pr: PaymentRequest, now: int): (r: bool)
    ensures pr.expirationTimestamp.None? || pr.expirationTimestamp == Some(0) ==> !r
    ensures r ==> pr.expirationTimestamp.value < now
    ensures pr.expirationTimestamp.Some? && pr.expirationTimestamp.value != 0 && pr.expirationTimestamp.value < now ==> r
  {
    pr.expirationTimestamp.Some? && pr.expirationTimestamp.value != 0 && pr.expirationTimestamp.value < now
  }

  /** Once expired, a request stays expired as time goes on. */
  lemma ExpiryIsPermanent(pr: PaymentRequest, now: int, later: int)
    requires HasExpired(pr, now)
    requires now <= later
    ensures HasExpired(pr, later)
  {
  }

  /** `get_amount`: the sum of the output amounts. Python's `sum` raises on an output without an
      amount, which is `None` here. */
  function GetAmount(outputs: seq<Output>): (r: Option<int>)
    ensures r.Some? <==> forall i | 0 <= i < |outputs| :: outputs[i].amount.Some?
    decreases |outputs|
  {
    if |outputs| == 0 then Some(0)
    else match (outputs[0].amount, GetAmount(outputs[1..]))
      case (Some(a), Some(rest)) => Some(a + rest)
      case _ => None
  }

  /** A single output's amount is its own amount, or none. */
  lemma GetAmountSingle(o: Output)
    ensures GetAmount([o]) == o.amount
  {
    assert [o][1..] == [];
  }

  /** The total of the output amounts, counted from the last output back. */
  function TotalFromBack(outputs: seq<Output>): int
    requires forall i | 0 <= i < |outputs| :: outputs[i].amount.Some?
    decreases |outputs|
  {
    if |outputs| == 0 then 0
    else TotalFromBack(outputs[..|outputs| - 1]) + outputs[|outputs| - 1].amount.value
  }

  /** When every output has an amount, `get_amount` is their total. */
  lemma {:induction false} GetAmountIsTotal(outputs: seq<Output>)
    requires forall i | 0 <= i < |outputs| :: outputs[i].amount.Some?
    ensures GetAmount(outputs) == Some(TotalFromBack(outputs))
    decreases |outputs|
  {
    if |outputs| > 0 {
      var init, last := outputs[..|outputs| - 1], outputs[|outputs| - 1];
      assert outputs == init + [last];
      GetAmountIsTotal(init);
      GetAmountAppend(init, [last]);
      GetAmountSingle(last);
    }
  }

  /** Amounts add up across a split of the outputs. */
  lemma {:induction false} GetAmountAppend(a: seq<Output>, b: seq<Output>)
    ensures GetAmount(a + b).Some? <==> GetAmount(a).Some? && GetAmount(b).Some?
    ensures GetAmount(a + b).Some? ==> GetAmount(a + b).value == GetAmount(a).value + GetAmount(b).value
    decreases |a|
  {
    if |a| > 0 {
      assert (a + b)[1..] == a[1..] + b;
      GetAmountAppend(a[1..], b);
    } else {
      assert a + b == b;
    }
  }

  /** `get_id`: the random id of a request with a known requestor, otherwise the BIP 276 form of
      the first output's script (`encode`). Python raises for a request without outputs. */
  function GetId(pr: PaymentRequest, encode: seq<byte> -> string): (r: Option<string>)
    ensures r.None? <==> (pr.requestor.None? || pr.requestor.value == "") && |pr.outputs| == 0
    ensures pr.requestor.Some? && pr.requestor.value != "" ==> r == Some(pr.id)
    ensures (pr.requestor.None? || pr.requestor.value == "") && |pr.outputs| > 0 ==>
      r == Some(encode(pr.outputs[0].script))
  {
    if pr.requestor.Some? && pr.requestor.value != "" then Some(pr.id)
    else if |pr.outputs| == 0 then None
    else Some(encode(pr.outputs[0].script))
  }

  /** An unsigned request's id depends only on its first script: a JSON trip keeps it. */
  lemma RereadKeepsId(pr: PaymentRequest, nonce: string, encode: seq<byte> -> string)
    requires pr.requestor.None?
    ensures GetId(Reread(pr, nonce), encode) == GetId(pr, encode)
  {
  }

  /** `from_wallet_entry`: the invoice for one of the wallet's own payment requests, paying
      `script` (the key instance's script). Its expiry counts from the request's creation. */
  function FromWalletEntry(row: Schema.PaymentRequestRow, script: seq<byte>, nonce: string): (r: PaymentRequest)
    ensures r.outputs == [Output(script, row.value, None)]
    ensures r.creationTimestamp == row.dateCreated
    ensures r.expirationTimestamp.Some? <==> row.expiration.Some?
    ensures r.expirationTimestamp.Some? ==> r.expirationTimestamp.value - r.creationTimestamp == row.expiration.value
    ensures r.memo == row.description && r.tx.None? && r.requestor.None?
  {
    var expiry := if row.expiration.Some? then Some(row.dateCreated + row.expiration.value) else None;
    PaymentRequest(nonce, None, None, [Output(script, row.value, None)], row.dateCreated, expiry,
                   row.description, None, None)
  }

  /** An invoice made from a wallet request asks for exactly the request's value. */
  lemma WalletEntryAmount(row: Schema.PaymentRequestRow, script: seq<byte>, nonce: string)
    ensures GetAmount(FromWalletEntry(row, script, nonce).outputs) == row.value
  {
    var outputs := FromWalletEntry(row, script, nonce).outputs;
    assert outputs[1..] == [];
  }

  /** It expires once the request's lifetime has passed since its creation. */
  lemma WalletEntryExpiry(row: Schema.PaymentRequestRow, script: seq<byte>, nonce: string, now: int)
    ensures HasExpired(FromWalletEntry(row, script, nonce), now) <==>
      row.expiration.Some? && row.dateCreated + row.expiration.value != 0 && row.dateCreated + row.expiration.value < now
  {
  }
}
