/** The BIP 270 Payment the wallet sends and the PaymentACK the merchant answers with. The ACK
    carries the payment as a JSON string inside its own JSON. */
module Payment {
  import opened Results
  import opened Constants
  import opened Json
  import opened Bip270

  /** `PaymentACK.MAXIMUM_JSON_LENGTH`. */
  const MaxAckLength := 11_000_000

  /** `merchantData` is passed through unchanged, whatever JSON value it is. */
  datatype Payment = Payment(
    merchantData: Json,
    transactionHex: string,
    refundOutputs: seq<Output>,
    memo: Option<string>)

  datatype PaymentAck = PaymentAck(payment: Payment, memo: Option<string>)

  /** `Payment.from_dict`. */
  function PaymentFromValue(j: Json): (r: Result<Payment, Bip270Error>)
    ensures !j.JObject? ==> r == Err(NotAnObject)
    ensures j.JObject? && "merchantData" !in j.fields ==> r == Err(MissingField("merchantData"))
    ensures r.Ok? ==> j.JObject? && "merchantData" in j.fields && r.value.merchantData == j.fields["merchantData"]
    ensures r.Ok? ==> "transaction" in j.fields && j.fields["transaction"] == JString(r.value.transactionHex)
    ensures r.Ok? ==> "refundTo" in j.fields && j.fields["refundTo"].JArray?
                      && OutputsFromValues(j.fields["refundTo"].items) == Ok(r.value.refundOutputs)
    ensures r.Ok? ==> IsOptionalString(Get(j.fields, "memo")) && r.value.memo == AsOptionalString(Get(j.fields, "memo"))
  {
    if !j.JObject? then Err(NotAnObject)
    else
      var f := j.fields;
      if "merchantData" !in f then Err(MissingField("merchantData"))
      else if "transaction" !in f then Err(MissingField("transaction"))
      else if !f["transaction"].JString? then Err(InvalidField("transaction"))
      else if "refundTo" !in f then Err(MissingField("refundTo"))
      else if !f["refundTo"].JArray? then Err(InvalidField("refundTo"))
      else
        var refunds :- OutputsFromValues(f["refundTo"].items);
        var memo := Get(f, "memo");
        if !IsOptionalString(memo) then Err(InvalidField("memo"))
        else Ok(Payment(f["merchantData"], f["transaction"].s, refunds, AsOptionalString(memo)))
  }

  /** What a payment dictionary must hold to be accepted, stated field by field. */
  predicate PaymentValueOk(j: Json) {
    && j.JObject?
    && "merchantData" in j.fields
    && "transaction" in j.fields && j.fields["transaction"].JString?
    && "refundTo" in j.fields && j.fields["refundTo"].JArray?
    && (forall i | 0 <= i < |j.fields["refundTo"].items| :: OutputValueOk(j.fields["refundTo"].items[i]))
    && IsOptionalString(Get(j.fields, "memo"))
  }

  lemma PaymentFromValueAccepts(j: Json)
    ensures PaymentFromValue(j).Ok? <==> PaymentValueOk(j)
  {
    if j.JObject? && "refundTo" in j.fields && j.fields["refundTo"].JArray? {
      var items := j.fields["refundTo"].items;
      forall i | 0 <= i < |items| ensures OutputFromValue(items[i]).Ok? <==> OutputValueOk(items[i]) {
        OutputFromValueAccepts(items[i]);
      }
    }
  }

  /** An empty memo is not written. */
  function WithMemo(m: map<string, Json>, memo: Option<string>): map<string, Json> {
    if memo.Some? && memo.value != "" then m["memo" := JString(memo.value)] else m
  }

  function NormalMemo(memo: Option<string>): Option<string> {
    if memo == Some("") then None else memo
  }

  /** `Payment.to_dict`. */
  function PaymentToValue(p: Payment): (r: Json)
    ensures r.JObject? && {"merchantData", "transaction", "refundTo"} <= r.fields.Keys
    ensures "memo" in r.fields <==> p.memo.Some? && p.memo.value != ""
    ensures r.fields.Keys <= {"merchantData", "transaction", "refundTo", "memo"}
  {
    JObject(WithMemo(map[
      "merchantData" := p.merchantData,
      "transaction" := JString(p.transactionHex),
      "refundTo" := JArray(OutputsToValues(p.refundOutputs))], p.memo))
  }

  function PaymentToJson(p: Payment, codec: JsonCodec): string {
    codec.dumps(PaymentToValue(p))
  }

  /** `Payment.from_json`. */
  function PaymentFromJson(text: string, codec: JsonCodec): (r: Result<Payment, Bip270Error>)
    ensures |text| > MaxRequestLength ==> r == Err(TooLarge)
    ensures |text| <= MaxRequestLength && codec.loads(text).None? ==> r == Err(MalformedJson)
    ensures r.Ok? ==> codec.loads(text).Some? && r == PaymentFromValue(codec.loads(text).value)
  {
    if |text| > MaxRequestLength then Err(TooLarge)
    else match codec.loads(text)
      case None => Err(MalformedJson)
      case Some(j) => PaymentFromValue(j)
  }

  /** The payment as it reads back: refund outputs and memo lose their falsy fields. */
  function RereadPayment(p: Payment): Payment {
    p.(refundOutputs := NormalOutputs(p.refundOutputs), memo := NormalMemo(p.memo))
  }

  lemma PaymentToValueFields(p: Payment)
    ensures PaymentToValue(p).JObject?
    ensures "merchantData" in PaymentToValue(p).fields
    ensures PaymentToValue(p).fields["merchantData"] == p.merchantData
    ensures "transaction" in PaymentToValue(p).fields
    ensures PaymentToValue(p).fields["transaction"] == JString(p.transactionHex)
    ensures "refundTo" in PaymentToValue(p).fields
    ensures PaymentToValue(p).fields["refundTo"] == JArray(OutputsToValues(p.refundOutputs))
    ensures Get(PaymentToValue(p).fields, "memo") == OptionalString(NormalMemo(p.memo))
  {
  }

  /** A payment survives being written and read back, up to falsy fields. */
  lemma PaymentRoundTrip(p: Payment)
    requires AllFit(p.refundOutputs)
    ensures PaymentFromValue(PaymentToValue(p)) == Ok(RereadPayment(p))
  {
    PaymentToValueFields(p);
    OutputsRoundTrip(p.refundOutputs);
  }

  lemma PaymentJsonRoundTrip(p: Payment, codec: JsonCodec)
    requires AllFit(p.refundOutputs)
    requires ReadsBack(codec, PaymentToValue(p))
    requires |PaymentToJson(p, codec)| <= MaxRequestLength
    ensures PaymentFromJson(PaymentToJson(p, codec), codec) == Ok(RereadPayment(p))
  {
    PaymentRoundTrip(p);
  }

  /** `PaymentACK.from_dict`: the payment field must be the payment's JSON text. */
  function AckFromValue(j: Json, codec: JsonCodec): (r: Result<PaymentAck, Bip270Error>)
    ensures !j.JObject? ==> r == Err(NotAnObject)
    ensures j.JObject? && "payment" !in j.fields ==> r == Err(MissingField("payment"))
    ensures r.Ok? ==> j.JObject? && "payment" in j.fields && j.fields["payment"].JString?
    ensures r.Ok? ==> PaymentFromJson(j.fields["payment"].s, codec) == Ok(r.value.payment)
    ensures r.Ok? ==> IsOptionalString(Get(j.fields, "memo")) && r.value.memo == AsOptionalString(Get(j.fields, "memo"))
  {
    if !j.JObject? then Err(NotAnObject)
    else
      var f := j.fields;
      if "payment" !in f then Err(MissingField("payment"))
      else
        var memo := Get(f, "memo");
        if !IsOptionalString(memo) then Err(InvalidField("memo"))
        else if !f["payment"].JString? then Err(InvalidField("payment"))
        else
          var payment :- PaymentFromJson(f["payment"].s, codec);
          Ok(PaymentAck(payment, AsOptionalString(memo)))
  }

  /** `PaymentACK.from_json`. */
  function AckFromJson(text: string, codec: JsonCodec): (r: Result<PaymentAck, Bip270Error>)
    ensures |text| > MaxAckLength ==> r == Err(TooLarge)
    ensures |text| <= MaxAckLength && codec.loads(text).None? ==> r == Err(MalformedJson)
    ensures r.Ok? ==> codec.loads(text).Some? && r == AckFromValue(codec.loads(text).value, codec)
  {
    if |text| > MaxAckLength then Err(TooLarge)
    else match codec.loads(text)
      case None => Err(MalformedJson)
      case Some(j) => AckFromValue(j, codec)
  }

  /** `PaymentACK.to_dict`: the payment goes in as its JSON text. */
  function AckToValue(ack: PaymentAck, codec: JsonCodec): (r: Json)
    ensures r.JObject? && "payment" in r.fields && r.fields["payment"].JString?
    ensures "memo" in r.fields <==> ack.memo.Some? && ack.memo.value != ""
    ensures r.fields.Keys <= {"payment", "memo"}
  {
    JObject(WithMemo(map["payment" := JString(PaymentToJson(ack.payment, codec))], ack.memo))
  }

  function AckToJson(ack: PaymentAck, codec: JsonCodec): string {
    codec.dumps(AckToValue(ack, codec))
  }

  lemma AckToValueFields(ack: PaymentAck, codec: JsonCodec)
    ensures AckToValue(ack, codec).JObject?
    ensures "payment" in AckToValue(ack, codec).fields
    ensures AckToValue(ack, codec).fields["payment"] == JString(PaymentToJson(ack.payment, codec))
    ensures Get(AckToValue(ack, codec).fields, "memo") == OptionalString(NormalMemo(ack.memo))
  {
  }

  /** An acknowledgement written by a merchant reads back with its payment and memo, provided
      both texts are within their limits. */
  lemma AckJsonRoundTrip(ack: PaymentAck, codec: JsonCodec)
    requires AllFit(ack.payment.refundOutputs)
    requires ReadsBack(codec, PaymentToValue(ack.payment)) && ReadsBack(codec, AckToValue(ack, codec))
    requires |PaymentToJson(ack.payment, codec)| <= MaxRequestLength
    requires |AckToJson(ack, codec)| <= MaxAckLength
    ensures AckFromJson(AckToJson(ack, codec), codec) == Ok(PaymentAck(RereadPayment(ack.payment), NormalMemo(ack.memo)))
  {
    AckToValueFields(ack, codec);
    PaymentJsonRoundTrip(ack.payment, codec);
  }

  /** An acknowledgement whose payment field is not text is refused even when that field holds
      a well-formed payment object. */
  lemma NestedPaymentObjectRejected(p: Payment, codec: JsonCodec)
    ensures AckFromValue(JObject(map["payment" := PaymentToValue(p)]), codec) == Err(InvalidField("payment"))
  {
    assert Get(map["payment" := PaymentToValue(p)], "memo") == None;
  }
}
