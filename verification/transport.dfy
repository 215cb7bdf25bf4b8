/** `send_payment`: posting a Payment to the request's payment URL and reading the merchant's
    answer. The HTTP exchange is a parameter: a function from URL and message to the merchant's
    response, or to none when the request failed with an SSL error. */
module Transport {
  import opened Results
  import opened Constants
  import opened Json
  import opened Bip270
  import opened Payment

  datatype HttpResponse = HttpResponse(status: int, reason: string, content: string)

  const PaymentMemo := "Paid using ElectrumSV"
  const NoUrlMessage := "no url"
  const NoResponseMessage := "Payment Message/PaymentACK Failed"
  const UnreadableAckMessage :=
    "PaymentACK could not be processed. Payment was sent; please manually verify that payment was received."

  /** The Payment the wallet sends: the request's merchant data, the signed transaction, one
      refund output to a fresh key's script and the fixed memo. */
  function PaymentFor(pr: PaymentRequest, txHex: string, refundScript: seq<byte>): (p: Payment)
    ensures p.refundOutputs == [Output(refundScript, None, None)]
    ensures p.memo == Some(PaymentMemo)
    ensures p.transactionHex == txHex
    ensures pr.merchantData.None? <==> p.merchantData == JNull
    ensures pr.merchantData.Some? ==> p.merchantData == JString(pr.merchantData.value)
  {
    var merchantData := if pr.merchantData.Some? then JString(pr.merchantData.value) else JNull;
    Payment(merchantData, txHex, [Output(refundScript, None, None)], Some(PaymentMemo))
  }

  /** The merchant reads exactly the payment the wallet built. */
  lemma SentPaymentReadsBack(pr: PaymentRequest, txHex: string, refundScript: seq<byte>)
    ensures PaymentFromValue(PaymentToValue(PaymentFor(pr, txHex, refundScript))) == Ok(PaymentFor(pr, txHex, refundScript))
  {
    var p := PaymentFor(pr, txHex, refundScript);
    PaymentRoundTrip(p);
    assert NormalOutputs(p.refundOutputs) == p.refundOutputs;
  }

  /** The text posted to the payment URL. */
  function PaymentMessage(pr: PaymentRequest, txHex: string, refundScript: seq<byte>, codec: JsonCodec): string {
    PaymentToJson(PaymentFor(pr, txHex, refundScript), codec)
  }

  predicate HasUrl(pr: PaymentRequest) {
    pr.paymentUrl.Some? && pr.paymentUrl.value != ""
  }

  /** `send_payment`: whether the payment was acknowledged, and the message for the user.
      `post(url, message)` is the merchant's answer, or `None` when the request failed with an
      SSL error; other transport errors raise out of `send_payment` and are not modelled. */
  function SendPayment(pr: PaymentRequest, txHex: string, refundScript: seq<byte>,
                       post: (string, string) -> Option<HttpResponse>, codec: JsonCodec): (r: (bool, Option<string>))
    ensures !HasUrl(pr) ==> r == (false, Some(NoUrlMessage))
    ensures r.0 <==>
      && HasUrl(pr)
      && var response := post(pr.paymentUrl.value, PaymentMessage(pr, txHex, refundScript, codec));
      && response.Some? && response.value.status == 200
      && AckFromJson(response.value.content, codec).Ok?
    ensures !r.0 ==> r.1.Some?
  {
    if !HasUrl(pr) then (false, Some(NoUrlMessage))
    else match post(pr.paymentUrl.value, PaymentMessage(pr, txHex, refundScript, codec))
      case None => (false, Some(NoResponseMessage))
      case Some(resp) =>
        if resp.status != 200 then
          if resp.status == 400 then (false, Some(resp.reason + ": " + resp.content))
          else (false, Some(resp.reason))
        else match AckFromJson(resp.content, codec)
          case Err(_) => (false, Some(UnreadableAckMessage))
          case Ok(ack) => (true, ack.memo)
  }

  /** What became of a payment, judged from the merchant's answer alone. */
  datatype SendOutcome = NoUrl | NoResponse | BadRequest | HttpError | UnreadableAck | Acknowledged(memo: Option<string>)

  function Classify(pr: PaymentRequest, response: Option<HttpResponse>, codec: JsonCodec): SendOutcome {
    if !HasUrl(pr) then NoUrl
    else if response.None? then NoResponse
    else if response.value.status == 400 then BadRequest
    else if response.value.status != 200 then HttpError
    else match AckFromJson(response.value.content, codec)
      case Err(_) => UnreadableAck
      case Ok(ack) => Acknowledged(ack.memo)
  }

  /** Each outcome reaches the user as its own message: a bad request shows the merchant's
      reason and explanation, other HTTP errors only the reason, an acknowledgement its memo. */
  lemma SendPaymentMessages(pr: PaymentRequest, txHex: string, refundScript: seq<byte>,
                            post: (string, string) -> Option<HttpResponse>, codec: JsonCodec)
    requires HasUrl(pr)
    ensures var response := post(pr.paymentUrl.value, PaymentMessage(pr, txHex, refundScript, codec));
      match Classify(pr, response, codec)
      case NoUrl => false
      case NoResponse => SendPayment(pr, txHex, refundScript, post, codec) == (false, Some(NoResponseMessage))
      case BadRequest =>
        SendPayment(pr, txHex, refundScript, post, codec) == (false, Some(response.value.reason + ": " + response.value.content))
      case HttpError => SendPayment(pr, txHex, refundScript, post, codec) == (false, Some(response.value.reason))
      case UnreadableAck => SendPayment(pr, txHex, refundScript, post, codec) == (false, Some(UnreadableAckMessage))
      case Acknowledged(memo) => SendPayment(pr, txHex, refundScript, post, codec) == (true, memo)
  {
  }

  /** A merchant that answers 200 with a well-formed acknowledgement has its memo shown. */
  lemma AcknowledgedMemoShown(pr: PaymentRequest, txHex: string, refundScript: seq<byte>,
                              post: (string, string) -> Option<HttpResponse>, ack: PaymentAck, reason: string, codec: JsonCodec)
    requires HasUrl(pr)
    requires post(pr.paymentUrl.value, PaymentMessage(pr, txHex, refundScript, codec)) == Some(HttpResponse(200, reason, AckToJson(ack, codec)))
    requires AllFit(ack.payment.refundOutputs)
    requires ReadsBack(codec, PaymentToValue(ack.payment)) && ReadsBack(codec, AckToValue(ack, codec))
    requires |PaymentToJson(ack.payment, codec)| <= MaxRequestLength
    requires |AckToJson(ack, codec)| <= MaxAckLength
    ensures SendPayment(pr, txHex, refundScript, post, codec) == (true, NormalMemo(ack.memo))
  {
    AckJsonRoundTrip(ack, codec);
  }
}
