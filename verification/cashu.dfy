/** Redeeming a Cashu token (`CashuProcessor`): the amounts of a "cashuA"
    token (Cashu NUT-00, version A serialisation), the fee kept for the
    Lightning payment, the invoice amount asked for, and how the mint's
    answer to the melt request is reported. Base64, JSON, the HTTP call and
    the Lightning-address lookup are inputs: `decode` stands for reading a
    token's payload and yields `None` where the code would throw. */
module Cashu {
  import opened Optional
  import opened KotlinText

  /** The version prefix of a serialised token. */
  const TokenPrefix: string := "cashuA"

  const ParseError: string := "Could not parse this cashu token"

  /** What the code reads from a token's JSON: the first token's mint and the
      `amount` of each of its proofs. */
  datatype Payload = Payload(mint: string, amounts: seq<int>)

  /** `CashuToken`. */
  datatype CashuToken = CashuToken(token: string, mint: string, totalAmount: int, fees: int,
                                   redeemInvoiceAmount: int, proofs: seq<int>)

  /** `GenericLoadable<CashuToken>` as `parse` returns it. */
  datatype Parsed = Loaded(loaded: CashuToken) | Error(message: string)

  /** The sum of the proof amounts. */
  function Sum(amounts: seq<int>): int {
    if |amounts| == 0 then 0 else amounts[0] + Sum(amounts[1..])
  }

  /** Sums add up over concatenation. */
  lemma {:induction false} SumAppend(a: seq<int>, b: seq<int>)
    ensures Sum(a + b) == Sum(a) + Sum(b)
    decreases |a|
  {
    if |a| > 0 {
      assert (a + b)[1..] == a[1..] + b;
      SumAppend(a[1..], b);
    } else {
      assert a + b == b;
    }
  }

  /** Integer division truncating toward zero, as a JVM conversion does. */
  function TruncDiv(a: int, d: int): (r: int)
    requires d > 0
    ensures a >= 0 ==> r == a / d
    ensures a < 0 ==> r == -((-a) / d)
  {
    if a >= 0 then a / d else -((-a) / d)
  }

  /** Unlike Euclidean division, truncation is symmetric around zero. */
  lemma TruncDivOdd(a: int, d: int)
    requires d > 0
    ensures TruncDiv(-a, d) == -TruncDiv(a, d)
  {
  }

  /** `Double.toInt()`: out-of-range values saturate at the `Int` bounds. */
  function ClampToInt(x: int): (r: int)
    ensures IntMin <= r <= IntMax
    ensures IntMin <= x <= IntMax ==> r == x
    ensures x > IntMax ==> r == IntMax
    ensures x < IntMin ==> r == IntMin
  {
    if x > IntMax then IntMax else if x < IntMin then IntMin else x
  }

  /** The fee: 2% of the total, truncated and saturated to an `Int`, at least 2. */
  function Fees(total: int): (r: int)
    ensures r >= 2
    ensures r <= IntMax
    ensures total >= 150 && total < 50 * (IntMax + 1) ==> r == total / 50
  {
    var pct := ClampToInt(TruncDiv(total * 2, 100));
    if pct > 2 then pct else 2
  }

  /** The fee is the floor of 2 exactly for totals under 150. */
  lemma FeesFloor(total: int)
    ensures Fees(total) == 2 <==> total < 150
  {
  }

  /** The invoice amount is non-negative exactly when the token holds at least 2 sats. */
  lemma RedeemNonNegative(total: int)
    ensures total - Fees(total) >= 0 <==> total >= 2
  {
  }

  /** `parse(cashuToken)`: every "cashuA" is removed, the rest decoded; a
      payload gives a token whose fee and invoice amount add up to its total,
      and anything that fails gives the parse error. */
  function Parse(cashuToken: string, decode: string -> Option<Payload>): (r: Parsed)
    ensures r.Error? <==> decode(RemoveAll(cashuToken, TokenPrefix)).None?
    ensures r.Error? ==> r.message == ParseError
    ensures r.Loaded? ==> var p := decode(RemoveAll(cashuToken, TokenPrefix)).value;
      && r.loaded.token == cashuToken
      && r.loaded.mint == p.mint
      && r.loaded.proofs == p.amounts
      && r.loaded.totalAmount == Sum(p.amounts)
      && r.loaded.fees >= 2 && r.loaded.fees == Fees(r.loaded.totalAmount)
      && (r.loaded.totalAmount < 150 ==> r.loaded.fees == 2)
      && (150 <= r.loaded.totalAmount < 50 * (IntMax + 1) ==> r.loaded.fees == r.loaded.totalAmount / 50)
      && r.loaded.redeemInvoiceAmount + r.loaded.fees == r.loaded.totalAmount
  {
    match decode(RemoveAll(cashuToken, TokenPrefix))
    case None => Error(ParseError)
    case Some(p) =>
      var total := Sum(p.amounts);
      var fees := Fees(total);
      Loaded(CashuToken(cashuToken, p.mint, total, fees, total - fees, p.amounts))
  }

  /** A token of one 1000-sat proof keeps 20 sats as fee and asks for 980. */
  lemma ParseThousand(body: string, mint: string, decode: string -> Option<Payload>)
    requires forall i :: 0 <= i <= |body| ==> !OccursAt(body, TokenPrefix, i)
    requires decode(body) == Some(Payload(mint, [1000]))
    ensures Parse(TokenPrefix + body, decode) == Loaded(CashuToken(TokenPrefix + body, mint, 1000, 20, 980, [1000]))
  {
    RemoveAllPrefix(TokenPrefix, body);
    assert Sum([1000]) == 1000;
  }

  /** `melt`: the invoice is requested for the redeemable amount, in millisats. */
  function MeltMilliSats(token: CashuToken): (r: int)
    ensures r % 1000 == 0 && r / 1000 == token.redeemInvoiceAmount
    ensures token.redeemInvoiceAmount >= 0 <==> r >= 0
  {
    token.redeemInvoiceAmount * 1000
  }

  /** Nothing is lost: the invoice plus the fee, in millisats, is the token's total. */
  lemma MeltCoversTotal(cashuToken: string, decode: string -> Option<Payload>)
    requires Parse(cashuToken, decode).Loaded?
    ensures MeltMilliSats(Parse(cashuToken, decode).loaded) + 1000 * Parse(cashuToken, decode).loaded.fees
      == 1000 * Parse(cashuToken, decode).loaded.totalAmount
  {
  }

  /** The mint's answer to the melt request: the text of its "paid" and
      "detail" fields when present; `None` when the call or the parse threw,
      with the exception's message. */
  datatype MeltResponse = MeltResponse(paid: Option<string>, detail: Option<string>)

  /** The titles of the reports (string resources). */
  datatype Title = SuccessfulRedemption | FailedRedemption

  /** What `meltInvoice` reports. */
  datatype MeltReport =
    | Redeemed(total: int, fees: int)
    | Failed(title: Title, detail: Option<string>)

  /** The detail shown: the text up to the first '.', unless that is blank. */
  function FailureDetail(detail: Option<string>): (r: Option<string>)
    ensures r.Some? ==> detail.Some? && !IsBlank(r.value) && '.' !in r.value && StartsWith(detail.value, r.value)
    ensures detail.Some? && !IsBlank(FirstSegment(detail.value, '.')) ==> r == Some(FirstSegment(detail.value, '.'))
    ensures detail.None? ==> r.None?
  {
    match detail
    case None => None
    case Some(d) => if IsBlank(FirstSegment(d, '.')) then None else Some(FirstSegment(d, '.'))
  }

  /** `meltInvoice` as written: a thrown exception is reported through
      `onError` under the successful-redemption title. */
  function MeltInvoiceAsWritten(token: CashuToken, response: Option<MeltResponse>, exceptionMessage: Option<string>): (r: MeltReport)
    ensures r.Redeemed? <==> response.Some? && response.value.paid == Some("true")
    ensures r.Redeemed? ==> r == Redeemed(token.totalAmount, token.fees)
    ensures response.None? ==> r == Failed(SuccessfulRedemption, exceptionMessage)
  {
    match response
    case None => Failed(SuccessfulRedemption, exceptionMessage)
    case Some(m) =>
      if m.paid == Some("true") then Redeemed(token.totalAmount, token.fees)
      else Failed(FailedRedemption, FailureDetail(m.detail))
  }

  /** A failed melt call is reported as a failure whose title says it succeeded. */
  lemma ExceptionReportedAsSuccess(token: CashuToken, message: string)
    ensures MeltInvoiceAsWritten(token, None, Some(message)).Failed?
    ensures MeltInvoiceAsWritten(token, None, Some(message)).title == SuccessfulRedemption
  {
  }

  /** `meltInvoice` as intended: only "paid" = "true" is a redemption; every
      failure, thrown or answered, carries the failed-redemption title. */
  function MeltInvoice(token: CashuToken, response: Option<MeltResponse>, exceptionMessage: Option<string>): (r: MeltReport)
    ensures r.Redeemed? <==> response.Some? && response.value.paid == Some("true")
    ensures r.Redeemed? ==> r == Redeemed(token.totalAmount, token.fees)
    ensures r.Failed? ==> r.title == FailedRedemption
    ensures response.Some? && r.Failed? ==> r.detail == FailureDetail(response.value.detail)
    ensures response.None? ==> r.detail == exceptionMessage
  {
    match response
    case None => Failed(FailedRedemption, exceptionMessage)
    case Some(m) =>
      if m.paid == Some("true") then Redeemed(token.totalAmount, token.fees)
      else Failed(FailedRedemption, FailureDetail(m.detail))
  }

  /** The two agree on every answered call and differ only in the title of thrown ones. */
  lemma MeltInvoiceDiffersOnlyOnException(token: CashuToken, response: Option<MeltResponse>, exceptionMessage: Option<string>)
    ensures response.Some? ==> MeltInvoice(token, response, exceptionMessage) == MeltInvoiceAsWritten(token, response, exceptionMessage)
    ensures response.None? ==> (
      && MeltInvoice(token, response, exceptionMessage) == Failed(FailedRedemption, exceptionMessage)
      && MeltInvoiceAsWritten(token, response, exceptionMessage) == Failed(SuccessfulRedemption, exceptionMessage))
  {
  }

  /** A "paid" of "false", or any text other than "true", is a failure. */
  lemma OnlyTrueIsPaid(token: CashuToken, paid: string, detail: Option<string>)
    requires paid != "true"
    ensures MeltInvoice(token, Some(MeltResponse(Some(paid), detail)), None) == Failed(FailedRedemption, FailureDetail(detail))
  {
  }
}
