/** The NIP-47 wallet-connect payment request (kind 23194): a NIP-04
    encrypted `pay_invoice` call addressed, by its "p" tag, to the wallet
    service. JSON is abstracted to the fields the code reads; encryption and
    decryption are parameters. */
module LnZapPayment {
  import opened Optional
  import opened NostrTags

  const Kind: int := 23194

  const PayInvoice: string := "pay_invoice"

  /** `PayInvoiceParams`. */
  datatype PayInvoiceParams = PayInvoiceParams(invoice: Option<string>)

  /** `Request`; the only subclass is `PayInvoiceMethod`, whose method is "pay_invoice". */
  datatype Request = PayInvoiceMethod(params: Option<PayInvoiceParams>)
  {
    function Method(): string { PayInvoice }
  }

  /** A request's JSON object as the deserializer sees it: the text of its
      "method" field, if any, and the "params" object. */
  datatype JsonRequest = JsonRequest(methodText: Option<string>, params: Option<PayInvoiceParams>)

  /** `PayInvoiceMethod.create(bolt11)`. */
  function PayInvoiceCreate(bolt11: string): (r: Request)
    ensures r.Method() == "pay_invoice"
    ensures r.params.Some? && r.params.value.invoice == Some(bolt11)
  {
    PayInvoiceMethod(Some(PayInvoiceParams(Some(bolt11))))
  }

  /** Jackson's serialisation of a request. */
  function Serialize(r: Request): JsonRequest {
    JsonRequest(Some(r.Method()), r.params)
  }

  /** `RequestDeserializer.deserialize`: a `PayInvoiceMethod` for the method
      "pay_invoice" and `null` for any other or a missing method. */
  function Deserialize(j: JsonRequest): (r: Option<Request>)
    ensures r.Some? <==> j.methodText == Some("pay_invoice")
    ensures r.Some? ==> r.value.params == j.params
  {
    if j.methodText == Some(PayInvoice) then Some(PayInvoiceMethod(j.params)) else None
  }

  /** Deserialising a serialised request gives it back. */
  lemma DeserializeSerialize(r: Request)
    ensures Deserialize(Serialize(r)) == Some(r)
  {
  }

  /** `walletServicePubKey()`: the value of the first "p" tag. */
  function WalletServicePubKey(tags: Tags): (r: Option<string>)
    ensures r.None? <==> forall i :: 0 <= i < |tags| ==> !Named(tags[i], "p")
    ensures forall i :: FirstNamedAt(tags, "p", i) ==> r == Some(tags[i][1])
  {
    forall i | FirstNamedAt(tags, "p", i) ensures FirstValue(tags, "p") == Some(tags[i][1]) {
      FirstValueAt(tags, "p", i);
    }
    FirstValue(tags, "p")
  }

  /** `talkingWith(oneSide)`: the other party of the conversation. */
  function TalkingWith(ev: Event, oneSide: string): (r: string)
    ensures oneSide != ev.pubKey ==> r == ev.pubKey
    ensures oneSide == ev.pubKey && WalletServicePubKey(ev.tags).Some? ==> r == WalletServicePubKey(ev.tags).value
    ensures oneSide == ev.pubKey && WalletServicePubKey(ev.tags).None? ==> r == ev.pubKey
  {
    if ev.pubKey == oneSide then WalletServicePubKey(ev.tags).GetOr(ev.pubKey) else ev.pubKey
  }

  /** Between the author and its wallet service, each side talks with the other. */
  lemma TalkingWithBothSides(ev: Event, wallet: string)
    requires WalletServicePubKey(ev.tags) == Some(wallet) && wallet != ev.pubKey
    ensures TalkingWith(ev, ev.pubKey) == wallet
    ensures TalkingWith(ev, wallet) == ev.pubKey
  {
  }

  /** What `lnInvoice(signer, onReady)` does: what `onReady` receives, if
      anything, and the cache afterwards. */
  datatype InvoiceOutcome = InvoiceOutcome(delivered: Option<string>, cache: Option<string>)

  /** `lnInvoice`: a cached invoice is returned without decrypting; otherwise
      the content is decrypted with the other party's key (`decrypt` gives
      `None` when decryption or parsing fails) and the invoice of a
      `pay_invoice` request is cached and delivered. */
  function LnInvoice(ev: Event, cache: Option<string>, signerPubKey: string,
                     decrypt: (string, string) -> Option<JsonRequest>): (r: InvoiceOutcome)
    ensures cache.Some? ==> r == InvoiceOutcome(cache, cache)
    ensures r.delivered == r.cache
    ensures cache.None? && r.delivered.Some? ==>
      var j := decrypt(ev.content, TalkingWith(ev, signerPubKey));
      j.Some? && j.value.methodText == Some("pay_invoice") && j.value.params.Some?
      && j.value.params.value.invoice == r.delivered
    ensures cache.None? ==>
      var j := decrypt(ev.content, TalkingWith(ev, signerPubKey));
      j.Some? && j.value.methodText == Some("pay_invoice") && j.value.params.Some? ==>
      r.delivered == j.value.params.value.invoice && r.cache == j.value.params.value.invoice
  {
    if cache.Some? then InvoiceOutcome(cache, cache)
    else
      match decrypt(ev.content, TalkingWith(ev, signerPubKey))
      case None => InvoiceOutcome(None, None)
      case Some(j) =>
        var invoice :=
          match Deserialize(j)
          case Some(PayInvoiceMethod(Some(p))) => p.invoice
          case _ => None;
        InvoiceOutcome(invoice, invoice)
  }

  /** Once an invoice has been cached, it is delivered again whatever decryption would do. */
  lemma LnInvoiceCached(ev: Event, signerPubKey: string,
                        decrypt: (string, string) -> Option<JsonRequest>,
                        again: (string, string) -> Option<JsonRequest>)
    requires LnInvoice(ev, None, signerPubKey, decrypt).delivered.Some?
    ensures LnInvoice(ev, LnInvoice(ev, None, signerPubKey, decrypt).cache, signerPubKey, again)
      == LnInvoice(ev, None, signerPubKey, decrypt)
  {
  }

  /** `create(lnInvoice, walletServicePubkey)`: the content is the serialised
      `pay_invoice` request encrypted to the wallet; the only tag names the wallet. */
  function Create(invoice: string, wallet: string, createdAt: int,
                  encrypt: (JsonRequest, string) -> string): (r: Template)
    ensures r.kind == Kind && r.createdAt == createdAt
    ensures r.tags == [["p", wallet]]
    ensures WalletServicePubKey(r.tags) == Some(wallet)
    ensures r.content == encrypt(Serialize(PayInvoiceCreate(invoice)), wallet)
  {
    assert FirstNamedAt([["p", wallet]], "p", 0);
    Template(createdAt, Kind, [["p", wallet]], encrypt(Serialize(PayInvoiceCreate(invoice)), wallet))
  }

  /** The app user who created a request, decrypting with a decryption that
      inverts the encryption, reads back the invoice they sent. */
  lemma CreateThenLnInvoice(invoice: string, wallet: string, createdAt: int, author: string,
                            encrypt: (JsonRequest, string) -> string,
                            decrypt: (string, string) -> Option<JsonRequest>, id: string, sig: string)
    requires wallet != author
    requires forall j, k :: decrypt(encrypt(j, k), k) == Some(j)
    ensures
      var t := Create(invoice, wallet, createdAt, encrypt);
      LnInvoice(Event(id, author, t.createdAt, t.kind, t.tags, t.content, sig), None, author, decrypt).delivered == Some(invoice)
  {
    var t := Create(invoice, wallet, createdAt, encrypt);
    var ev := Event(id, author, t.createdAt, t.kind, t.tags, t.content, sig);
    assert TalkingWith(ev, author) == wallet;
    assert decrypt(t.content, wallet) == Some(Serialize(PayInvoiceCreate(invoice)));
  }
}
