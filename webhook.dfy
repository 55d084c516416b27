/** The webhook entry point of the earlier service
    (webhook-demo/internal/handlers/webhook.go): the X-Hub-Signature-256 check,
    which is "sha256=" followed by the hexadecimal HMAC-SHA256 (RFC 2104) of
    the body under the shared secret, and the HTTP status it answers with. */
module Webhook {
  import opened Text
  import opened Models
  import opened Effects
  import opened Commands
  import DemoEventProcessor

  /** HMAC-SHA256 of a payload under a secret, left uninterpreted. */
  type Mac = (Bytes, Bytes) -> Bytes

  const SignaturePrefix: Bytes := Ascii("sha256=")

  const StatusOK: int := 200
  const StatusBadRequest: int := 400
  const StatusUnauthorized: int := 401
  const StatusInternalServerError: int := 500

  /** verifySignature: with no secret configured every request passes;
      otherwise the header must be "sha256=" and then exactly the lower-case
      hexadecimal MAC of the body. */
  function VerifySignature(secret: Bytes, signature: Bytes, payload: Bytes, mac: Mac): (ok: bool)
    ensures secret == [] ==> ok
    ensures secret != [] ==> (ok <==> signature == SignaturePrefix + HexEncode(mac(secret, payload)))
  {
    if secret == [] then true
    else if signature == [] then false
    else if !HasPrefix(signature, SignaturePrefix) then false
    else TrimPrefix(signature, SignaturePrefix) == HexEncode(mac(secret, payload))
  }

  /** verifySignatureConstantTime: the same gate, but the hexadecimal text is
      decoded (either case) and the bytes are compared with the MAC. */
  function VerifySignatureConstantTime(secret: Bytes, signature: Bytes, payload: Bytes, mac: Mac): (ok: bool)
    ensures secret == [] ==> ok
    ensures secret != [] && !HasPrefix(signature, SignaturePrefix) ==> !ok
    ensures secret != [] && HasPrefix(signature, SignaturePrefix) ==>
      (ok <==> HexDecode(signature[|SignaturePrefix|..]) == Some(mac(secret, payload)))
  {
    if secret == [] then true
    else if signature == [] then false
    else if !HasPrefix(signature, SignaturePrefix) then false
    else
      match HexDecode(TrimPrefix(signature, SignaturePrefix))
      case None => false
      case Some(expected) => expected == mac(secret, payload)
  }

  /** A header the plain check accepts is accepted by the decoding check too;
      the two agree on headers without upper-case hexadecimal letters, so the
      decoding check accepts more only where the digits use 'A'..'F'. */
  lemma SignatureChecksAgree(secret: Bytes, signature: Bytes, payload: Bytes, mac: Mac)
    ensures VerifySignature(secret, signature, payload, mac) ==> VerifySignatureConstantTime(secret, signature, payload, mac)
    ensures NoUpperHex(signature) && VerifySignatureConstantTime(secret, signature, payload, mac) ==>
      VerifySignature(secret, signature, payload, mac)
  {
    if secret != [] && HasPrefix(signature, SignaturePrefix) {
      var hex := signature[|SignaturePrefix|..];
      assert signature == SignaturePrefix + hex;
      HexRoundTrip(mac(secret, payload));
      if NoUpperHex(signature) && HexDecode(hex) == Some(mac(secret, payload)) {
        assert forall k :: 0 <= k < |hex| ==> hex[k] == signature[k + |SignaturePrefix|];
        HexDecodeLower(hex);
      }
    }
  }

  /** With a secret set, one header is accepted for two bodies only if their
      MACs are the same. */
  lemma SignatureBindsMac(secret: Bytes, signature: Bytes, p: Bytes, q: Bytes, mac: Mac)
    requires secret != []
    requires VerifySignature(secret, signature, p, mac) && VerifySignature(secret, signature, q, mac)
    ensures mac(secret, p) == mac(secret, q)
  {
    var e := signature[|SignaturePrefix|..];
    assert e == HexEncode(mac(secret, p)) && e == HexEncode(mac(secret, q));
    HexRoundTrip(mac(secret, p));
    HexRoundTrip(mac(secret, q));
  }

  /** A webhook request: its headers and its body, None when the body cannot
      be read. */
  datatype Request = Request(eventType: Bytes, deliveryId: Bytes, signature: Bytes, body: Option<Bytes>)

  /** What HandleWebhook writes back: a status and, on success, the event type
      and delivery id echoed. */
  datatype Response = Failed(status: int) | Accepted(eventType: Bytes, deliveryId: Bytes)

  function Status(r: Response): int
  {
    if r.Accepted? then StatusOK else r.status
  }

  /** The event the processor gets: the headers and the body as read. */
  function EventOf(req: Request, body: Bytes): GitHubEvent
  {
    GitHubEvent(req.eventType, req.deliveryId, body)
  }

  /** HandleWebhook: an unreadable body is 400, a failed signature check is
      401, and neither reaches the processor; otherwise the event is processed
      and a processing error is 500, success 200 with the headers echoed. */
  method HandleWebhook(secret: Bytes, req: Request, mac: Mac, json: Json, world: World)
    returns (resp: Response, log: seq<Call>)
    ensures Status(resp) in {StatusOK, StatusBadRequest, StatusUnauthorized, StatusInternalServerError}
    ensures Status(resp) == StatusBadRequest <==> req.body.None?
    ensures Status(resp) == StatusUnauthorized <==>
      req.body.Some? && !VerifySignature(secret, req.signature, req.body.value, mac)
    ensures Status(resp) in {StatusBadRequest, StatusUnauthorized} ==> log == []
    ensures resp.Accepted? ==> resp.eventType == req.eventType && resp.deliveryId == req.deliveryId
    ensures req.body.Some? && VerifySignature(secret, req.signature, req.body.value, mac) ==>
      var d := Route(EventOf(req, req.body.value), json);
      (d.Ignore? ==> resp.Accepted? && log == []) &&
      (d.Reject? ==> Status(resp) == StatusInternalServerError && log == []) &&
      (d.Inspect? && FirstCommand(Lines(d.text)).None? ==> resp.Accepted? && log == []) &&
      (d.Inspect? && FirstCommand(Lines(d.text)).Some? ==>
        var cmd := FirstCommand(Lines(d.text)).value;
        DemoEventProcessor.Executed(cmd, d.context, world, DemoEventProcessor.CommandError(cmd, d.context, world), log) &&
        (resp.Accepted? <==> DemoEventProcessor.CommandError(cmd, d.context, world).None?))
  {
    if req.body.None? {
      return Failed(StatusBadRequest), [];
    }
    var body := req.body.value;
    if !VerifySignature(secret, req.signature, body, mac) {
      return Failed(StatusUnauthorized), [];
    }
    var err;
    err, log := DemoEventProcessor.ProcessEvent(EventOf(req, body), json, world);
    if err.Some? {
      resp := Failed(StatusInternalServerError);
    } else {
      resp := Accepted(req.eventType, req.deliveryId);
    }
  }
}
