// The signed email-event webhook (app/blueprints/webhooks/routes.py): a
// shared-secret HMAC gate, a mapping from the provider's event name to a
// delivery status, and one EmailLog row appended per accepted request.
//
// HMAC-SHA256 is not modelled: it is a parameter `mac(secret, timestamp, body)`
// standing for the hex digest of timestamp + "." + body under the secret.
// JSON decoding of the body is a parameter too (None when it is malformed).
module EmailWebhook {
  import opened Wrappers
  import opened Text
  import opened Json

  type Mac = (string, string, seq<bv8>) -> string

  predicate IsAscii(s: string)
  {
    forall i :: 0 <= i < |s| ==> s[i] < 128 as char
  }

  /** _valid_signature(raw, timestamp, sig): false when the secret is unset or
      empty; hmac.compare_digest raises (and the check answers false) when a
      side holds non-ASCII characters; otherwise the digests must be equal. */
  function ValidSignature(secret: Option<string>, mac: Mac, raw: seq<bv8>, timestamp: string, sig: string): (ok: bool)
  {
    if secret.None? || secret.value == "" then false
    else
      var digest := mac(secret.value, timestamp, raw);
      if !IsAscii(digest) || !IsAscii(sig) then false
      else digest == sig
  }

  lemma ValidSignatureMeaning(secret: Option<string>, mac: Mac, raw: seq<bv8>, timestamp: string, sig: string)
    ensures secret.None? || secret == Some("") ==> !ValidSignature(secret, mac, raw, timestamp, sig)
    ensures secret.Some? && secret.value != "" && IsAscii(sig) ==>
      (ValidSignature(secret, mac, raw, timestamp, sig) <==> mac(secret.value, timestamp, raw) == sig)
    ensures !IsAscii(sig) ==> !ValidSignature(secret, mac, raw, timestamp, sig)
  {
  }

  /** status_map.get(event, "failed"). */
  function StatusFor(event: string): (status: string)
  {
    if event == "bounce" then "bounced"
    else if event == "complaint" then "complaint"
    else if event == "delivered" then "delivered"
    else "failed"
  }

  /** The three known events map to their statuses; every other name,
      including the empty one of a missing event, maps to "failed". */
  lemma StatusMapping(event: string)
    ensures StatusFor(event) in {"bounced", "complaint", "delivered", "failed"}
    ensures StatusFor(event) == "failed" <==> event !in {"bounce", "complaint", "delivered"}
    ensures StatusFor(Lower("BOUNCE")) == "bounced" && StatusFor(Lower("Delivered")) == "delivered"
  {
    assert Lower("BOUNCE") == "bounce";
    assert Lower("Delivered") == "delivered";
  }

  datatype EmailLog = EmailLog(
    userId: Option<int>,
    toEmail: string,
    template: Json,
    subject: Json,
    providerMsgId: Option<Json>,
    status: string,
    meta: Json)

  /** `(payload.get(k) or "")` followed by a string method: None when the value
      is truthy but not a string (the method call raises). */
  function TextField(payload: Json, k: string): Option<string>
  {
    var v := OrElse(Member(payload, k), JStr(""));
    if v.JStr? then Some(v.s) else None
  }

  /** The EmailLog row for a decoded payload, or None when reading the payload
      raises (a non-object body, or a non-string event or email). */
  function LogEntry(payload: Json): (r: Option<EmailLog>)
    ensures r.Some? ==> r.value.userId.None? && r.value.meta == payload
    ensures r.Some? ==> Trimmed(r.value.toEmail) && IsLowered(r.value.toEmail)
    ensures r.Some? ==> r.value.status in {"bounced", "complaint", "delivered", "failed"}
    ensures r.Some? ==> (Member(payload, "template").None? ==> r.value.template == JStr("unknown"))
    ensures r.Some? ==> (Member(payload, "subject").None? ==> r.value.subject == JStr(""))
  {
    if !payload.JObj? then None
    else
      var event := TextField(payload, "event");
      var email := TextField(payload, "email");
      if event.None? || email.None? then None
      else
        var toEmail := Lower(Trim(email.value));
        TrimTrimmed(email.value);
        LowerKeepsShape(Trim(email.value));
        LowerIsLowered(Trim(email.value));
        StatusMapping(Lower(event.value));
        Some(EmailLog(
          None,
          toEmail,
          OrElse(Member(payload, "template"), JStr("unknown")),
          OrElse(Member(payload, "subject"), JStr("")),
          Member(payload, "message_id"),
          StatusFor(Lower(event.value)),
          payload))
  }

  datatype Reply = Unauthorized401 | BadRequest400 | ServerError500 | Ok200

  class EmailLogTable {
    var rows: seq<EmailLog>

    constructor ()
      ensures rows == []
    {
      rows := [];
    }

    /** email_events(): 401 without a valid signature, 400 for a body that is
        not JSON, 500 when the payload cannot be read, and otherwise one
        appended row and 200 {"ok": true}. */
    method EmailEvents(secret: Option<string>, mac: Mac, raw: seq<bv8>, timestamp: string, sig: string, parsed: Option<Json>)
      returns (reply: Reply)
      modifies this
      ensures !ValidSignature(secret, mac, raw, timestamp, sig) ==> reply == Unauthorized401
      ensures ValidSignature(secret, mac, raw, timestamp, sig) && parsed.None? ==> reply == BadRequest400
      ensures reply == Ok200 <==>
        ValidSignature(secret, mac, raw, timestamp, sig) && parsed.Some? && LogEntry(parsed.value).Some?
      ensures reply == Ok200 ==> rows == old(rows) + [LogEntry(parsed.value).value]
      ensures reply != Ok200 ==> rows == old(rows)
    {
      if !ValidSignature(secret, mac, raw, timestamp, sig) {
        return Unauthorized401;
      }
      if parsed.None? {
        return BadRequest400;
      }
      var entry := LogEntry(parsed.value);
      if entry.None? {
        return ServerError500;
      }
      rows := rows + [entry.value];
      reply := Ok200;
    }
  }
}
