/** The normalised view of a payment provider's webhook payload. */
module Payments {
  import opened Wrappers
  import opened Text

  /** JSON scalars; objects and arrays do not occur in the fields that are read. */
  datatype Json = Null | Str(s: string) | Num(n: int) | Bool(b: bool)

  datatype PayStatus = Paid | Failed | Pending

  /** The idempotency key of an event. */
  datatype EventKey = EventKey(provider: string, eventId: string)

  datatype WebhookEvent = WebhookEvent(key: EventKey, eventType: string, orderRef: Option<string>, status: PayStatus)

  const PROVIDER := "ecomtrade24"

  function Printed(j: Json): string {
    match j
    case Null => "None"
    case Str(s) => s
    case Num(n) => if n < 0 then "-" + Digits(-n) else Digits(n)
    case Bool(b) => if b then "True" else "False"
  }

  predicate Truthy(j: Json) {
    match j
    case Null => false
    case Str(s) => s != ""
    case Num(n) => n != 0
    case Bool(b) => b
  }

  function LowerChar(c: char): char {
    if 'A' <= c <= 'Z' then c - 'A' + 'a' else c
  }

  function Lower(s: string): string {
    seq(|s|, i requires 0 <= i < |s| => LowerChar(s[i]))
  }

  function StatusText(payload: map<string, Json>): string {
    Lower(if "status" in payload then Printed(payload["status"]) else "")
  }

  function StatusOf(text: string): PayStatus {
    if text in {"paid", "succeeded", "success", "completed"} then Paid
    else if text in {"failed", "declined", "cancelled", "expired"} then Failed
    else Pending
  }

  function ParseWebhookEvent(payload: map<string, Json>): Result<WebhookEvent, string> {
    if "event" !in payload || "session_id" !in payload then Err("payload missing event/session_id")
    else
      var status := StatusText(payload);
      Ok(WebhookEvent(
        EventKey(PROVIDER, Printed(payload["session_id"]) + ":" + status),
        Printed(payload["event"]),
        if "order_id" in payload && Truthy(payload["order_id"]) then Some(Printed(payload["order_id"])) else None,
        StatusOf(status)))
  }

  /** The event key is the session's text and the lower-cased status, joined by a colon. */
  function IdText(session: string, status: string): string {
    session + ":" + status
  }

  predicate IsLower(s: string) {
    Lower(s) == s
  }

  function SessionOf(p: map<string, Json>): string
    requires "session_id" in p
  {
    Printed(p["session_id"])
  }

  /** The payload's event key tells its session and status from those of every other payload. */
  ghost predicate Identifies(p: map<string, Json>)
    requires ParseWebhookEvent(p).Ok?
  {
    forall q :: ParseWebhookEvent(q).Ok? && ParseWebhookEvent(q).value.key == ParseWebhookEvent(p).value.key ==>
      SessionOf(q) == SessionOf(p) && StatusText(q) == StatusText(p)
  }

  function Delivery(session: string, status: string): map<string, Json> {
    map["event" := Str("payment.session"), "session_id" := Str(session), "status" := Str(status)]
  }

  /** Every session text and every lower-case status text can be delivered. */
  lemma DeliveryReads(session: string, status: string)
    requires IsLower(status)
    ensures var p := Delivery(session, status);
            && ParseWebhookEvent(p).Ok? && SessionOf(p) == session && StatusText(p) == status
            && ParseWebhookEvent(p).value.key.eventId == IdText(session, status)
  {
  }

  lemma LowerIsLower(s: string)
    ensures IsLower(Lower(s))
  {
  }

  /** The id could be cut at this earlier colon of the session's text as well. */
  predicate CutsSession(session: string, i: nat) {
    i < |session| && session[i] == ':' && IsLower(session[i + 1..])
  }

  /** An id is ambiguous if the status text has a colon, or the session's text has one with no upper-case
      letter after it. */
  ghost predicate Ambiguous(session: string, status: string) {
    !ColonFree(status) || exists i: nat :: CutsSession(session, i)
  }

  lemma LowerPointwise(s: string)
    ensures IsLower(s) <==> forall k :: 0 <= k < |s| ==> LowerChar(s[k]) == s[k]
  {
    assert forall k :: 0 <= k < |s| ==> Lower(s)[k] == LowerChar(s[k]);
  }

  lemma CutStatus(session: string, status: string, i: nat) returns (session': string, status': string)
    requires IsLower(status) && i < |status| && status[i] == ':'
    ensures IdText(session', status') == IdText(session, status) && IsLower(status')
    ensures |session'| > |session|
  {
    session', status' := session + ":" + status[..i], status[i + 1..];
    LowerPointwise(status);
    LowerPointwise(status');
    assert status == status[..i] + ":" + status[i + 1..];
  }

  lemma CutSession(session: string, status: string, i: nat) returns (session': string, status': string)
    requires IsLower(status) && CutsSession(session, i)
    ensures IdText(session', status') == IdText(session, status) && IsLower(status')
    ensures |session'| < |session|
  {
    session', status' := session[..i], session[i + 1..] + ":" + status;
    LowerPointwise(status);
    LowerPointwise(session[i + 1..]);
    LowerPointwise(status');
    assert session == session[..i] + ":" + session[i + 1..];
  }

  /** Every ambiguous payload has another one under its key, of another session and status. */
  lemma AmbiguousHasTwin(p: map<string, Json>) returns (q: map<string, Json>)
    requires ParseWebhookEvent(p).Ok? && Ambiguous(SessionOf(p), StatusText(p))
    ensures ParseWebhookEvent(q).Ok? && ParseWebhookEvent(q).value.key == ParseWebhookEvent(p).value.key
    ensures SessionOf(q) != SessionOf(p) && StatusText(q) != StatusText(p)
  {
    var session, status := SessionOf(p), StatusText(p);
    LowerIsLower(if "status" in p then Printed(p["status"]) else "");
    assert ParseWebhookEvent(p).value.key == EventKey(PROVIDER, IdText(session, status));
    hide Lower, LowerChar, IsLower, Printed, StatusOf, SessionOf, StatusText, ParseWebhookEvent;
    var session', status';
    if !ColonFree(status) {
      var i :| 0 <= i < |status| && status[i] == ':';
      session', status' := CutStatus(session, status, i);
    } else {
      var i: nat :| CutsSession(session, i);
      session', status' := CutSession(session, status, i);
    }
    q := Delivery(session', status');
    DeliveryReads(session', status');
    assert |IdText(session', status')| == |session'| + 1 + |status'| && |IdText(session, status)| == |session| + 1 + |status|;
  }

  /** Two different cuts of one text are at two of its colons. */
  lemma CutsAreApart(session: string, status: string, session': string, status': string)
    requires IdText(session, status) == IdText(session', status') && ColonFree(status)
    requires IsLower(status') && |session'| != |session|
    ensures CutsSession(session, |session'|)
  {
    hide IsLower;
    var id, n := IdText(session, status), |session'|;
    assert id == IdText(session', status') && id[|session|] == ':' && id[n] == ':';
    assert forall k :: |session| < k < |id| ==> id[k] == status[k - |session| - 1];
    assert n < |session|;
    var rest := session[n + 1..];
    assert session[n] == id[n];
    LowerPointwise(status');
    LowerPointwise(rest);
    forall k | 0 <= k < |rest|
      ensures rest[k] == status'[k]
    {
      assert rest[k] == id[n + 1 + k];
      assert id[n + 1 + k] == status'[k];
    }
  }

  /** Deliveries of one state of one session share an event key, and a key tells a payload's session and
      status from all others exactly if it is not ambiguous. */
  lemma EventIdIdentifies(p: map<string, Json>)
    requires ParseWebhookEvent(p).Ok?
    ensures Identifies(p) <==> !Ambiguous(SessionOf(p), StatusText(p))
  {
    if Ambiguous(SessionOf(p), StatusText(p)) {
      var q := AmbiguousHasTwin(p);
    } else {
      forall q | ParseWebhookEvent(q).Ok? && ParseWebhookEvent(q).value.key == ParseWebhookEvent(p).value.key
        ensures SessionOf(q) == SessionOf(p) && StatusText(q) == StatusText(p)
      {
        LowerIsLower(if "status" in q then Printed(q["status"]) else "");
        var n := |SessionOf(q)|;
        var id := IdText(SessionOf(p), StatusText(p));
        assert id == IdText(SessionOf(q), StatusText(q));
        if n != |SessionOf(p)| {
          CutsAreApart(SessionOf(p), StatusText(p), SessionOf(q), StatusText(q));
        } else {
          assert SessionOf(p) == id[..n] == SessionOf(q);
          assert StatusText(p) == id[n + 1..] == StatusText(q);
        }
      }
    }
  }

  /** Whether one text has a recognised status, and so counts as a payment or a failure, is lost with it:
      an unrecognised status of one session and the payment of another share a key. */
  lemma ColonsCollide()
    ensures var p, q := Delivery("s", "x:paid"), Delivery("s:x", "paid");
            && ParseWebhookEvent(p).Ok? && ParseWebhookEvent(q).Ok?
            && ParseWebhookEvent(p).value.key == ParseWebhookEvent(q).value.key
            && ParseWebhookEvent(p).value.status == Pending && ParseWebhookEvent(q).value.status == Paid
  {
    var long, short := "x:paid", "paid";
    assert Lower(long) == long && Lower(short) == short;
    assert long[1] == ':' && short[0] == 'p';
    assert "s" + ":" + long == "s:x" + ":" + short;
    assert |long| == 6 && |"succeeded"| == 9 && |"success"| == 7 && |"completed"| == 9;
    assert |"failed"| == 6 && "failed"[0] == 'f' && long[0] == 'x';
  }
}
