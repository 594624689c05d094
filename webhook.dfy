/**
 * The relay call: one POST of `{ "text": message }` to a webhook URL, and
 * the error text a failed call produces.
 */
module Webhook {

  import opened Types
  import opened Json
  import Strings

  const InvalidUrlMessage := "Invalid webhook URL. Must start with http:// or https://"
  const StatusPrefix := "Request failed with status "

  /**
   * The message of the TypeError that `text()` raises on a response whose
   * body was already consumed (its exact wording depends on the platform).
   */
  const BodyUsedMessage := "body stream already read"

  /** The only URL validation the service does. */
  predicate HasHttpScheme(url: string) {
    Strings.StartsWith(url, "http://") || Strings.StartsWith(url, "https://")
  }

  function Payload(message: string): Json {
    JObj([("text", JStr(message))])
  }

  /** The request body: `JSON.stringify({ text: message })`. */
  function RequestBody(message: string): string {
    Stringify(Payload(message))
  }

  const BodyHead := "{\"text\":\""
  const BodyTail := "\"}"

  /** What a receiver reads out of a body of that shape. */
  function TextOfBody(body: string): Option<string> {
    if Strings.StartsWith(body, BodyHead) && |body| >= |BodyHead| + |BodyTail|
       && body[|body| - |BodyTail|..] == BodyTail
    then Unescape(body[|BodyHead|..|body| - |BodyTail|])
    else None
  }

  /** A receiver gets back exactly the text that was sent. */
  lemma RequestBodyRoundTrip(message: string)
    ensures TextOfBody(RequestBody(message)) == Some(message)
  {
    var e := Escape(message);
    var body := RequestBody(message);
    EscapePlain("text");
    assert StringifyFields([("text", JStr(message))]) == "\"text\":" + Quote(message);
    assert body == BodyHead + e + BodyTail;
    assert body[..|BodyHead|] == BodyHead;
    assert body[|body| - |BodyTail|..] == BodyTail;
    assert body[|BodyHead|..|body| - |BodyTail|] == e;
    UnescapeEscape(message);
  }

  /**
   * What the endpoint answered: either the network call itself failed, or a
   * reply came with a status, a body text and the result of parsing that body
   * as JSON (`None` when it does not parse).
   */
  datatype Delivery =
    | NetworkFailure(reason: string)
    | Replied(status: nat, body: string, parsed: Option<Json>)

  /** `response.ok`. */
  predicate IsOk(status: nat) {
    200 <= status <= 299
  }

  /** The statuses whose responses have no body at all (Fetch standard, "null body status"). */
  predicate NullBodyStatus(status: nat) {
    status == 101 || status == 103 || status == 204 || status == 205 || status == 304
  }

  datatype Outcome = Delivered | Failed(message: string)

  datatype Request = Request(url: string, body: string)

  /** `errorData.error?.message || errorData`. */
  function DetailSource(data: Json): Json {
    var err := Property(data, "error");
    var message := if err.Some? then Property(err.value, "message") else None;
    if message.Some? && Truthy(message.value) then message.value else data
  }

  function StatusMessage(status: nat): string {
    StatusPrefix + Strings.NatToString(status)
  }

  /**
   * The error text of a failed reply: the status line, then the JSON of the
   * error message (or of the whole body) when the body is JSON, else the body
   * text when there is one.
   */
  function ErrorDetails(status: nat, parsed: Option<Json>, text: string): (r: string)
    ensures Strings.StartsWith(r, StatusMessage(status))
    ensures r == StatusMessage(status) <==> parsed.None? && text == ""
  {
    var head := StatusMessage(status);
    match parsed
    case Some(data) => head + ": " + Stringify(DetailSource(data))
    case None => if text != "" then head + ": " + text else head
  }

  /** The status a reader finds after the prefix of an error text. */
  function StatusOf(details: string): Option<nat> {
    if Strings.StartsWith(details, StatusPrefix) then
      var digits := Strings.LeadingDigits(details[|StatusPrefix|..]);
      if digits == [] then None else Some(Strings.DigitsValue(digits))
    else None
  }

  lemma {:induction false} LeadingDigitsOfAppend(d: string, rest: string)
    requires Strings.AllDigits(d)
    requires rest != [] ==> !Strings.IsDigit(rest[0])
    ensures Strings.LeadingDigits(d + rest) == d
  {
    if d != [] {
      assert (d + rest)[1..] == d[1..] + rest;
      LeadingDigitsOfAppend(d[1..], rest);
    } else {
      assert d + rest == rest;
    }
  }

  /** The status can always be read back out of the error text. */
  lemma ErrorDetailsStatus(status: nat, parsed: Option<Json>, text: string)
    ensures StatusOf(ErrorDetails(status, parsed, text)) == Some(status)
  {
    var r := ErrorDetails(status, parsed, text);
    var n := Strings.NatToString(status);
    var rest := r[|StatusMessage(status)|..];
    assert rest == [] || rest[0] == ':';
    assert r[|StatusPrefix|..] == n + rest;
    LeadingDigitsOfAppend(n, rest);
    Strings.NatToStringRoundTrip(status);
  }

  /**
   * The detail of a JSON body: a truthy `error.message` when there is one (a
   * non-empty message string is written as a JSON string), else the whole body.
   * Only the `error` key is looked at, and the body text plays no part once
   * the body parsed.
   */
  lemma ErrorMessageIsDetail(status: nat, data: Json, text: string)
    ensures ErrorDetails(status, Some(data), text) == ErrorDetails(status, Some(data), "")
    ensures var err := Property(data, "error");
      err.Some? && Property(err.value, "message").Some? && Truthy(Property(err.value, "message").value) ==>
        ErrorDetails(status, Some(data), text)
        == StatusMessage(status) + ": " + Stringify(Property(err.value, "message").value)
    ensures forall m :: Property(data, "error").Some? && Property(Property(data, "error").value, "message") == Some(JStr(m)) && m != "" ==>
        ErrorDetails(status, Some(data), text) == StatusMessage(status) + ": " + Quote(m)
    ensures var err := Property(data, "error");
      err.None? || Property(err.value, "message").None? || !Truthy(Property(err.value, "message").value) ==>
        ErrorDetails(status, Some(data), text) == StatusMessage(status) + ": " + Stringify(data)
  {
  }

  /** Once a body carries a truthy `error.message`, its other keys do not reach the error text. */
  lemma OtherKeysIgnored(status: nat, data: Json, other: Json, text: string)
    requires Property(data, "error") == Property(other, "error")
    requires Property(data, "error").Some? && Property(Property(data, "error").value, "message").Some?
    requires Truthy(Property(Property(data, "error").value, "message").value)
    ensures ErrorDetails(status, Some(data), text) == ErrorDetails(status, Some(other), "")
  {
  }

  /**
   * The outcome of one relay attempt as the error text is evidently meant to
   * be composed: the body text is read once, and the JSON detail is taken from
   * it when it parses.
   */
  function Relay(url: string, delivery: Delivery): (r: Outcome)
    ensures !HasHttpScheme(url) ==> r == Failed(InvalidUrlMessage)
    ensures HasHttpScheme(url) && delivery.NetworkFailure? ==> r == Failed(delivery.reason)
    ensures HasHttpScheme(url) && delivery.Replied? ==>
      (r.Delivered? <==> IsOk(delivery.status))
    ensures HasHttpScheme(url) && delivery.Replied? && !IsOk(delivery.status) ==>
      r == Failed(ErrorDetails(delivery.status, delivery.parsed, delivery.body))
  {
    if !HasHttpScheme(url) then Failed(InvalidUrlMessage)
    else match delivery
      case NetworkFailure(reason) => Failed(reason)
      case Replied(status, body, parsed) =>
        if IsOk(status) then Delivered else Failed(ErrorDetails(status, parsed, body))
  }

  /**
   * The outcome of `sendMessage` as written: `response.json()` consumes the
   * body, so the fallback `response.text()` in the catch branch fails whenever
   * the body was not JSON (or was the JSON `null`, whose `.error` throws),
   * except for the statuses that have no body to consume.
   */
  function WrittenOutcome(url: string, delivery: Delivery): (r: Outcome)
    ensures !HasHttpScheme(url) ==> r == Failed(InvalidUrlMessage)
    ensures HasHttpScheme(url) && delivery.NetworkFailure? ==> r == Failed(delivery.reason)
    ensures HasHttpScheme(url) && delivery.Replied? ==> (r.Delivered? <==> IsOk(delivery.status))
    ensures HasHttpScheme(url) && delivery.Replied? && !IsOk(delivery.status) ==>
      if delivery.parsed.Some? && !delivery.parsed.value.JNull? then
        r == Failed(ErrorDetails(delivery.status, delivery.parsed, delivery.body))
      else if NullBodyStatus(delivery.status) then
        r == Failed(ErrorDetails(delivery.status, None, ""))
      else
        r == Failed(BodyUsedMessage)
  {
    if !HasHttpScheme(url) then Failed(InvalidUrlMessage)
    else match delivery
      case NetworkFailure(reason) => Failed(reason)
      case Replied(status, body, parsed) =>
        if IsOk(status) then Delivered
        else if parsed.Some? && !parsed.value.JNull? then
          Failed(StatusMessage(status) + ": " + Stringify(DetailSource(parsed.value)))
        else if !NullBodyStatus(status) then Failed(BodyUsedMessage)
        else Failed(StatusMessage(status))
  }

  /**
   * `sendMessage` as written, step by step: the request it makes, if any,
   * and the outcome, with the error text built up as the source builds it.
   */
  method SendMessage(url: string, message: string, delivery: Delivery)
    returns (request: Option<Request>, outcome: Outcome)
    ensures !HasHttpScheme(url) ==> request.None?
    ensures HasHttpScheme(url) ==> request == Some(Request(url, RequestBody(message)))
    ensures outcome == WrittenOutcome(url, delivery)
  {
    if !HasHttpScheme(url) {
      return None, Failed(InvalidUrlMessage);
    }
    request := Some(Request(url, RequestBody(message)));
    match delivery {
      case NetworkFailure(reason) =>
        outcome := Failed(reason);
      case Replied(status, body, parsed) =>
        if IsOk(status) {
          outcome := Delivered;
        } else {
          var errorDetails := StatusMessage(status);
          // response.json(): reading the body marks it used, even when parsing fails
          var bodyUsed := !NullBodyStatus(status);
          if parsed.Some? && !parsed.value.JNull? {
            errorDetails := errorDetails + ": " + Stringify(DetailSource(parsed.value));
            outcome := Failed(errorDetails);
          } else if bodyUsed {
            // response.text() rejects, and its TypeError leaves sendMessage
            outcome := Failed(BodyUsedMessage);
          } else {
            // a status without a body reads as the empty text, which adds nothing
            outcome := Failed(errorDetails);
          }
        }
    }
  }

  /**
   * The written and the intended relay deliver on the same replies, and fail
   * with the same text except on a failed reply whose body is not a JSON value
   * other than `null`.
   */
  lemma WrittenAgreesWithRelay(url: string, delivery: Delivery)
    ensures WrittenOutcome(url, delivery).Delivered? <==> Relay(url, delivery).Delivered?
    ensures !HasHttpScheme(url) || delivery.NetworkFailure? || IsOk(delivery.status)
            || (delivery.parsed.Some? && !delivery.parsed.value.JNull?) ==>
      WrittenOutcome(url, delivery) == Relay(url, delivery)
  {
  }

  /** The two differ on every failed reply whose body is plain text. */
  lemma PlainTextBodyIsLost(status: nat, body: string)
    requires !IsOk(status) && !NullBodyStatus(status) && body != ""
    ensures Relay("https://", Replied(status, body, None))
         == Failed(StatusMessage(status) + ": " + body)
    ensures WrittenOutcome("https://", Replied(status, body, None)) == Failed(BodyUsedMessage)
    ensures WrittenOutcome("https://", Replied(status, body, None))
         != Relay("https://", Replied(status, body, None))
  {
    assert Strings.StartsWith("https://", "https://");
    var r := StatusMessage(status) + ": " + body;
    assert r[0] == 'R' && BodyUsedMessage[0] == 'b';
  }
}
