/**
 * src/widget/api.ts: `chatSend`, the POST to the chat service, its request,
 * and how the reply body is decoded into the assistant's text.
 */
module ChatApi {
  import opened Wrappers
  import opened JsText
  import opened Json
  import opened Types

  /** `ChatSendPayload`. */
  datatype ChatSendPayload = ChatSendPayload(message: string, sessionId: Option<string>)

  /** What `chatSend` resolves to: the decoded body and the assistant's text. */
  datatype ChatReply = ChatReply(raw: Json, text: string)

  /** `{...payload, venue_id: venueId}`; an absent session id is left out by `JSON.stringify`. */
  function ChatRequestBody(payload: ChatSendPayload, venueId: string): (body: Json)
    ensures body.JObj? && "venue_id" in body.fields && "message" in body.fields
    ensures body.fields["venue_id"] == JStr(venueId)
    ensures body.fields["message"] == JStr(payload.message)
    ensures "session_id" in body.fields <==> payload.sessionId.Some?
    ensures payload.sessionId.Some? ==> body.fields["session_id"] == JStr(payload.sessionId.value)
    ensures body.fields.Keys <= {"message", "session_id", "venue_id"}
  {
    var fields := map["message" := JStr(payload.message)];
    var fields := if payload.sessionId.Some? then fields["session_id" := JStr(payload.sessionId.value)] else fields;
    JObj(fields["venue_id" := JStr(venueId)])
  }

  /**
   * The request `chatSend` hands to `fetch`. The chat key is a build-time
   * constant of the widget, passed in here.
   */
  function ChatRequestFor(apiBase: string, venueId: string, chatApiKey: string, payload: ChatSendPayload): (req: HttpRequest)
    ensures req.url == apiBase + "/api/chat"
    ensures HeaderValue(req.headers, "x-venue-id") == Some(venueId)
    ensures HeaderValue(req.headers, "x-api-key") == Some(chatApiKey)
    ensures req.body == ChatRequestBody(payload, venueId)
  {
    var headers := [("Content-Type", "application/json"), ("x-api-key", chatApiKey), ("x-venue-id", venueId)];
    assert headers[1..][1..] == [("x-venue-id", venueId)];
    assert HeaderValue(headers[1..][1..], "x-venue-id") == Some(venueId);
    assert HeaderValue(headers[1..], "x-venue-id") == Some(venueId);
    HttpRequest(apiBase + "/api/chat", headers, ChatRequestBody(payload, venueId))
  }

  /** `data`: `{}` for an empty body, the parsed value, or `{reply: rawText}` when parsing throws. */
  function DecodeChatBody(rawText: string, parsed: Option<Json>): (data: Json)
    ensures rawText == "" ==> data == JObj(map[])
    ensures rawText != "" && parsed.None? ==> data == JObj(map["reply" := JStr(rawText)])
    ensures rawText != "" && parsed.Some? ==> data == parsed.value
  {
    if rawText == "" then JObj(map[])
    else match parsed
      case Some(v) => v
      case None => JObj(map["reply" := JStr(rawText)])
  }

  /** `data?.reply ?? data?.answer ?? data?.message ?? data?.text ?? (typeof data === "string" ? data : "")`. */
  function ReplyValue(data: Json): (v: Option<Json>)
    ensures !Nullish(Get(data, "reply")) ==> v == Get(data, "reply")
    ensures Nullish(Get(data, "reply")) && !Nullish(Get(data, "answer")) ==> v == Get(data, "answer")
    ensures Nullish(Get(data, "reply")) && Nullish(Get(data, "answer")) && !Nullish(Get(data, "message")) ==>
              v == Get(data, "message")
    ensures (Nullish(Get(data, "reply")) && Nullish(Get(data, "answer")) && Nullish(Get(data, "message"))
             && !Nullish(Get(data, "text"))) ==> v == Get(data, "text")
    ensures (Nullish(Get(data, "reply")) && Nullish(Get(data, "answer")) && Nullish(Get(data, "message"))
             && Nullish(Get(data, "text"))) ==> v == Some(if data.JStr? then data else JStr(""))
  {
    Coalesce(Get(data, "reply"),
      Coalesce(Get(data, "answer"),
        Coalesce(Get(data, "message"),
          Coalesce(Get(data, "text"),
            Some(if data.JStr? then data else JStr(""))))))
  }

  /** `String(assistantText || "")`. */
  function AssistantText(data: Json): (text: string)
    ensures TruthyOpt(ReplyValue(data)) ==> text == ToJsString(ReplyValue(data).value)
    ensures !TruthyOpt(ReplyValue(data)) ==> text == ""
  {
    var v := ReplyValue(data);
    if TruthyOpt(v) then ToJsString(v.value) else ""
  }

  function ChatFallback(status: nat): string {
    "chatSend failed (" + IntToDecimal(status) + ")"
  }

  /** `String(data?.detail || data?.message || data?.error || fallback)`. */
  function ChatErrorMessage(data: Json, status: nat): (msg: string)
    ensures TruthyOpt(Get(data, "detail")) ==> msg == ToJsString(Get(data, "detail").value)
    ensures !TruthyOpt(Get(data, "detail")) && TruthyOpt(Get(data, "message")) ==>
              msg == ToJsString(Get(data, "message").value)
    ensures !TruthyOpt(Get(data, "detail")) && !TruthyOpt(Get(data, "message")) && TruthyOpt(Get(data, "error")) ==>
              msg == ToJsString(Get(data, "error").value)
    ensures !TruthyOpt(Get(data, "detail")) && !TruthyOpt(Get(data, "message")) && !TruthyOpt(Get(data, "error")) ==>
              msg == ChatFallback(status)
  {
    var chosen := OrElse(Get(data, "detail"), OrElse(Get(data, "message"), Get(data, "error")));
    if TruthyOpt(chosen) then ToJsString(chosen.value) else ChatFallback(status)
  }

  /** What `chatSend` resolves to, or the message of the error it throws. */
  function ChatSendResult(outcome: FetchOutcome): (r: Result<ChatReply>)
    ensures outcome.FetchRejected? ==> r == Err(outcome.message)
    ensures outcome.Responded? && !outcome.response.Ok() ==>
              r == Err(ChatErrorMessage(DecodeChatBody(outcome.response.body, outcome.response.parsed),
                                        outcome.response.status))
    ensures outcome.Responded? && outcome.response.Ok() ==>
              r.Ok? && r.value.raw == DecodeChatBody(outcome.response.body, outcome.response.parsed)
              && r.value.text == AssistantText(r.value.raw)
  {
    match outcome
    case FetchRejected(m) => Err(m)
    case Responded(resp) =>
      var data := DecodeChatBody(resp.body, resp.parsed);
      if !resp.Ok() then Err(ChatErrorMessage(data, resp.status))
      else Ok(ChatReply(data, AssistantText(data)))
  }

  /** An empty 2xx body decodes to `{}` and gives empty text. */
  lemma EmptyBodyGivesEmptyText(status: nat, parsed: Option<Json>)
    requires 200 <= status <= 299
    ensures ChatSendResult(Responded(HttpResponse(status, "", parsed))) == Ok(ChatReply(JObj(map[]), ""))
  {
  }

  /** A 2xx body that is not JSON comes back as the text itself. */
  lemma NonJsonBodyIsTheText(status: nat, rawText: string)
    requires 200 <= status <= 299
    ensures ChatSendResult(Responded(HttpResponse(status, rawText, None))).value.text == rawText
  {
  }

  /** A non-2xx body that is not JSON (or is empty) fails with the status message. */
  lemma NonJsonErrorIsFallback(status: nat, rawText: string)
    requires !(200 <= status <= 299)
    ensures ChatSendResult(Responded(HttpResponse(status, rawText, None))) == Err(ChatFallback(status))
  {
  }

  /** A body that is a JSON string yields that string. */
  lemma StringBodyIsTheText(s: string)
    ensures AssistantText(JStr(s)) == s
  {
  }

  /** `??` stops at a present reply even when it is falsy: `{reply: ""}` gives "" whatever else is there. */
  lemma PresentReplyWins(data: Json)
    requires data.JObj? && "reply" in data.fields && !data.fields["reply"].JNull?
    ensures AssistantText(data) == if Truthy(data.fields["reply"]) then ToJsString(data.fields["reply"]) else ""
  {
  }

  /** A reply of `null` is skipped in favour of the answer. */
  lemma NullReplyFallsThrough(answer: string)
    ensures AssistantText(JObj(map["reply" := JNull, "answer" := JStr(answer)])) == answer
  {
  }
}
