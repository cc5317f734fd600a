/**
 * src/lib/bookingClient.ts: the two POST requests to the booking backend
 * (`checkAvailability`, `createBooking`), how each builds its request, and how
 * each turns the response into a value or a thrown message.
 */
module BookingClient {
  import opened Wrappers
  import opened JsText
  import opened Json
  import opened Types

  /** `s.replace(/\/+$/, "")`. */
  function WithNoTrailingSlash(s: string): (r: string)
    ensures r == [] || r[|r| - 1] != '/'
    ensures |r| <= |s| && r == s[..|r|]
    ensures forall i :: |r| <= i < |s| ==> s[i] == '/'
    decreases |s|
  {
    if |s| > 0 && s[|s| - 1] == '/' then WithNoTrailingSlash(s[..|s| - 1]) else s
  }

  function Slashes(k: nat): (r: string)
    ensures |r| == k && forall i :: 0 <= i < k ==> r[i] == '/'
  {
    if k == 0 then "" else Slashes(k - 1) + "/"
  }

  /** Exactly the run of trailing slashes goes: `t` followed by any number of slashes comes back as `t`. */
  lemma {:induction false} WithNoTrailingSlashStripsRun(t: string, k: nat)
    requires t == [] || t[|t| - 1] != '/'
    ensures WithNoTrailingSlash(t + Slashes(k)) == t
  {
    if k > 0 {
      assert (t + Slashes(k))[..|t| + k - 1] == t + Slashes(k - 1);
      WithNoTrailingSlashStripsRun(t, k - 1);
    } else {
      assert t + Slashes(0) == t;
    }
  }

  /** Stripping twice strips nothing more. */
  lemma WithNoTrailingSlashIdempotent(s: string)
    ensures WithNoTrailingSlash(WithNoTrailingSlash(s)) == WithNoTrailingSlash(s)
  {
  }

  /**
   * `parseJsonOrText`: the parsed body, or `{raw: text}` when the text is not
   * JSON. `JSON.parse("")` always throws, so an empty body is `{raw: ""}`
   * whatever `parsed` says.
   */
  function ParseJsonOrText(text: string, parsed: Option<Json>): (data: Json)
    ensures text == "" || parsed.None? ==> data == JObj(map["raw" := JStr(text)])
    ensures text != "" && parsed.Some? ==> data == parsed.value
  {
    if text == "" then JObj(map["raw" := JStr(text)])
    else match parsed
      case Some(v) => v
      case None => JObj(map["raw" := JStr(text)])
  }

  /** An empty body has none of the keys the client reads, so it fails with the status message and yields no slots. */
  lemma EmptyBodyIsNotJson(status: nat, parsed: Option<Json>)
    ensures !(200 <= status <= 299) ==>
              AvailabilityResult(Responded(HttpResponse(status, "", parsed))) == Err(AvailabilityFallback(status))
    ensures 200 <= status <= 299 ==>
              AvailabilityResult(Responded(HttpResponse(status, "", parsed))) == Ok(AvailabilityResponse([]))
    ensures !(200 <= status <= 299) ==>
              BookingResult(Responded(HttpResponse(status, "", parsed))) == Err(BookingFallback(status))
  {
  }

  /** `String(data?.detail || data?.message || data?.error || fallback)`. */
  function ErrorMessage(data: Json, fallback: string): (msg: string)
    ensures TruthyOpt(Get(data, "detail")) ==> msg == ToJsString(Get(data, "detail").value)
    ensures !TruthyOpt(Get(data, "detail")) && TruthyOpt(Get(data, "message")) ==>
              msg == ToJsString(Get(data, "message").value)
    ensures !TruthyOpt(Get(data, "detail")) && !TruthyOpt(Get(data, "message")) && TruthyOpt(Get(data, "error")) ==>
              msg == ToJsString(Get(data, "error").value)
    ensures !TruthyOpt(Get(data, "detail")) && !TruthyOpt(Get(data, "message")) && !TruthyOpt(Get(data, "error")) ==>
              msg == fallback
  {
    var chosen := OrElse(Get(data, "detail"), OrElse(Get(data, "message"), Get(data, "error")));
    if TruthyOpt(chosen) then ToJsString(chosen.value) else fallback
  }

  /** A body that is not JSON has none of the three keys, so the error is always the fallback. */
  lemma NonJsonErrorIsFallback(text: string, fallback: string)
    ensures ErrorMessage(ParseJsonOrText(text, None), fallback) == fallback
  {
  }

  function AvailabilityFallback(status: nat): string {
    "Availability failed (" + IntToDecimal(status) + ")."
  }

  function BookingFallback(status: nat): string {
    "Booking failed (" + IntToDecimal(status) + ")."
  }

  /** The headers both operations send. */
  function BookingHeaders(venueId: string, embedKey: string): seq<(string, string)> {
    [("Content-Type", "application/json"), ("X-Venue-Id", venueId), ("X-Embed-Key", embedKey)]
  }

  /** The venue and embed key travel as headers. */
  lemma BookingHeadersCarryCredentials(venueId: string, embedKey: string)
    ensures HeaderValue(BookingHeaders(venueId, embedKey), "X-Venue-Id") == Some(venueId)
    ensures HeaderValue(BookingHeaders(venueId, embedKey), "X-Embed-Key") == Some(embedKey)
    ensures HeaderValue(BookingHeaders(venueId, embedKey), "Content-Type") == Some("application/json")
  {
    var h := BookingHeaders(venueId, embedKey);
    assert h[1..][1..] == [("X-Embed-Key", embedKey)];
    assert HeaderValue(h[1..][1..], "X-Embed-Key") == Some(embedKey);
    assert HeaderValue(h[1..], "X-Embed-Key") == Some(embedKey);
  }

  /** The request URL: the base without its trailing slashes, then the path. */
  function RequestUrl(base: string, path: string): (url: string)
    ensures url == WithNoTrailingSlash(base) + path
    ensures exists k: nat :: base == WithNoTrailingSlash(base) + Slashes(k)
  {
    var b := WithNoTrailingSlash(base);
    assert base[|b|..] == Slashes(|base| - |b|);
    assert base == b + base[|b|..];
    b + path
  }

  /** The request `checkAvailability` hands to `fetch`. */
  function AvailabilityRequestFor(
    bookingApiBase: string, venueId: string, embedKey: string,
    payload: AvailabilityRequest, availabilityPath: string): (req: HttpRequest)
    ensures req.url == WithNoTrailingSlash(bookingApiBase) + availabilityPath
    ensures req.body == AvailabilityRequestJson(payload)
    ensures HeaderValue(req.headers, "X-Venue-Id") == Some(venueId)
    ensures HeaderValue(req.headers, "X-Embed-Key") == Some(embedKey)
  {
    BookingHeadersCarryCredentials(venueId, embedKey);
    HttpRequest(RequestUrl(bookingApiBase, availabilityPath), BookingHeaders(venueId, embedKey),
                AvailabilityRequestJson(payload))
  }

  /** `Array.isArray(data?.slots) ? data.slots : []`. */
  function SlotsOrEmpty(data: Json): (slots: seq<Json>)
    ensures Get(data, "slots").Some? && Get(data, "slots").value.JArr? ==> slots == Get(data, "slots").value.items
    ensures !(Get(data, "slots").Some? && Get(data, "slots").value.JArr?) ==> slots == []
  {
    match Get(data, "slots")
    case Some(JArr(items)) => items
    case _ => []
  }

  /** What `checkAvailability` resolves to, or the message of the error it throws. */
  function AvailabilityResult(outcome: FetchOutcome): (r: Result<AvailabilityResponse>)
    ensures outcome.FetchRejected? ==> r == Err(outcome.message)
    ensures outcome.Responded? && !outcome.response.Ok() ==>
              r == Err(ErrorMessage(ParseJsonOrText(outcome.response.body, outcome.response.parsed),
                                    AvailabilityFallback(outcome.response.status)))
    ensures outcome.Responded? && outcome.response.Ok() ==>
              r == Ok(AvailabilityResponse(SlotsOrEmpty(ParseJsonOrText(outcome.response.body, outcome.response.parsed))))
  {
    match outcome
    case FetchRejected(m) => Err(m)
    case Responded(resp) =>
      var data := ParseJsonOrText(resp.body, resp.parsed);
      if !resp.Ok() then Err(ErrorMessage(data, AvailabilityFallback(resp.status)))
      else Ok(AvailabilityResponse(SlotsOrEmpty(data)))
  }

  /** A non-2xx response whose body is not JSON fails with the status message; a 2xx one yields no slots. */
  lemma AvailabilityNonJson(status: nat, text: string)
    ensures !(200 <= status <= 299) ==>
              AvailabilityResult(Responded(HttpResponse(status, text, None))) == Err(AvailabilityFallback(status))
    ensures 200 <= status <= 299 ==>
              AvailabilityResult(Responded(HttpResponse(status, text, None))) == Ok(AvailabilityResponse([]))
  {
  }

  /** `normalizeTimeToHHMM`: the same normalisation as the booking modal's prefill normaliser. */
  function NormalizeTimeToHHMM(t: string): string {
    var s := Trim(t);
    match HourMinutePrefix(s)
    case None => s
    // Math.max(0, …) is the identity on the captured digits.
    case Some((h, m)) =>
      PadStart2(NatToDecimal(if h < 23 then h else 23)) + ":" + PadStart2(NatToDecimal(if m < 59 then m else 59))
  }

  /** `HH:MM` on a 24-hour clock: two digits, a colon, two digits, at most 23 and 59. */
  predicate IsClockTime(r: string) {
    && |r| == 5 && IsDigit(r[0]) && IsDigit(r[1]) && r[2] == ':' && IsDigit(r[3]) && IsDigit(r[4])
    && ClockHour(r) <= 23 && ClockMinute(r) <= 59
  }

  /** The hour an `HH:MM` text spells. */
  function ClockHour(r: string): nat
    requires |r| >= 2 && IsDigit(r[0]) && IsDigit(r[1])
  {
    10 * DigitValue(r[0]) + DigitValue(r[1])
  }

  /** The minute an `HH:MM` text spells. */
  function ClockMinute(r: string): nat
    requires |r| >= 5 && IsDigit(r[3]) && IsDigit(r[4])
  {
    10 * DigitValue(r[3]) + DigitValue(r[4])
  }

  /** The zero-padded spelling of a clock time is its four digits around a colon. */
  lemma ClockLayout(hh: nat, mm: nat)
    requires hh <= 23 && mm <= 59
    ensures PadStart2(NatToDecimal(hh)) + ":" + PadStart2(NatToDecimal(mm))
            == [DigitChar(hh / 10), DigitChar(hh % 10), ':', DigitChar(mm / 10), DigitChar(mm % 10)]
  {
    TwoDigits(hh);
    TwoDigits(mm);
  }

  /** Four digits around a colon are untouched by `trim` and match the pattern with a two-digit hour. */
  lemma ClockDigits(r: string, a: nat, b: nat, c: nat, d: nat, h: nat, m: nat)
    requires a < 10 && b < 10 && c < 10 && d < 10 && h == 10 * a + b && m == 10 * c + d
    requires r == [DigitChar(a), DigitChar(b), ':', DigitChar(c), DigitChar(d)]
    ensures Trim(r) == r && HourMinutePrefix(r) == Some((h, m))
  {
    assert r[..2] == [DigitChar(a), DigitChar(b)];
    assert r[3..5] == [DigitChar(c), DigitChar(d)];
    DigitPair(a, b);
    DigitPair(c, d);
    assert HourMinuteAt(r, 2);
    TrimOfTrimmed(r);
  }

  lemma DigitPair(x: nat, y: nat)
    requires x < 10 && y < 10
    ensures AllDigits([DigitChar(x), DigitChar(y)])
    ensures DecimalValue([DigitChar(x), DigitChar(y)]) == 10 * x + y
  {
    TwoDigitValue([DigitChar(x), DigitChar(y)]);
  }

  lemma DivMod10(n: nat)
    ensures n == 10 * (n / 10) + n % 10
  {
  }

  /** The zero-padded spelling `r` of a clock time spells its hour and minute, and is its own normal form. */
  lemma ClockSpelling(hh: nat, mm: nat, r: string)
    requires hh <= 23 && mm <= 59
    requires r == PadStart2(NatToDecimal(hh)) + ":" + PadStart2(NatToDecimal(mm))
    ensures IsClockTime(r) && ClockHour(r) == hh && ClockMinute(r) == mm
    ensures Trim(r) == r && HourMinutePrefix(r) == Some((hh, mm))
  {
    ClockLayout(hh, mm);
    ClockFields(hh, mm, r);
    ClockDigits(r, hh / 10, hh % 10, mm / 10, mm % 10, hh, mm);
  }

  lemma ClockFields(hh: nat, mm: nat, r: string)
    requires hh <= 23 && mm <= 59
    requires r == [DigitChar(hh / 10), DigitChar(hh % 10), ':', DigitChar(mm / 10), DigitChar(mm % 10)]
    ensures IsClockTime(r) && ClockHour(r) == hh && ClockMinute(r) == mm
    ensures 10 * (hh / 10) + hh % 10 == hh && 10 * (mm / 10) + mm % 10 == mm
  {
    DivMod10(hh);
    DivMod10(mm);
  }

  /** A time that starts with `H:MM` or `HH:MM` comes out as `HH:MM`, the hour capped at 23 and the minute at 59. */
  lemma NormalizeMatched(t: string, h: nat, m: nat)
    requires HourMinutePrefix(Trim(t)) == Some((h, m))
    ensures IsClockTime(NormalizeTimeToHHMM(t))
    ensures ClockHour(NormalizeTimeToHHMM(t)) == if h < 23 then h else 23
    ensures ClockMinute(NormalizeTimeToHHMM(t)) == if m < 59 then m else 59
  {
    ClockSpelling(if h < 23 then h else 23, if m < 59 then m else 59, NormalizeTimeToHHMM(t));
  }

  /** Any other text comes out trimmed and otherwise unchanged. */
  lemma NormalizeUnmatched(t: string)
    requires !HourMinuteAt(Trim(t), 1) && !HourMinuteAt(Trim(t), 2)
    ensures NormalizeTimeToHHMM(t) == Trim(t)
  {
  }

  /** The normal form is the trimmed text or a clock time, and a clock time exactly when the pattern matches. */
  lemma NormalizeShape(t: string)
    ensures NormalizeTimeToHHMM(t) == Trim(t) || IsClockTime(NormalizeTimeToHHMM(t))
    ensures HourMinutePrefix(Trim(t)).Some? ==> IsClockTime(NormalizeTimeToHHMM(t))
  {
    match HourMinutePrefix(Trim(t))
    case None =>
    case Some((h, m)) =>
      NormalizeMatched(t, h, m);
  }

  /** Normalising a normalised time changes nothing. */
  lemma NormalizeIdempotent(t: string)
    ensures NormalizeTimeToHHMM(NormalizeTimeToHHMM(t)) == NormalizeTimeToHHMM(t)
  {
    match HourMinutePrefix(Trim(t))
    case None =>
      TrimIdempotent(t);
    case Some((h, m)) =>
      var hh, mm := if h < 23 then h else 23, if m < 59 then m else 59;
      var r := NormalizeTimeToHHMM(t);
      MatchedSpelling(t, h, m, hh, mm);
      ClockSpelling(hh, mm, r);
      MatchedSpelling(r, hh, mm, hh, mm);
  }

  /** The spelling of a matched time, its hour capped at 23 and its minute at 59. */
  lemma MatchedSpelling(t: string, h: nat, m: nat, hh: nat, mm: nat)
    requires HourMinutePrefix(Trim(t)) == Some((h, m))
    requires hh == (if h < 23 then h else 23) && mm == (if m < 59 then m else 59)
    ensures NormalizeTimeToHHMM(t) == PadStart2(NatToDecimal(hh)) + ":" + PadStart2(NatToDecimal(mm))
  {
  }

  /** Worked examples: an hour and minute out of range are capped, */
  lemma CappedExample()
    ensures NormalizeTimeToHHMM("25:99") == "23:59"
  {
    var s := "25:99";
    ClockDigits(s, 2, 5, 9, 9, 25, 99);
    MatchedDigits(s, 25, 99, 23, 59);
  }

  /** a one-digit hour is padded once the surrounding blanks are trimmed, */
  lemma PaddedExample()
    ensures NormalizeTimeToHHMM(" 7:05 ") == "07:05"
  {
    var s := "7:05";
    PaddedTrim();
    assert !HourMinuteAt(s, 2);
    assert s[..1] == [DigitChar(7)] && s[..1][..0] == [];
    assert s[2..4] == [DigitChar(0), DigitChar(5)];
    DigitPair(0, 5);
    assert HourMinuteAt(s, 1);
    assert HourMinutePrefix(s) == Some((7, 5));
    MatchedDigits(" 7:05 ", 7, 5, 7, 5);
  }

  lemma PaddedTrim()
    ensures Trim(" 7:05 ") == "7:05"
  {
    var s := "7:05";
    assert TrimStart(" 7:05 ") == TrimStart(s + " ") == s + " ";
    assert TrimEnd(s + " ") == TrimEnd(s) == s;
  }

  /** seconds are dropped, */
  lemma SecondsExample()
    ensures NormalizeTimeToHHMM("19:00:00") == "19:00"
  {
    var s := "19:00:00";
    TrimOfTrimmed(s);
    assert s[..2] == [DigitChar(1), DigitChar(9)] && s[3..5] == [DigitChar(0), DigitChar(0)];
    DigitPair(1, 9);
    DigitPair(0, 0);
    assert HourMinuteAt(s, 2);
    assert HourMinutePrefix(s) == Some((19, 0));
    MatchedDigits(s, 19, 0, 19, 0);
  }

  /** The digits a matched time comes out as. */
  lemma MatchedDigits(t: string, h: nat, m: nat, hh: nat, mm: nat)
    requires HourMinutePrefix(Trim(t)) == Some((h, m))
    requires hh == (if h < 23 then h else 23) && mm == (if m < 59 then m else 59)
    ensures NormalizeTimeToHHMM(t) == [DigitChar(hh / 10), DigitChar(hh % 10), ':', DigitChar(mm / 10), DigitChar(mm % 10)]
  {
    MatchedSpelling(t, h, m, hh, mm);
    ClockLayout(hh, mm);
  }

  /** and a one-digit minute does not match, so the text comes back as it was. */
  lemma OneDigitMinuteExample()
    ensures NormalizeTimeToHHMM("7:5") == "7:5"
  {
    TrimOfTrimmed("7:5");
  }

  /** The request `createBooking` hands to `fetch`: the payload with only its time normalised. */
  function CreateBookingRequestFor(
    bookingApiBase: string, venueId: string, embedKey: string,
    payload: CreateBookingRequest, createBookingPath: string): (req: HttpRequest)
    ensures req.url == WithNoTrailingSlash(bookingApiBase) + createBookingPath
    ensures req.body == CreateBookingRequestJson(payload.(time24h := NormalizeTimeToHHMM(payload.time24h)))
    ensures HeaderValue(req.headers, "X-Venue-Id") == Some(venueId)
    ensures HeaderValue(req.headers, "X-Embed-Key") == Some(embedKey)
  {
    var time24h := NormalizeTimeToHHMM(payload.time24h);
    BookingHeadersCarryCredentials(venueId, embedKey);
    HttpRequest(RequestUrl(bookingApiBase, createBookingPath), BookingHeaders(venueId, embedKey),
                CreateBookingRequestJson(payload.(time24h := time24h)))
  }

  /** The body `createBooking` sends differs from the payload's own in `time_24h` alone. */
  lemma BookingJsonWithTime(p: CreateBookingRequest, t: string)
    ensures CreateBookingRequestJson(p.(time24h := t)).fields == CreateBookingRequestJson(p).fields["time_24h" := JStr(t)]
  {
  }

  /** `data?.key ? String(data.key) : undefined`. */
  function StringIfTruthy(data: Json, key: string): (r: Option<string>)
    ensures r.Some? <==> TruthyOpt(Get(data, key))
    ensures r.Some? ==> r.value == ToJsString(Get(data, key).value)
  {
    if TruthyOpt(Get(data, key)) then Some(ToJsString(Get(data, key).value)) else None
  }

  /** What `createBooking` resolves to, or the message of the error it throws. */
  function BookingResult(outcome: FetchOutcome): (r: Result<CreateBookingResponse>)
    ensures outcome.FetchRejected? ==> r == Err(outcome.message)
    ensures outcome.Responded? && !outcome.response.Ok() ==>
              r == Err(ErrorMessage(ParseJsonOrText(outcome.response.body, outcome.response.parsed),
                                    BookingFallback(outcome.response.status)))
    ensures outcome.Responded? && outcome.response.Ok() ==> r.Ok?
  {
    match outcome
    case FetchRejected(m) => Err(m)
    case Responded(resp) =>
      var data := ParseJsonOrText(resp.body, resp.parsed);
      if !resp.Ok() then Err(ErrorMessage(data, BookingFallback(resp.status)))
      else Ok(CreateBookingResponse(
        StringIfTruthy(data, "confirmation_code"),
        StringIfTruthy(data, "manage_url"),
        Get(data, "status"),
        Get(data, "checkout_url"),
        Get(data, "expires_at")))
  }

  /** The field mapping of a successful booking: code and URL only when truthy, the rest as sent. */
  lemma BookingResultFields(resp: HttpResponse)
    requires resp.Ok()
    ensures var data := ParseJsonOrText(resp.body, resp.parsed);
            var r := BookingResult(Responded(resp)).value;
            && (r.confirmationCode.Some? <==> TruthyOpt(Get(data, "confirmation_code")))
            && (r.confirmationCode.Some? ==> r.confirmationCode.value == ToJsString(Get(data, "confirmation_code").value))
            && (r.manageUrl.Some? <==> TruthyOpt(Get(data, "manage_url")))
            && (r.manageUrl.Some? ==> r.manageUrl.value == ToJsString(Get(data, "manage_url").value))
            && r.status == Get(data, "status")
            && r.checkoutUrl == Get(data, "checkout_url")
            && r.expiresAt == Get(data, "expires_at")
  {
  }

  /** A payment-required answer is a success like any other 2xx: it reaches the caller unchanged. */
  lemma RequiresPaymentIsSuccess(status: nat, text: string)
    requires 200 <= status <= 299 && text != ""
    ensures var data := JObj(map["status" := JStr("requires_payment"), "checkout_url" := JStr("https://pay")]);
            BookingResult(Responded(HttpResponse(status, text, Some(data))))
              == Ok(CreateBookingResponse(None, None, Some(JStr("requires_payment")), Some(JStr("https://pay")), None))
  {
  }
}
