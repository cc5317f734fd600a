/**
 * The records of src/lib/types.ts, and the HTTP boundary the two clients talk
 * across: the request they build and the response `fetch` hands back.
 */
module Types {
  import opened Wrappers
  import opened Json

  /** `BookingPrefill`: partial booking fields supplied by the chat service. */
  datatype BookingPrefill = BookingPrefill(
    partySize: Option<int>,
    date: Option<string>,
    time: Option<string>,
    name: Option<string>,
    contact: Option<string>,
    specialRequests: Option<string>)

  /** `ChatAction`: the structured action a chat reply may carry. */
  datatype ChatAction = OpenBookingForm(prefill: Option<BookingPrefill>) | NoAction

  /** `AvailabilitySlot` as the types declare it (the wire value is any JSON, see `SlotToJson`). */
  datatype AvailabilitySlot = AvailabilitySlot(time24h: string, available: bool)

  function SlotToJson(s: AvailabilitySlot): Json {
    JObj(map["time_24h" := JStr(s.time24h), "available" := JBool(s.available)])
  }

  /** `AvailabilityRequest`; a `None` time is sent as JSON `null`. */
  datatype AvailabilityRequest = AvailabilityRequest(
    venueId: string,
    date: string,
    partySize: int,
    time24h: Option<string>)

  function AvailabilityRequestJson(p: AvailabilityRequest): Json {
    JObj(map[
      "venue_id" := JStr(p.venueId),
      "date" := JStr(p.date),
      "party_size" := JNum(p.partySize),
      "time_24h" := if p.time24h.Some? then JStr(p.time24h.value) else JNull])
  }

  /**
   * `AvailabilityResponse`. Its slots are whatever JSON array the server sent:
   * nothing checks their shape before `uniqueAvailableSlots` reads them.
   */
  datatype AvailabilityResponse = AvailabilityResponse(slots: seq<Json>)

  /** `CreateBookingRequest`; an absent optional field is left out by `JSON.stringify`. */
  datatype CreateBookingRequest = CreateBookingRequest(
    venueId: string,
    date: string,
    time24h: string,
    partySize: int,
    name: string,
    contact: Option<string>,
    specialRequests: Option<string>)

  function CreateBookingRequestJson(p: CreateBookingRequest): Json {
    var required := map[
      "venue_id" := JStr(p.venueId),
      "date" := JStr(p.date),
      "time_24h" := JStr(p.time24h),
      "party_size" := JNum(p.partySize),
      "name" := JStr(p.name)];
    var withContact := if p.contact.Some? then required["contact" := JStr(p.contact.value)] else required;
    JObj(if p.specialRequests.Some? then withContact["special_requests" := JStr(p.specialRequests.value)] else withContact)
  }

  /** The body names every field of the payload, and contact and special requests exactly when they are given. */
  lemma RequestJsonFields(p: CreateBookingRequest, body: Json)
    requires body == CreateBookingRequestJson(p)
    ensures body.JObj?
    ensures "venue_id" in body.fields && body.fields["venue_id"] == JStr(p.venueId)
    ensures "date" in body.fields && body.fields["date"] == JStr(p.date)
    ensures "time_24h" in body.fields && body.fields["time_24h"] == JStr(p.time24h)
    ensures "party_size" in body.fields && body.fields["party_size"] == JNum(p.partySize)
    ensures "name" in body.fields && body.fields["name"] == JStr(p.name)
    ensures "contact" in body.fields <==> p.contact.Some?
    ensures p.contact.Some? ==> body.fields["contact"] == JStr(p.contact.value)
    ensures "special_requests" in body.fields <==> p.specialRequests.Some?
    ensures p.specialRequests.Some? ==> body.fields["special_requests"] == JStr(p.specialRequests.value)
  {
  }

  /**
   * `CreateBookingResponse`. The code and URL are stringified by the client; the
   * other three fields hold whatever the server sent (`None` for `undefined`).
   */
  datatype CreateBookingResponse = CreateBookingResponse(
    confirmationCode: Option<string>,
    manageUrl: Option<string>,
    status: Option<Json>,
    checkoutUrl: Option<Json>,
    expiresAt: Option<Json>)

  /** A request as handed to `fetch`: URL, headers in order, and the value given to `JSON.stringify`. */
  datatype HttpRequest = HttpRequest(url: string, headers: seq<(string, string)>, body: Json)

  /** The value of the first header called `name`. */
  function HeaderValue(headers: seq<(string, string)>, name: string): (r: Option<string>)
    ensures r.None? <==> forall i :: 0 <= i < |headers| ==> headers[i].0 != name
    ensures r.Some? ==> exists i :: 0 <= i < |headers| && headers[i] == (name, r.value)
  {
    if headers == [] then None
    else if headers[0].0 == name then Some(headers[0].1)
    else
      var r := HeaderValue(headers[1..], name);
      assert forall i :: 1 <= i < |headers| ==> headers[i] == headers[1..][i - 1];
      r
  }

  /**
   * What `fetch` resolves to, reduced to what the clients read: the status,
   * the body text (`""` when reading it fails), and `parsed`, the value
   * `JSON.parse` returns for that text, or None when it throws.
   */
  datatype HttpResponse = HttpResponse(status: nat, body: string, parsed: Option<Json>) {
    /** `Response.ok`. */
    predicate Ok() {
      200 <= status <= 299
    }
  }

  /** A `fetch` either resolves with a response or rejects with an error message. */
  datatype FetchOutcome = Responded(response: HttpResponse) | FetchRejected(message: string)
}
