/**
 * src/components/BookingModal.tsx: the three-step booking wizard (1: date and
 * party size, 2: pick a time, 3: details and confirm), how a prefill from the
 * chat fills it, and the two helpers above the component that normalise a
 * prefilled time and collect the offered times.
 *
 * Each handler runs to completion in one step: the request it would hand to
 * `fetch` is returned, and what `fetch` resolved to is an argument.
 */
module BookingModal {
  import opened Wrappers
  import opened JsText
  import opened Json
  import opened Types
  import opened BookingClient

  /**
   * `normalizePrefillTime(t)`: its body is character for character the one of
   * `normalizeTimeToHHMM`, applied to `t || ""`, so it is defined by it.
   */
  function NormalizePrefillTime(t: Option<string>): (r: string)
    ensures t.None? ==> r == ""
  {
    NormalizeTimeToHHMM(t.GetOr(""))
  }

  /** A prefilled time of only white space is truthy, yet normalises to the empty time. */
  lemma BlankPrefillTime(t: string)
    requires AllWhitespace(t)
    ensures NormalizePrefillTime(Some(t)) == ""
  {
    TrimEmptyIffWhitespace(t);
    assert !HourMinuteAt(Trim(t), 1) && !HourMinuteAt(Trim(t), 2);
  }

  // ---------------------------------------------------------------------------
  // The offered times: `uniqueAvailableSlots`
  // ---------------------------------------------------------------------------

  /** `res?.slots || []`: an array is truthy even when empty. */
  function SlotsOf(res: Option<AvailabilityResponse>): seq<Json> {
    if res.Some? then res.value.slots else []
  }

  /**
   * The time one slot contributes: none unless `s?.available` is truthy and
   * `String(s.time_24h ?? "").trim()` is non-empty.
   */
  function SlotTime(s: Json): (t: Option<string>)
    ensures t.Some? ==> TruthyOpt(Get(s, "available"))
    ensures t.Some? ==> |t.value| > 0 && IsTrimmed(t.value)
  {
    if !TruthyOpt(Get(s, "available")) then None
    else
      var t := Trim(ToJsString(Coalesce(Get(s, "time_24h"), Some(JStr(""))).value));
      if |t| == 0 then None else Some(t)
  }

  /** A slot as the types declare it contributes its trimmed time exactly when it is available and that time is not blank. */
  lemma TypedSlotTime(s: AvailabilitySlot)
    ensures SlotTime(SlotToJson(s)) == if s.available && |Trim(s.time24h)| > 0 then Some(Trim(s.time24h)) else None
  {
    assert Get(SlotToJson(s), "available") == Some(JBool(s.available));
    assert Get(SlotToJson(s), "time_24h") == Some(JStr(s.time24h));
  }

  /** The times of the slots, in slot order, repeats included. */
  function Candidates(slots: seq<Json>): (c: seq<string>)
    ensures |c| <= |slots|
  {
    if slots == [] then []
    else
      var rest := Candidates(slots[..|slots| - 1]);
      var last := SlotTime(slots[|slots| - 1]);
      if last.Some? then rest + [last.value] else rest
  }

  /** Every time a slot contributes is a candidate. */
  lemma {:induction false} CandidatesComplete(slots: seq<Json>, i: int, t: string)
    requires 0 <= i < |slots| && SlotTime(slots[i]) == Some(t)
    ensures t in Candidates(slots)
    decreases |slots|
  {
    var n := |slots| - 1;
    if i < n {
      assert slots[..n][i] == slots[i];
      CandidatesComplete(slots[..n], i, t);
      CandidateKept(slots, n, t);
    } else {
      CandidateAdded(slots, n, t);
    }
    assert slots[..n + 1] == slots;
  }

  lemma CandidateAdded(slots: seq<Json>, i: int, t: string)
    requires 0 <= i < |slots| && SlotTime(slots[i]) == Some(t)
    ensures t in Candidates(slots[..i + 1])
  {
    CandidatesSnoc(slots, i);
  }

  lemma CandidateKept(slots: seq<Json>, k: int, t: string)
    requires 0 <= k < |slots| && t in Candidates(slots[..k])
    ensures t in Candidates(slots[..k + 1])
  {
    CandidatesSnoc(slots, k);
  }

  /** Every candidate is the time of some slot. */
  lemma {:induction false} CandidatesSound(slots: seq<Json>, t: string)
    requires t in Candidates(slots)
    ensures exists i :: 0 <= i < |slots| && SlotTime(slots[i]) == Some(t)
    decreases |slots|
  {
    var init := slots[..|slots| - 1];
    if t in Candidates(init) {
      CandidatesSound(init, t);
      var i :| 0 <= i < |init| && SlotTime(init[i]) == Some(t);
      assert init[i] == slots[i];
    } else {
      assert SlotTime(slots[|slots| - 1]) == Some(t);
    }
  }

  predicate NoDuplicates(d: seq<string>) {
    forall i, j :: 0 <= i < j < |d| ==> d[i] != d[j]
  }

  /** The first occurrence of each element of `c`, in the order of `c`. */
  function Dedup(c: seq<string>): (d: seq<string>)
    ensures forall t :: t in d <==> t in c
    ensures NoDuplicates(d)
  {
    if c == [] then []
    else
      var init := c[..|c| - 1];
      var d := Dedup(init);
      var x := c[|c| - 1];
      assert c == init + [x];
      if x in d then d else d + [x]
  }

  /** The position of the first `t` in `c`. */
  function FirstIndex(c: seq<string>, t: string): (k: nat)
    requires t in c
    ensures k < |c| && c[k] == t
    ensures forall j :: 0 <= j < k ==> c[j] != t
  {
    if c[0] == t then 0
    else
      assert t in c[1..];
      1 + FirstIndex(c[1..], t)
  }

  /** Appending to a sequence does not move the first occurrence of what it already held. */
  lemma FirstIndexExtend(p: seq<string>, x: string, t: string)
    requires t in p
    ensures FirstIndex(p + [x], t) == FirstIndex(p, t)
  {
    var k := FirstIndex(p, t);
    assert (p + [x])[k] == t;
  }

  /** Something new appended is first found at the end. */
  lemma FirstIndexOfNew(p: seq<string>, x: string)
    requires x !in p
    ensures FirstIndex(p + [x], x) == |p|
  {
    assert forall j :: 0 <= j < |p| ==> (p + [x])[j] == p[j];
  }

  /** The kept times come in the order in which each was first offered. */
  lemma {:induction false} DedupKeepsFirstOrder(c: seq<string>, i: int, j: int)
    requires 0 <= i < j < |Dedup(c)|
    ensures FirstIndex(c, Dedup(c)[i]) < FirstIndex(c, Dedup(c)[j])
  {
    var p := c[..|c| - 1];
    var x := c[|c| - 1];
    assert c == p + [x];
    var d := Dedup(c);
    var dp := Dedup(p);
    if x in dp {
      assert d == dp;
      DedupKeepsFirstOrder(p, i, j);
      FirstIndexExtend(p, x, dp[i]);
      FirstIndexExtend(p, x, dp[j]);
    } else {
      assert d == dp + [x];
      FirstIndexExtend(p, x, dp[i]);
      if j < |dp| {
        DedupKeepsFirstOrder(p, i, j);
        FirstIndexExtend(p, x, dp[j]);
      } else {
        FirstIndexOfNew(p, x);
      }
    }
  }

  /** Extending the slots by one extends their candidate times by that slot's time, if any. */
  lemma CandidatesSnoc(slots: seq<Json>, i: int)
    requires 0 <= i < |slots|
    ensures Candidates(slots[..i + 1]) ==
              if SlotTime(slots[i]).Some? then Candidates(slots[..i]) + [SlotTime(slots[i]).value] else Candidates(slots[..i])
  {
    assert slots[..i + 1][..i] == slots[..i];
  }

  /** Extending by one element extends the first occurrences by it when it is new. */
  lemma DedupSnoc(c: seq<string>, x: string)
    ensures Dedup(c + [x]) == if x in Dedup(c) then Dedup(c) else Dedup(c) + [x]
  {
    assert (c + [x])[..|c|] == c;
  }

  /** A slot without a time leaves the first occurrences as they are. */
  lemma SkipSlot(slots: seq<Json>, i: int, out: seq<string>)
    requires 0 <= i < |slots| && SlotTime(slots[i]).None?
    requires out == Dedup(Candidates(slots[..i]))
    ensures out == Dedup(Candidates(slots[..i + 1]))
  {
    CandidatesSnoc(slots, i);
  }

  /** A slot whose time was already seen leaves the first occurrences as they are. */
  lemma SkipSeen(slots: seq<Json>, i: int, out: seq<string>, t: string)
    requires 0 <= i < |slots| && SlotTime(slots[i]) == Some(t) && t in out
    requires out == Dedup(Candidates(slots[..i]))
    ensures out == Dedup(Candidates(slots[..i + 1]))
  {
    CandidatesSnoc(slots, i);
    DedupSnoc(Candidates(slots[..i]), t);
  }

  /** A slot with a new time appends it to the first occurrences. */
  lemma KeepNew(slots: seq<Json>, i: int, out: seq<string>, t: string)
    requires 0 <= i < |slots| && SlotTime(slots[i]) == Some(t) && t !in out
    requires out == Dedup(Candidates(slots[..i]))
    ensures out + [t] == Dedup(Candidates(slots[..i + 1]))
  {
    CandidatesSnoc(slots, i);
    DedupSnoc(Candidates(slots[..i]), t);
  }

  /**
   * `uniqueAvailableSlots(res)`: the trimmed times of the available slots,
   * each kept the first time it is seen.
   */
  method UniqueAvailableSlots(res: Option<AvailabilityResponse>) returns (out: seq<string>)
    ensures out == Dedup(Candidates(SlotsOf(res)))
  {
    var slots := SlotsOf(res);
    var seen: set<string> := {};
    out := [];
    for i := 0 to |slots|
      invariant out == Dedup(Candidates(slots[..i]))
      invariant forall t :: t in seen <==> t in out
    {
      var s := slots[i];
      if TruthyOpt(Get(s, "available")) {
        var t := Trim(ToJsString(Coalesce(Get(s, "time_24h"), Some(JStr(""))).value));
        if t != "" {
          if t !in seen {
            KeepNew(slots, i, out, t);
            seen := seen + {t};
            out := out + [t];
          } else {
            SkipSeen(slots, i, out, t);
          }
        } else {
          SkipSlot(slots, i, out);
        }
      } else {
        SkipSlot(slots, i, out);
      }
    }
    assert slots[..|slots|] == slots;
  }

  /** At most the first 24 offered times are shown (`.slice(0, 24)`). */
  function FirstTimes(all: seq<string>): (shown: seq<string>)
    ensures |shown| <= 24 && |shown| <= |all|
    ensures shown == all[..|shown|]
    ensures |all| <= 24 ==> shown == all
  {
    if |all| <= 24 then all else all[..24]
  }

  // ---------------------------------------------------------------------------
  // What the confirmation step still lacks: `missingForConfirm`
  // ---------------------------------------------------------------------------

  /** A field the confirmation step checks. */
  datatype Field = NameField | DateField | TimeField | PartyField

  /** The name `missingForConfirm` reports a field by. */
  function Label(f: Field): string {
    match f
    case NameField => "name"
    case DateField => "date"
    case TimeField => "time"
    case PartyField => "party size"
  }

  function Labels(fs: seq<Field>): (r: seq<string>)
    ensures |r| == |fs| && forall i :: 0 <= i < |fs| ==> r[i] == Label(fs[i])
  {
    if fs == [] then [] else [Label(fs[0])] + Labels(fs[1..])
  }

  /** The fields in the order they are checked and reported. */
  const ConfirmFields: seq<Field> := [NameField, DateField, TimeField, PartyField]

  /** Whether `f` is missing: a blank name, an empty date or time, a party size below 1 (`!partySize` is 0). */
  predicate Lacks(f: Field, name: string, date: string, time: string, partySize: int) {
    match f
    case NameField => Trim(name) == ""
    case DateField => date == ""
    case TimeField => time == ""
    case PartyField => partySize == 0 || partySize < 1
  }

  /** The fields of `fields` that are missing, in their order. */
  function MissingAmong(fields: seq<Field>, name: string, date: string, time: string, partySize: int): (r: seq<Field>)
    ensures |r| <= |fields|
    ensures forall f :: f in r <==> f in fields && Lacks(f, name, date, time, partySize)
  {
    if fields == [] then []
    else
      var init := fields[..|fields| - 1];
      var last := fields[|fields| - 1];
      var rest := MissingAmong(init, name, date, time, partySize);
      assert fields == init + [last];
      if Lacks(last, name, date, time, partySize) then rest + [last] else rest
  }

  /** Checking one more field reports it after the others when it is missing. */
  lemma MissingSnoc(fields: seq<Field>, k: int, name: string, date: string, time: string, partySize: int)
    requires 0 <= k < |fields|
    ensures MissingAmong(fields[..k + 1], name, date, time, partySize) ==
              if Lacks(fields[k], name, date, time, partySize)
              then MissingAmong(fields[..k], name, date, time, partySize) + [fields[k]]
              else MissingAmong(fields[..k], name, date, time, partySize)
  {
    assert fields[..k + 1][..k] == fields[..k];
  }

  /** The confirmation lacks nothing exactly when the name is not blank, date and time are set and the party is at least 1. */
  lemma NothingMissingIff(name: string, date: string, time: string, partySize: int)
    ensures MissingAmong(ConfirmFields, name, date, time, partySize) == [] <==>
              Trim(name) != "" && date != "" && time != "" && partySize >= 1
  {
    var m := MissingAmong(ConfirmFields, name, date, time, partySize);
    assert NameField in ConfirmFields && DateField in ConfirmFields;
    assert TimeField in ConfirmFields && PartyField in ConfirmFields;
    if m != [] {
      assert m[0] in m;
    }
  }

  /** When every field is missing, all are reported, in their order. */
  lemma {:induction false} MissingEverything(fields: seq<Field>, name: string, date: string, time: string, partySize: int)
    requires forall i :: 0 <= i < |fields| ==> Lacks(fields[i], name, date, time, partySize)
    ensures MissingAmong(fields, name, date, time, partySize) == fields
  {
    if fields != [] {
      var init := fields[..|fields| - 1];
      MissingEverything(init, name, date, time, partySize);
      assert init + [fields[|fields| - 1]] == fields;
    }
  }

  /** With everything missing, the report names all four fields, in their fixed order. */
  lemma AllMissing(name: string)
    requires AllWhitespace(name)
    ensures Labels(MissingAmong(ConfirmFields, name, "", "", 0)) == ["name", "date", "time", "party size"]
  {
    TrimEmptyIffWhitespace(name);
    MissingEverything(ConfirmFields, name, "", "", 0);
  }

  /** `missingForConfirm`: each check pushes its field in turn. */
  method MissingForConfirm(name: string, date: string, time: string, partySize: int) returns (out: seq<Field>)
    ensures out == MissingAmong(ConfirmFields, name, date, time, partySize)
  {
    var fs := ConfirmFields;
    ghost var m1 := MissingAmong(fs[..1], name, date, time, partySize);
    ghost var m2 := MissingAmong(fs[..2], name, date, time, partySize);
    ghost var m3 := MissingAmong(fs[..3], name, date, time, partySize);
    ghost var m4 := MissingAmong(fs[..4], name, date, time, partySize);
    assert fs[..0] == [];
    MissingSnoc(fs, 0, name, date, time, partySize);
    MissingSnoc(fs, 1, name, date, time, partySize);
    MissingSnoc(fs, 2, name, date, time, partySize);
    MissingSnoc(fs, 3, name, date, time, partySize);
    out := [];
    if Trim(name) == "" {
      out := out + [NameField];
    }
    assert out == m1;
    if date == "" {
      out := out + [DateField];
    }
    assert out == m2;
    if time == "" {
      out := out + [TimeField];
    }
    assert out == m3;
    if partySize == 0 || partySize < 1 {
      out := out + [PartyField];
    }
    assert out == m4;
    assert fs[..4] == fs;
  }

  /** The error shown for missing fields: `Missing: ${missing.join(", ")}.`. */
  function MissingError(missing: seq<Field>): (r: string)
    ensures |r| >= 10 && r[..9] == "Missing: " && r[|r| - 1] == '.'
    ensures r[9..|r| - 1] == Join(Labels(missing), ", ")
  {
    var joined := Join(Labels(missing), ", ");
    var r := "Missing: " + joined + ".";
    assert r[9..|r| - 1] == joined;
    r
  }

  /** A form with a name and a date but neither time nor party reports both, in that order. */
  lemma MissingErrorExample(name: string, date: string)
    requires Trim(name) != "" && date != ""
    ensures MissingError(MissingAmong(ConfirmFields, name, date, "", 0)) == "Missing: time, party size."
  {
    MissingTimeAndParty(name, date);
    TimeAndPartyError();
  }

  lemma TimeAndPartyError()
    ensures MissingError([TimeField, PartyField]) == "Missing: time, party size."
  {
    var labels := Labels([TimeField, PartyField]);
    assert labels == ["time", "party size"];
    assert Join(labels, ", ") == "time" + ", " + "party size";
  }

  lemma MissingTimeAndParty(name: string, date: string)
    requires Trim(name) != "" && date != ""
    ensures MissingAmong(ConfirmFields, name, date, "", 0) == [TimeField, PartyField]
  {
    var fs := ConfirmFields;
    assert fs[..0] == [];
    MissingSnoc(fs, 0, name, date, "", 0);
    MissingSnoc(fs, 1, name, date, "", 0);
    MissingSnoc(fs, 2, name, date, "", 0);
    MissingSnoc(fs, 3, name, date, "", 0);
    assert fs[..4] == fs;
  }

  // ---------------------------------------------------------------------------
  // The form, the prefill, and the booking payload
  // ---------------------------------------------------------------------------

  /** The wizard's form fields. */
  datatype Form = Form(date: string, time: string, partySize: int, name: string, contact: string, notes: string)

  /** A prefill string field counts only when it is truthy. */
  predicate Present(o: Option<string>) {
    o.Some? && o.value != ""
  }

  /** The form after the prefill effect: each truthy prefill field replaces its value, any number replaces the party size. */
  function ApplyPrefill(f: Form, p: BookingPrefill): (g: Form)
    ensures !Present(p.date) ==> g.date == f.date
    ensures !Present(p.time) ==> g.time == f.time
    ensures p.partySize.None? ==> g.partySize == f.partySize
    ensures !Present(p.name) ==> g.name == f.name
    ensures !Present(p.contact) ==> g.contact == f.contact
    ensures !Present(p.specialRequests) ==> g.notes == f.notes
  {
    Form(
      if Present(p.date) then p.date.value else f.date,
      if Present(p.time) then NormalizePrefillTime(p.time) else f.time,
      if p.partySize.Some? then p.partySize.value else f.partySize,
      if Present(p.name) then p.name.value else f.name,
      if Present(p.contact) then p.contact.value else f.contact,
      if Present(p.specialRequests) then p.specialRequests.value else f.notes)
  }

  /** What a prefill sets does not depend on the form it lands on; only what it leaves out does. */
  lemma PrefillOverrides(f1: Form, f2: Form, p: BookingPrefill)
    ensures Present(p.date) ==> ApplyPrefill(f1, p).date == ApplyPrefill(f2, p).date == p.date.value
    ensures Present(p.time) ==> ApplyPrefill(f1, p).time == ApplyPrefill(f2, p).time == NormalizeTimeToHHMM(p.time.value)
    ensures p.partySize.Some? ==> ApplyPrefill(f1, p).partySize == ApplyPrefill(f2, p).partySize == p.partySize.value
    ensures Present(p.name) ==> ApplyPrefill(f1, p).name == ApplyPrefill(f2, p).name == p.name.value
    ensures Present(p.contact) ==> ApplyPrefill(f1, p).contact == ApplyPrefill(f2, p).contact == p.contact.value
    ensures Present(p.specialRequests) ==>
              ApplyPrefill(f1, p).notes == ApplyPrefill(f2, p).notes == p.specialRequests.value
  {
  }

  /** Applying the same prefill twice is applying it once. */
  lemma PrefillIdempotent(f: Form, p: BookingPrefill)
    ensures ApplyPrefill(ApplyPrefill(f, p), p) == ApplyPrefill(f, p)
  {
  }

  /** The step a prefill opens at: the details step when date, a positive party size and a time are all given. */
  function PrefillStep(p: BookingPrefill): (step: int)
    ensures step == 1 || step == 3
    ensures step == 3 <==> Present(p.date) && p.partySize.Some? && p.partySize.value > 0 && Present(p.time)
  {
    if Present(p.date) && p.partySize.Some? && p.partySize.value > 0 && Present(p.time) then 3 else 1
  }

  /**
   * A prefill whose time is only white space still opens the details step,
   * with an empty time, which the confirmation then reports as missing.
   */
  lemma BlankTimeReachesDetails(f: Form, date: string, partySize: int, blank: string)
    requires date != "" && partySize > 0 && blank != "" && AllWhitespace(blank)
    ensures var p := BookingPrefill(Some(partySize), Some(date), Some(blank), None, None, None);
            && PrefillStep(p) == 3
            && ApplyPrefill(f, p).time == ""
            && TimeField in MissingAmong(ConfirmFields, f.name, date, "", partySize)
  {
    BlankPrefillTime(blank);
  }

  /** The payload `onConfirm` hands to `createBooking`: name trimmed, contact and notes trimmed and always sent. */
  function ConfirmPayload(venueId: string, f: Form): (p: CreateBookingRequest)
    ensures p.venueId == venueId && p.date == f.date && p.time24h == f.time && p.partySize == f.partySize
    ensures p.name == Trim(f.name) && IsTrimmed(p.name)
    ensures p.contact == Some(Trim(f.contact)) && p.specialRequests == Some(Trim(f.notes))
  {
    // `x.trim() || ""` is `x.trim()`: the fallback is the same empty string.
    CreateBookingRequest(venueId, f.date, f.time, f.partySize, Trim(f.name), Some(Trim(f.contact)), Some(Trim(f.notes)))
  }

  /** The booking body always names a contact and special requests, possibly empty, and carries the normalised time. */
  lemma ConfirmBody(base: string, venueId: string, embedKey: string, f: Form, path: string, body: Json)
    requires body == CreateBookingRequestFor(base, venueId, embedKey, ConfirmPayload(venueId, f), path).body
    ensures body.JObj?
    ensures "contact" in body.fields && body.fields["contact"] == JStr(Trim(f.contact))
    ensures "special_requests" in body.fields && body.fields["special_requests"] == JStr(Trim(f.notes))
    ensures "name" in body.fields && body.fields["name"] == JStr(Trim(f.name))
    ensures "time_24h" in body.fields && body.fields["time_24h"] == JStr(NormalizeTimeToHHMM(f.time))
  {
    var p := ConfirmPayload(venueId, f);
    RequestJsonFields(p.(time24h := NormalizeTimeToHHMM(f.time)), body);
  }

  // ---------------------------------------------------------------------------
  // The component
  // ---------------------------------------------------------------------------

  /** A call the wizard makes into its parent: `onBooked(result)` or `onClose()`. */
  datatype ParentCall = Booked(result: CreateBookingResponse) | CloseRequested

  const SeeTimesFirst := "Enter date + party size first."
  const NoTimesReturned := "No availability returned for that date/party size."
  const CheckFailed := "Availability check failed."
  const BookingFailed := "Booking failed."

  /** `String(e?.message || fallback)` for an error whose message is `m`. */
  function ErrorText(m: string, fallback: string): (r: string)
    ensures m != "" ==> r == m
    ensures m == "" ==> r == fallback
  {
    if m != "" then m else fallback
  }

  class BookingWizard {
    const venueId: string
    const embedKey: string
    const bookingApiBase: string
    const availabilityPath: string
    const createBookingPath: string

    /** The `open` prop. */
    var open: bool
    var step: int
    /** The six form hooks: `date`, `time`, `partySize`, `name`, `contact`, `notes`. */
    var form: Form
    var busy: bool
    var checking: bool
    var err: Option<string>
    var availability: Option<AvailabilityResponse>
    /** The calls made into the parent so far, oldest first. */
    var parentCalls: seq<ParentCall>

    /** Between handlers: a step of the three, and no request in flight. */
    ghost predicate Valid()
      reads this`step, this`busy, this`checking
    {
      1 <= step <= 3 && !busy && !checking
    }

    /** `availableTimes`: the offered times, at most 24 of them. */
    function AvailableTimes(): (shown: seq<string>)
      reads this`availability
      ensures |shown| <= 24
    {
      FirstTimes(Dedup(Candidates(SlotsOf(availability))))
    }

    function Missing(): seq<Field>
      reads this`form
    {
      MissingAmong(ConfirmFields, form.name, form.date, form.time, form.partySize)
    }

    /** The footer buttons' enabling conditions. */
    predicate CanSeeTimes()
      reads this`form, this`checking, this`busy
    {
      form.date != "" && form.partySize >= 1 && !checking && !busy
    }

    predicate CanContinueFromTimes()
      reads this`form, this`checking, this`busy
    {
      form.time != "" && !checking && !busy
    }

    predicate CanConfirm()
      reads this`form, this`busy
    {
      Missing() == [] && !busy
    }

    constructor(venueId: string, embedKey: string, bookingApiBase: string, availabilityPath: string, createBookingPath: string)
      ensures Valid() && !open && step == 1
      ensures form == Form("", "", 2, "", "", "")
      ensures err == None && availability == None && parentCalls == []
      ensures this.venueId == venueId && this.embedKey == embedKey && this.bookingApiBase == bookingApiBase
      ensures this.availabilityPath == availabilityPath && this.createBookingPath == createBookingPath
    {
      this.venueId := venueId;
      this.embedKey := embedKey;
      this.bookingApiBase := bookingApiBase;
      this.availabilityPath := availabilityPath;
      this.createBookingPath := createBookingPath;
      open := false;
      step := 1;
      form := Form("", "", 2, "", "", "");
      busy, checking := false, false;
      err := None;
      availability := None;
      parentCalls := [];
    }

    /**
     * The prefill effect, run when the modal is shown with `prefill` (or the
     * prefill changes while it is shown). Without a prefill the form keeps
     * whatever it held before.
     */
    method Show(prefill: Option<BookingPrefill>)
      requires 1 <= step <= 3
      modifies this
      ensures Valid() && open
      ensures err == None && availability == None && parentCalls == old(parentCalls)
      ensures prefill.None? ==> step == 1 && form == old(form)
      ensures prefill.Some? ==> step == PrefillStep(prefill.value) && form == ApplyPrefill(old(form), prefill.value)
    {
      var f, nextStep := form, 1;
      if prefill.Some? {
        var p := prefill.value;
        // Each setter runs only when its prefill field is given; React commits them together.
        if p.partySize.Some? {
          f := f.(partySize := p.partySize.value);
        }
        if Present(p.date) {
          f := f.(date := p.date.value);
        }
        if Present(p.time) {
          f := f.(time := NormalizePrefillTime(p.time));
        }
        if Present(p.name) {
          f := f.(name := p.name.value);
        }
        if Present(p.contact) {
          f := f.(contact := p.contact.value);
        }
        if Present(p.specialRequests) {
          f := f.(notes := p.specialRequests.value);
        }
        var hasDate := Present(p.date);
        var hasParty := p.partySize.Some? && p.partySize.value > 0;
        var hasTime := Present(p.time);
        if hasDate && hasParty && hasTime {
          nextStep := 3;
        }
      }
      open, step, form, err, busy, checking, availability := true, nextStep, f, None, false, false, None;
    }

    /** The parent hides the modal: it renders nothing, and keeps its state for the next opening. */
    method Hide()
      modifies this`open
      ensures !open
    {
      open := false;
    }

    /** A key press on the window: Escape asks the parent to close while the modal is shown. */
    method KeyDown(key: string)
      modifies this`parentCalls
      ensures parentCalls == if open && key == "Escape" then old(parentCalls) + [CloseRequested] else old(parentCalls)
    {
      if open && key == "Escape" {
        parentCalls := parentCalls + [CloseRequested];
      }
    }

    /** A mouse-down on the backdrop: only one on the backdrop itself, not on the panel inside it, asks to close. */
    method MouseDownBackdrop(onBackdropItself: bool)
      requires open
      modifies this`parentCalls
      ensures parentCalls == if onBackdropItself then old(parentCalls) + [CloseRequested] else old(parentCalls)
    {
      if onBackdropItself {
        parentCalls := parentCalls + [CloseRequested];
      }
    }

    /** The close button in the header. */
    method ClickClose()
      requires open
      modifies this`parentCalls
      ensures parentCalls == old(parentCalls) + [CloseRequested]
    {
      parentCalls := parentCalls + [CloseRequested];
    }

    /** Typing in the step-1 date input. */
    method EditDate(v: string)
      requires open && step == 1
      modifies this`form
      ensures form == old(form).(date := v)
    {
      form := form.(date := v);
    }

    /** Typing in the step-1 party-size input (`Number(value)`). */
    method EditPartySize(v: int)
      requires open && step == 1
      modifies this`form
      ensures form == old(form).(partySize := v)
    {
      form := form.(partySize := v);
    }

    /** Typing in one of the step-3 inputs: name, contact, special requests. */
    method EditDetails(newName: string, newContact: string, newNotes: string)
      requires open && step == 3
      modifies this`form
      ensures form == old(form).(name := newName, contact := newContact, notes := newNotes)
    {
      form := form.(name := newName, contact := newContact, notes := newNotes);
    }

    /** Clicking one of the offered times on step 2. */
    method PickTime(t: string)
      requires open && step == 2 && t in AvailableTimes()
      modifies this`form
      ensures form == old(form).(time := t)
    {
      form := form.(time := t);
    }

    /** The Back button of steps 2 and 3, disabled while a request is in flight. */
    method Back()
      requires Valid() && open && (step == 2 || step == 3)
      modifies this`step
      ensures Valid() && step == old(step) - 1
    {
      if !(checking || busy) {
        step := step - 1;
      }
    }

    /** The Continue button of step 2, enabled once a time is chosen. */
    method Continue()
      requires Valid() && open && step == 2
      modifies this`step
      ensures Valid() && step == if form.time != "" then 3 else 2
    {
      if CanContinueFromTimes() {
        step := 3;
      }
    }

    /** Between handlers the See-times button is enabled exactly when its handler's own check passes. */
    lemma SeeTimesEnabledIff()
      requires Valid()
      ensures CanSeeTimes() <==> !(form.date == "" || form.partySize == 0 || form.partySize < 1)
    {
    }

    /** Between handlers Confirm is enabled exactly when name, date, time and party size are all given. */
    lemma ConfirmEnabledIff()
      requires Valid()
      ensures CanConfirm() <==> Trim(form.name) != "" && form.date != "" && form.time != "" && form.partySize >= 1
    {
      NothingMissingIff(form.name, form.date, form.time, form.partySize);
    }

    /**
     * The `try` block of `onSeeTimes`: asks for the availability of the whole
     * day of `f`, and moves to step 2 when some time is offered. A chosen time
     * that is not offered is cleared (the 24-entry cap applies to the display
     * only). `checking` is set while the request is awaited and cleared in
     * `finally`, so it is false again when the handler is done.
     */
    method CheckTimes(f: Form, outcome: FetchOutcome) returns (sent: HttpRequest)
      requires f == form
      modifies this`err, this`availability, this`form, this`step
      ensures sent == AvailabilityRequestFor(bookingApiBase, venueId, embedKey,
                                             AvailabilityRequest(venueId, f.date, f.partySize, None), availabilityPath)
      ensures AvailabilityResult(outcome).Err? ==>
                && err == Some(ErrorText(AvailabilityResult(outcome).message, CheckFailed))
                && availability == None && step == old(step) && form == f
      ensures AvailabilityResult(outcome).Ok? ==>
                var times := Dedup(Candidates(AvailabilityResult(outcome).value.slots));
                && availability == Some(AvailabilityResult(outcome).value)
                && (times != [] ==> step == 2 && err == None &&
                                    form == f.(time := if f.time != "" && f.time !in times then "" else f.time))
                && (times == [] ==> step == old(step) && err == Some(NoTimesReturned) && form == f)
    {
      sent := AvailabilityRequestFor(bookingApiBase, venueId, embedKey,
                                     AvailabilityRequest(venueId, f.date, f.partySize, None), availabilityPath);
      match AvailabilityResult(outcome) {
        case Ok(res) =>
          Offer(f, res);
        case Err(m) =>
          err, availability := Some(ErrorText(m, CheckFailed)), None;
      }
    }

    /** What `onSeeTimes` does with the availability it received. */
    method Offer(f: Form, res: AvailabilityResponse)
      requires f == form
      modifies this`err, this`availability, this`form, this`step
      ensures var times := Dedup(Candidates(res.slots));
              && availability == Some(res)
              && (times != [] ==> step == 2 && err == None &&
                                  form == f.(time := if f.time != "" && f.time !in times then "" else f.time))
              && (times == [] ==> step == old(step) && err == Some(NoTimesReturned) && form == f)
    {
      var times := UniqueAvailableSlots(Some(res));
      if |times| > 0 {
        var t := if f.time != "" && f.time !in times then "" else f.time;
        err, availability, form, step := None, Some(res), f.(time := t), 2;
      } else {
        err, availability := Some(NoTimesReturned), Some(res);
      }
    }

    /**
     * `onSeeTimes`: checks date and party size before asking for the times.
     * Returns the request sent, if any.
     */
    method OnSeeTimes(outcome: FetchOutcome) returns (sent: Option<HttpRequest>)
      requires Valid() && open && step == 1
      modifies this`err, this`availability, this`form, this`step
      ensures Valid() && form == old(form).(time := form.time)
      ensures old(form.date) == "" || old(form.partySize) < 1 ==>
                && sent == None && err == Some(SeeTimesFirst) && availability == None
                && step == 1 && form == old(form)
      ensures old(form.date) != "" && old(form.partySize) >= 1 ==>
                sent == Some(AvailabilityRequestFor(bookingApiBase, venueId, embedKey,
                                                    AvailabilityRequest(venueId, form.date, form.partySize, None),
                                                    availabilityPath))
      ensures old(form.date) != "" && old(form.partySize) >= 1 && AvailabilityResult(outcome).Err? ==>
                && err == Some(ErrorText(AvailabilityResult(outcome).message, CheckFailed))
                && availability == None && step == 1 && form == old(form)
      ensures old(form.date) != "" && old(form.partySize) >= 1 && AvailabilityResult(outcome).Ok? ==>
                var times := Dedup(Candidates(AvailabilityResult(outcome).value.slots));
                && availability == Some(AvailabilityResult(outcome).value)
                && (times != [] ==> step == 2 && err == None &&
                                    form.time == (if old(form.time) != "" && old(form.time) !in times then "" else old(form.time)))
                && (times == [] ==> step == 1 && err == Some(NoTimesReturned) && form == old(form))
    {
      var f := form;
      if f.date == "" || f.partySize == 0 || f.partySize < 1 {
        err, availability := Some(SeeTimesFirst), None;
        return None;
      }
      var request := CheckTimes(f, outcome);
      sent := Some(request);
    }

    /**
     * The `try` block of `onConfirm`: books `f` with the trimmed details; on
     * success it tells the parent the result and then asks it to close.
     * `busy` is set while the request is awaited and cleared in `finally`.
     */
    method Book(f: Form, outcome: FetchOutcome) returns (sent: HttpRequest)
      modifies this`err, this`parentCalls
      ensures sent == CreateBookingRequestFor(bookingApiBase, venueId, embedKey, ConfirmPayload(venueId, f), createBookingPath)
      ensures BookingResult(outcome).Ok? ==>
                err == None && parentCalls == old(parentCalls) + [Booked(BookingResult(outcome).value), CloseRequested]
      ensures BookingResult(outcome).Err? ==>
                err == Some(ErrorText(BookingResult(outcome).message, BookingFailed)) && parentCalls == old(parentCalls)
    {
      var payload := ConfirmPayload(venueId, f);
      sent := CreateBookingRequestFor(bookingApiBase, venueId, embedKey, payload, createBookingPath);
      match BookingResult(outcome) {
        case Ok(result) =>
          // `onBooked(result)` and then `onClose()`.
          err, parentCalls := None, parentCalls + [Booked(result), CloseRequested];
        case Err(m) =>
          err := Some(ErrorText(m, BookingFailed));
      }
    }

    /**
     * `onConfirm`: reports the missing fields, or books the form. Returns the
     * request sent, if any.
     */
    method OnConfirm(outcome: FetchOutcome) returns (sent: Option<HttpRequest>)
      requires Valid() && open && step == 3
      modifies this`err, this`parentCalls
      ensures Missing() != [] ==>
                sent == None && err == Some(MissingError(Missing())) && parentCalls == old(parentCalls)
      ensures Missing() == [] ==>
                sent == Some(CreateBookingRequestFor(bookingApiBase, venueId, embedKey,
                                                     ConfirmPayload(venueId, form), createBookingPath))
      ensures Missing() == [] && BookingResult(outcome).Ok? ==>
                err == None && parentCalls == old(parentCalls) + [Booked(BookingResult(outcome).value), CloseRequested]
      ensures Missing() == [] && BookingResult(outcome).Err? ==>
                err == Some(ErrorText(BookingResult(outcome).message, BookingFailed)) && parentCalls == old(parentCalls)
    {
      var f := form;
      var missing := MissingForConfirm(f.name, f.date, f.time, f.partySize);
      if |missing| > 0 {
        err := Some(MissingError(missing));
        assert form == f;
        return None;
      }
      var request := Book(f, outcome);
      sent := Some(request);
      assert form == f;
    }
  }
}
