/** The request schemas (lib/validation/schemas.ts) as predicates over the
    parsed request fields. JavaScript numbers are `real`s; string lengths count
    characters. zod's email, uuid, url and datetime format checks are not
    modelled: the schemas take them as given predicates (`FormatChecks`). */
module Schemas {
  import opened Wrappers
  import Availability
  import Plans

  /** The opaque format checks zod performs. */
  datatype FormatChecks = FormatChecks(
    isEmail: string -> bool, isUuid: string -> bool, isUrl: string -> bool, isDatetime: string -> bool)

  /** `z.string().min(lo).max(hi)`. */
  predicate LengthWithin(s: string, lo: nat, hi: nat) { lo <= |s| <= hi }

  /** An optional field: absent, or present and within the bounds. */
  predicate OptionalWithin(s: Option<string>, lo: nat, hi: nat)
  {
    s.Some? ==> LengthWithin(s.value, lo, hi)
  }

  /** `z.number().int()`. */
  predicate IsInteger(x: real) { x.Floor as real == x }

  /** `z.number().int().min(lo).max(hi)`. */
  predicate IntegerWithin(x: real, lo: int, hi: int)
  {
    IsInteger(x) && lo as real <= x <= hi as real
  }

  predicate IsAsciiDigit(c: char) { '0' <= c <= '9' }

  predicate IsHexDigit(c: char) { IsAsciiDigit(c) || 'a' <= c <= 'f' || 'A' <= c <= 'F' }

  /** `/^\d{2}:\d{2}$/`: two digits, a colon, two digits, nothing else. */
  predicate MatchesClock(s: string)
  {
    |s| == 5 && IsAsciiDigit(s[0]) && IsAsciiDigit(s[1]) && s[2] == ':'
    && IsAsciiDigit(s[3]) && IsAsciiDigit(s[4])
  }

  /** `/^#[0-9A-Fa-f]{6}$/`. */
  predicate MatchesColor(s: string)
  {
    |s| == 7 && s[0] == '#' && forall i :: 1 <= i < 7 ==> IsHexDigit(s[i])
  }

  datatype ChatRequest = ChatRequest(message: string, widgetKey: string, conversationId: Option<string>)

  /** `chatRequestSchema`. */
  predicate ValidChatRequest(fmt: FormatChecks, r: ChatRequest)
  {
    && LengthWithin(r.message, 1, 2000)
    && fmt.isUuid(r.widgetKey)
    && (r.conversationId.Some? ==> fmt.isUuid(r.conversationId.value))
  }

  datatype CheckoutRequest = CheckoutRequest(planType: string)

  /** `stripeCheckoutSchema`: the plan type is one of the three enum values. */
  predicate ValidCheckoutRequest(r: CheckoutRequest)
  {
    r.planType == "STARTER" || r.planType == "PROFESSIONAL" || r.planType == "ENTERPRISE"
  }

  /** The plan a valid checkout request names: the enum value spelled as the
      plan key. */
  function CheckoutPlan(r: CheckoutRequest): (plan: Option<Plans.PlanType>)
    ensures plan.Some? <==> ValidCheckoutRequest(r)
    ensures plan == Some(Plans.Starter) <==> r.planType == "STARTER"
    ensures plan == Some(Plans.Professional) <==> r.planType == "PROFESSIONAL"
    ensures plan == Some(Plans.Enterprise) <==> r.planType == "ENTERPRISE"
  {
    if r.planType == "STARTER" then Some(Plans.Starter)
    else if r.planType == "PROFESSIONAL" then Some(Plans.Professional)
    else if r.planType == "ENTERPRISE" then Some(Plans.Enterprise)
    else None
  }

  datatype ServiceInput = ServiceInput(
    name: string, description: Option<string>, durationMinutes: real, bufferMinutes: Option<real>,
    price: Option<real>, currency: Option<string>, isActive: Option<bool>)

  /** `createServiceSchema`. */
  predicate ValidService(s: ServiceInput)
  {
    && LengthWithin(s.name, 1, 255)
    && OptionalWithin(s.description, 0, 1000)
    && IntegerWithin(s.durationMinutes, 5, 480)
    && (s.bufferMinutes.Some? ==> IntegerWithin(s.bufferMinutes.value, 0, 120))
    && (s.price.Some? ==> s.price.value >= 0.0)
    && (s.currency.Some? ==> |s.currency.value| == 3)
  }

  datatype AppointmentInput = AppointmentInput(
    serviceId: string, customerName: string, customerEmail: string, customerPhone: string,
    startTime: string, notes: Option<string>)

  /** `createAppointmentSchema`. */
  predicate ValidAppointment(fmt: FormatChecks, a: AppointmentInput)
  {
    && fmt.isUuid(a.serviceId)
    && LengthWithin(a.customerName, 1, 255)
    && fmt.isEmail(a.customerEmail)
    && LengthWithin(a.customerPhone, 1, 50)
    && fmt.isDatetime(a.startTime)
    && OptionalWithin(a.notes, 0, 1000)
  }

  datatype BusinessUpdate = BusinessUpdate(
    name: Option<string>, email: Option<string>, phone: Option<string>, address: Option<string>,
    city: Option<string>, state: Option<string>, country: Option<string>, timezone: Option<string>,
    website: Option<string>, description: Option<string>, primaryColor: Option<string>)

  /** `updateBusinessSchema`: every field optional. */
  predicate ValidBusinessUpdate(fmt: FormatChecks, b: BusinessUpdate)
  {
    && OptionalWithin(b.name, 1, 255)
    && (b.email.Some? ==> fmt.isEmail(b.email.value))
    && OptionalWithin(b.phone, 0, 50)
    && OptionalWithin(b.address, 0, 500)
    && OptionalWithin(b.city, 0, 100)
    && OptionalWithin(b.state, 0, 100)
    && OptionalWithin(b.country, 0, 100)
    && OptionalWithin(b.timezone, 0, 50)
    && (b.website.Some? ==> fmt.isUrl(b.website.value))
    && OptionalWithin(b.description, 0, 2000)
    && (b.primaryColor.Some? ==> MatchesColor(b.primaryColor.value))
  }

  datatype FaqInput = FaqInput(question: string, answer: string, category: Option<string>, isActive: Option<bool>)

  /** `createFAQSchema`. */
  predicate ValidFaq(f: FaqInput)
  {
    LengthWithin(f.question, 1, 500) && LengthWithin(f.answer, 1, 2000) && OptionalWithin(f.category, 0, 100)
  }

  datatype BusinessHoursInput = BusinessHoursInput(
    dayOfWeek: real, startTime: string, endTime: string, isClosed: Option<bool>)

  /** `businessHoursSchema`: a weekday 0..6 and two "DD:DD" strings; the times
      are neither range-checked nor ordered. */
  predicate ValidBusinessHours(h: BusinessHoursInput)
  {
    IntegerWithin(h.dayOfWeek, 0, 6) && MatchesClock(h.startTime) && MatchesClock(h.endTime)
  }

  /** "99:99" passes, and so does a closing time before the opening time. */
  lemma HoursAreNotRangeChecked()
    ensures ValidBusinessHours(BusinessHoursInput(1.0, "99:99", "00:00", None))
  {
  }

  /** A validated time always parses in slot generation (never `NaN`), to
      `HH * 60 + MM` minutes after midnight, which may exceed a day. */
  lemma ValidatedClockParses(s: string)
    requires MatchesClock(s)
    ensures Availability.ClockMinutes(s).Some?
    ensures 0 <= Availability.ClockMinutes(s).value <= 99 * 60 + 99
  {
    Availability.ClockMinutesOfWellFormed(s);
  }

  /** Any accepted service has a whole duration of 5..480 minutes and, when
      given, a whole buffer of 0..120 minutes: fractional durations and
      durations or buffers out of range are refused. */
  lemma ServiceDurationBounds(s: ServiceInput)
    ensures ValidService(s) ==>
      s.durationMinutes == s.durationMinutes.Floor as real && 5 <= s.durationMinutes.Floor <= 480
    ensures ValidService(s) && s.bufferMinutes.Some? ==>
      s.bufferMinutes.value == s.bufferMinutes.value.Floor as real && 0 <= s.bufferMinutes.value.Floor <= 120
  {
  }

  /** Conversely, every whole duration of 5..480 with a whole buffer of 0..120
      is accepted, whatever the name of 1..255 characters. */
  lemma WholeDurationsAccepted(name: string, duration: int, buffer: int)
    requires 1 <= |name| <= 255
    ensures ValidService(ServiceInput(name, None, duration as real, Some(buffer as real), None, None, None))
            <==> 5 <= duration <= 480 && 0 <= buffer <= 120
  {
    assert (duration as real).Floor == duration && (buffer as real).Floor == buffer;
  }

  /** A colour is '#' followed by exactly six hexadecimal digits of either case. */
  lemma ColorPattern(s: string)
    ensures MatchesColor(s) <==> exists hex: string ::
      |hex| == 6 && s == "#" + hex && forall c :: c in hex ==> IsHexDigit(c)
  {
    if MatchesColor(s) {
      var hex := s[1..];
      assert s == "#" + hex;
      forall c | c in hex ensures IsHexDigit(c) {
        var i :| 0 <= i < |hex| && hex[i] == c;
        assert s[i + 1] == c;
      }
    }
    if exists hex: string :: |hex| == 6 && s == "#" + hex && forall c :: c in hex ==> IsHexDigit(c) {
      var hex: string :| |hex| == 6 && s == "#" + hex && forall c :: c in hex ==> IsHexDigit(c);
      forall i | 1 <= i < 7 ensures IsHexDigit(s[i]) {
        assert s[i] == hex[i - 1];
      }
    }
  }

  /** Examples of the colour pattern: too short, too long, no '#', a non-hex digit. */
  lemma ColorExamples()
    ensures MatchesColor("#1a2B3c")
    ensures !MatchesColor("#12345") && !MatchesColor("#1234567") && !MatchesColor("123456a") && !MatchesColor("#12345g")
  {
    assert !IsHexDigit("#12345g"[6]);
  }

  /** The stored row of a service input: its fields as given, an absent buffer as 0. */
  function StoredService(s: ServiceInput, id: nat, businessId: nat): (row: Availability.Service)
    ensures row.durationMinutes as real <= s.durationMinutes
    ensures ValidService(s) ==>
      row.durationMinutes as real == s.durationMinutes && row.bufferMinutes as real == s.bufferMinutes.GetOr(0.0)
  {
    Availability.Service(id, businessId, s.name, s.durationMinutes.Floor,
                         s.bufferMinutes.GetOr(0.0).Floor, s.isActive.GetOr(true))
  }

  /** A service that passes the schema occupies between 5 and 600 minutes, and
      the slot generator steps by at least 5 minutes through its windows. */
  lemma ValidServiceSpanPositive(s: ServiceInput, id: nat, businessId: nat)
    requires ValidService(s)
    ensures 5 <= Availability.TotalDuration(StoredService(s, id, businessId)) <= 600
    ensures Availability.SlotInterval(Availability.TotalDuration(StoredService(s, id, businessId))) >= 5
  {
  }

  /** A table of services that all passed the schema meets the slot generator's
      positive-span precondition. */
  lemma {:induction false} ValidServicesHavePositiveSpans(inputs: seq<ServiceInput>, ids: seq<nat>, businessId: nat)
    requires |ids| == |inputs|
    requires forall i :: 0 <= i < |inputs| ==> ValidService(inputs[i])
    ensures Availability.PositiveSpans(seq(|inputs|, i requires 0 <= i < |inputs| => StoredService(inputs[i], ids[i], businessId)))
  {
    var table := seq(|inputs|, i requires 0 <= i < |inputs| => StoredService(inputs[i], ids[i], businessId));
    forall i | 0 <= i < |table|
      ensures Availability.TotalDuration(table[i]) > 0
    {
      ValidServiceSpanPositive(inputs[i], ids[i], businessId);
    }
  }

  /** The result of `safeValidateRequest`. */
  datatype SafeResult<T, E> = Valid(data: T) | Invalid(error: E)

  /** `safeValidateRequest`: never throws; success with the parsed data exactly
      when parsing succeeds, otherwise failure with the parser's error. */
  function SafeValidateRequest<D, T, E>(data: D, safeParse: D -> Result<T, E>): (r: SafeResult<T, E>)
    ensures r.Valid? <==> safeParse(data).Success?
    ensures r.Valid? ==> r.data == safeParse(data).value
    ensures r.Invalid? ==> r.error == safeParse(data).error
  {
    match safeParse(data)
    case Success(v) => Valid(v)
    case Failure(e) => Invalid(e)
  }

  /** `validateRequest`: the parsed data, or the parser's error thrown (here a
      `Failure`); it agrees with `safeValidateRequest` on every input. */
  function ValidateRequest<D, T, E>(data: D, safeParse: D -> Result<T, E>): (r: Result<T, E>)
    ensures r.Success? <==> SafeValidateRequest(data, safeParse).Valid?
    ensures r.Success? ==> r.value == SafeValidateRequest(data, safeParse).data
    ensures r.Failure? ==> r.error == SafeValidateRequest(data, safeParse).error
  {
    safeParse(data)
  }
}
