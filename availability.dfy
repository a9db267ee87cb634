/** Slot generation and booking for one business (lib/scheduling/availability.ts).

    Instants are whole minutes on one absolute time line. A calendar date is
    given by the instant of its local midnight and its weekday; the source gets
    both from the JavaScript `Date` machinery, which is not part of this model.
    The Supabase tables become the sequences of the `Store` class. */
module Availability {
  import opened Wrappers
  import opened Seqs

  type Id = nat

  /** The statuses an appointment row can have. */
  datatype Status = Scheduled | Confirmed | Completed | Cancelled | NoShow

  datatype Business = Business(id: Id, timezone: string)

  datatype Service = Service(
    id: Id, businessId: Id, name: string,
    durationMinutes: int, bufferMinutes: int, isActive: bool)

  /** A `business_hours` row; the times are the raw "HH:MM[:SS]" strings. */
  datatype HoursRow = HoursRow(
    businessId: Id, dayOfWeek: int, startTime: string, endTime: string, isActive: bool)

  datatype Customer = Customer(
    id: Id, businessId: Id, email: Option<string>, name: string, phone: Option<string>)

  datatype Appointment = Appointment(
    id: Id, businessId: Id, serviceId: Id, customerId: Id,
    start: int, end: int, status: Status,
    customerNotes: Option<string>, timezone: string)

  /** A slot handed back to callers: `start_time` and `end_time`. */
  datatype Slot = Slot(start: int, end: int)

  /** The target date: its local midnight (a minute instant) and weekday (0 = Sunday). */
  datatype Day = Day(midnight: int, weekday: int)

  /** The errors the source throws. */
  datatype Failure =
    | ServiceNotFound
    | FetchAppointmentsFailed
    | CreateCustomerFailed
    | CreateAppointmentFailed

  /** What a successful `createAppointment` returns: `id, start_time, end_time`. */
  datatype Booked = Booked(id: Id, start: int, end: int)

  const DefaultTimezone: string := "America/New_York"
  /** Minutes from local midnight to 23:59, the last minute the day query includes. */
  const LastMinuteOfDay: int := 23 * 60 + 59
  /** The largest distance between consecutive candidate starts. */
  const MaxSlotInterval: int := 15
  /** `createAppointment` uses this duration when the service's is 0. */
  const FallbackDuration: int := 30

  // ---------------------------------------------------------------------------
  // Parsing "HH:MM[:SS]"
  // ---------------------------------------------------------------------------

  /** `s.split(':')`: the pieces between colons; there is always at least one. */
  function SplitColon(s: string): (parts: seq<string>)
    ensures |parts| >= 1
    ensures forall i :: 0 <= i < |parts| ==> ':' !in parts[i]
    decreases |s|
  {
    if s == [] then [""]
    else
      var rest := SplitColon(s[1..]);
      if s[0] == ':' then [""] + rest
      else [[s[0]] + rest[0]] + rest[1..]
  }

  /** The inverse of `SplitColon`: the pieces glued back with ':'. */
  function JoinColon(parts: seq<string>): string
    decreases |parts|
  {
    if |parts| <= 1 then (if parts == [] then "" else parts[0])
    else parts[0] + ":" + JoinColon(parts[1..])
  }

  /** Splitting loses nothing: gluing the pieces back gives the input. */
  lemma {:induction false} SplitColonJoins(s: string)
    ensures JoinColon(SplitColon(s)) == s
    decreases |s|
  {
    if s != [] {
      var rest := SplitColon(s[1..]);
      SplitColonJoins(s[1..]);
      if s[0] == ':' {
        assert SplitColon(s) == [""] + rest;
        assert ([""] + rest)[1..] == rest;
      } else {
        var p := [[s[0]] + rest[0]] + rest[1..];
        assert SplitColon(s) == p;
        if |rest| == 1 {
          assert JoinColon(p) == [s[0]] + rest[0];
        } else {
          assert p[1..] == rest[1..];
          assert JoinColon(rest) == rest[0] + ":" + JoinColon(rest[1..]);
        }
      }
    }
  }

  /** A piece without ':' followed by ':' splits off as the first piece. */
  lemma {:induction false} SplitColonAt(a: string, b: string)
    requires ':' !in a
    ensures SplitColon(a + ":" + b) == [a] + SplitColon(b)
    decreases |a|
  {
    if a == [] {
      assert a + ":" + b == [':'] + b;
      assert (a + ":" + b)[1..] == b;
    } else {
      assert (a + ":" + b)[1..] == a[1..] + ":" + b;
      SplitColonAt(a[1..], b);
      assert [a[0]] + a[1..] == a;
    }
  }

  /** A string without ':' is a single piece. */
  lemma {:induction false} SplitColonNone(a: string)
    requires ':' !in a
    ensures SplitColon(a) == [a]
    decreases |a|
  {
    if a != [] {
      SplitColonNone(a[1..]);
      assert [a[0]] + a[1..] == a;
    }
  }

  predicate IsDigit(c: char) { '0' <= c <= '9' }

  predicate AllDigits(s: string) { forall i :: 0 <= i < |s| ==> IsDigit(s[i]) }

  function DigitValue(c: char): int requires IsDigit(c) { c as int - '0' as int }

  /** The decimal value of a string of digits. */
  function DigitsValue(s: string): (n: nat)
    requires AllDigits(s)
    decreases |s|
  {
    if s == [] then 0 else DigitsValue(s[..|s| - 1]) * 10 + DigitValue(s[|s| - 1])
  }

  /** `Number(piece)` for the pieces a time string splits into: the empty piece
      is 0, a run of digits its decimal value, anything else `NaN` (None). */
  function NumberOf(piece: string): Option<int>
  {
    if AllDigits(piece) then Some(DigitsValue(piece)) else None
  }

  /** Minutes after midnight that `setHours(hour, minute, 0, 0)` reaches for a
      time string; None where the source computes `NaN`. Seconds are dropped and
      out-of-range hours or minutes roll over, exactly as `setHours` does. */
  function ClockMinutes(t: string): Option<int>
  {
    var parts := SplitColon(t);
    if |parts| < 2 then None
    else
      match (NumberOf(parts[0]), NumberOf(parts[1]))
      case (Some(h), Some(m)) => Some(h * 60 + m)
      case _ => None
  }

  /** Two digits spell ten times the first plus the second. */
  lemma TwoDigitsValue(p: string)
    requires |p| == 2 && IsDigit(p[0]) && IsDigit(p[1])
    ensures AllDigits(p) && DigitsValue(p) == DigitValue(p[0]) * 10 + DigitValue(p[1])
  {
    var first := p[..1];
    assert first == [p[0]] && first[..0] == [] && p[..|p| - 1] == first;
    assert AllDigits(first);
    assert DigitsValue(first) == DigitsValue(first[..0]) * 10 + DigitValue(p[0]);
    assert DigitsValue(p) == DigitsValue(first) * 10 + DigitValue(p[1]);
  }

  /** "HH:MM" and "HH:MM:SS" with digits parse to `HH * 60 + MM` (seconds ignored). */
  lemma ClockMinutesOfWellFormed(t: string)
    requires |t| == 5 || (|t| > 5 && t[5] == ':')
    requires IsDigit(t[0]) && IsDigit(t[1]) && t[2] == ':' && IsDigit(t[3]) && IsDigit(t[4])
    ensures ClockMinutes(t) ==
      Some((DigitValue(t[0]) * 10 + DigitValue(t[1])) * 60 + DigitValue(t[3]) * 10 + DigitValue(t[4]))
  {
    var hh, tail, mm := t[..2], t[3..], t[3..5];
    assert hh == [t[0], t[1]] && mm == [t[3], t[4]];
    assert t == hh + ":" + tail;
    SplitColonAt(hh, tail);
    if |t| == 5 {
      assert tail == mm;
      assert ':' !in mm;
      SplitColonNone(mm);
    } else {
      assert tail == mm + ":" + t[6..];
      SplitColonAt(mm, t[6..]);
    }
    TwoDigitsValue(hh);
    TwoDigitsValue(mm);
  }

  /** A time string without ':' leaves the minute `undefined`, so the result is `NaN`. */
  lemma ClockMinutesWithoutColon(t: string)
    requires ':' !in t
    ensures ClockMinutes(t) == None
  {
    SplitColonNone(t);
  }

  /** An hour piece that is not a run of digits ("9am:00") makes the result `NaN`. */
  lemma ClockMinutesRejectsBadHour(a: string, b: string)
    requires ':' !in a && !AllDigits(a)
    ensures ClockMinutes(a + ":" + b) == None
  {
    SplitColonAt(a, b);
  }

  // ---------------------------------------------------------------------------
  // The conflict test
  // ---------------------------------------------------------------------------

  /** The source's three-clause test whether candidate [s, e] conflicts with an appointment. */
  predicate Conflicts(s: int, e: int, a: Appointment)
  {
    || (s >= a.start && s < a.end)
    || (e > a.start && e <= a.end)
    || (s <= a.start && e >= a.end)
  }

  /** Half-open overlap of [s, e) and [aStart, aEnd). */
  predicate Overlaps(s: int, e: int, aStart: int, aEnd: int)
  {
    s < aEnd && e > aStart
  }

  /** For intervals of positive length, the three clauses say exactly "the
      half-open intervals overlap"; in particular touching ends do not conflict. */
  lemma ConflictIsHalfOpenOverlap(s: int, e: int, a: Appointment)
    requires s < e && a.start < a.end
    ensures Conflicts(s, e, a) <==> Overlaps(s, e, a.start, a.end)
  {
  }

  /** A candidate that starts where an appointment ends, or ends where it starts,
      is no conflict. */
  lemma TouchingIsNoConflict(s: int, e: int, a: Appointment)
    requires s < e && a.start < a.end
    requires s == a.end || e == a.start
    ensures !Conflicts(s, e, a)
  {
  }

  /** `existingAppointments.some(...)`: some considered appointment conflicts. */
  predicate HasConflict(s: int, e: int, apts: seq<Appointment>)
  {
    exists i | 0 <= i < |apts| :: Conflicts(s, e, apts[i])
  }

  // ---------------------------------------------------------------------------
  // Stepping through one business-hours window
  // ---------------------------------------------------------------------------

  /** `Math.min(15, durationMinutes)`: the distance between consecutive candidates. */
  function SlotInterval(span: int): (step: int)
    ensures step <= MaxSlotInterval && step <= span
    ensures step == MaxSlotInterval || step == span
  {
    if span < MaxSlotInterval then span else MaxSlotInterval
  }

  /** A candidate is kept when it conflicts with nothing and lies strictly after `now`. */
  predicate Offered(start: int, span: int, apts: seq<Appointment>, now: int)
  {
    !HasConflict(start, start + span, apts) && start > now
  }

  /** The slots the stepping loop emits from candidate `cur` on, in a window
      ending at `windowEnd`, for an occupied span of `span` minutes. */
  function SlotsFrom(cur: int, windowEnd: int, span: int, apts: seq<Appointment>, now: int): seq<Slot>
    requires span > 0
    decreases windowEnd - span - cur
  {
    if cur + span > windowEnd then []
    else
      (if Offered(cur, span, apts, now) then [Slot(cur, cur + span)] else [])
      + SlotsFrom(cur + SlotInterval(span), windowEnd, span, apts, now)
  }

  /** An offered candidate that fits heads the slots from it. */
  lemma SlotsFromOffered(cur: int, windowEnd: int, span: int, apts: seq<Appointment>, now: int)
    requires span > 0 && cur + span <= windowEnd && Offered(cur, span, apts, now)
    ensures SlotsFrom(cur, windowEnd, span, apts, now)
         == [Slot(cur, cur + span)] + SlotsFrom(cur + SlotInterval(span), windowEnd, span, apts, now)
  {
  }

  /** A candidate that fits but is not offered is passed over. */
  lemma SlotsFromSkipped(cur: int, windowEnd: int, span: int, apts: seq<Appointment>, now: int)
    requires span > 0 && cur + span <= windowEnd && !Offered(cur, span, apts, now)
    ensures SlotsFrom(cur, windowEnd, span, apts, now) == SlotsFrom(cur + SlotInterval(span), windowEnd, span, apts, now)
  {
    assert [] + SlotsFrom(cur + SlotInterval(span), windowEnd, span, apts, now)
        == SlotsFrom(cur + SlotInterval(span), windowEnd, span, apts, now);
  }

  /** The candidate `k` steps after `from`. */
  function StepsFrom(from: int, k: nat, step: int): int
  {
    from + k * step
  }

  /** `t` is one of the candidates reached from `from` in whole steps. */
  ghost predicate OnGrid(t: int, from: int, step: int)
  {
    exists k: nat :: t == StepsFrom(from, k, step)
  }

  lemma GridStep(t: int, from: int, step: int)
    ensures OnGrid(t, from, step) <==> t == from || OnGrid(t, from + step, step)
  {
    if OnGrid(t, from, step) && t != from {
      var k: nat :| t == StepsFrom(from, k, step);
      assert k != 0;
      assert t == StepsFrom(from + step, k - 1, step);
    }
    if t == from {
      assert t == StepsFrom(from, 0, step);
    }
    if OnGrid(t, from + step, step) {
      var k: nat :| t == StepsFrom(from + step, k, step);
      assert t == StepsFrom(from, k + 1, step);
    }
  }

  /** Grid candidates never lie before the first one when the step is positive. */
  lemma GridAtLeast(t: int, from: int, step: int)
    requires step > 0 && OnGrid(t, from, step)
    ensures t >= from
  {
    var k: nat :| t == StepsFrom(from, k, step);
  }

  /** The loop emits exactly the grid candidates that fit the window and are
      offered; each slot's end is its start plus the full span (buffer included). */
  lemma {:induction false} SlotsFromExactly(
    cur: int, windowEnd: int, span: int, apts: seq<Appointment>, now: int, x: Slot)
    requires span > 0
    ensures x in SlotsFrom(cur, windowEnd, span, apts, now) <==>
      && OnGrid(x.start, cur, SlotInterval(span))
      && x.start + span <= windowEnd
      && x.end == x.start + span
      && Offered(x.start, span, apts, now)
    decreases windowEnd - span - cur
  {
    var step := SlotInterval(span);
    GridStep(x.start, cur, step);
    if cur + span <= windowEnd {
      SlotsFromExactly(cur + step, windowEnd, span, apts, now, x);
    }
  }

  /** Slot starts strictly increase along the sequence. */
  predicate StartsAscending(r: seq<Slot>)
  {
    forall i, j :: 0 <= i < j < |r| ==> r[i].start < r[j].start
  }

  /** Every slot starts at or after `lo`. */
  predicate StartsAtLeast(r: seq<Slot>, lo: int)
  {
    forall i :: 0 <= i < |r| ==> r[i].start >= lo
  }

  /** Every slot emitted from `cur` on starts at or after `cur`. */
  lemma {:induction false} SlotsFromStartAtLeast(
    cur: int, windowEnd: int, span: int, apts: seq<Appointment>, now: int)
    requires span > 0
    ensures StartsAtLeast(SlotsFrom(cur, windowEnd, span, apts, now), cur)
    decreases windowEnd - span - cur
  {
    if cur + span <= windowEnd {
      SlotsFromStartAtLeast(cur + SlotInterval(span), windowEnd, span, apts, now);
    }
  }

  /** Putting a slot that starts before all others in front keeps the order. */
  lemma PrependAscending(head: seq<Slot>, rest: seq<Slot>, cur: int)
    requires |head| <= 1 && (head != [] ==> head[0].start == cur)
    requires StartsAscending(rest) && StartsAtLeast(rest, cur + 1)
    ensures StartsAscending(head + rest)
  {
    var r := head + rest;
    forall i, j | 0 <= i < j < |r| ensures r[i].start < r[j].start {
      assert r[j] == rest[j - |head|];
      if i >= |head| {
        assert r[i] == rest[i - |head|];
      }
    }
  }

  /** Within one window the slots come out in strictly ascending order. */
  lemma {:induction false} SlotsFromAscending(
    cur: int, windowEnd: int, span: int, apts: seq<Appointment>, now: int)
    requires span > 0
    ensures StartsAscending(SlotsFrom(cur, windowEnd, span, apts, now))
    decreases windowEnd - span - cur
  {
    if cur + span <= windowEnd {
      var step := SlotInterval(span);
      var head := if Offered(cur, span, apts, now) then [Slot(cur, cur + span)] else [];
      SlotsFromAscending(cur + step, windowEnd, span, apts, now);
      SlotsFromStartAtLeast(cur + step, windowEnd, span, apts, now);
      PrependAscending(head, SlotsFrom(cur + step, windowEnd, span, apts, now), cur);
    }
  }

  /** Each offered start, booked for any positive duration up to the span,
      overlaps none of the (positive-length) appointments it was checked against. */
  lemma BookedSlotIsFree(
    cur: int, windowEnd: int, span: int, apts: seq<Appointment>, now: int, x: Slot, duration: int)
    requires span > 0
    requires x in SlotsFrom(cur, windowEnd, span, apts, now)
    requires 0 < duration <= span
    ensures forall i :: 0 <= i < |apts| && apts[i].start < apts[i].end ==>
      !Overlaps(x.start, x.start + duration, apts[i].start, apts[i].end)
  {
    SlotsFromExactly(cur, windowEnd, span, apts, now, x);
    forall i | 0 <= i < |apts| && apts[i].start < apts[i].end
      ensures !Overlaps(x.start, x.start + duration, apts[i].start, apts[i].end)
    {
      assert !Conflicts(x.start, x.start + span, apts[i]);
      ConflictIsHalfOpenOverlap(x.start, x.start + span, apts[i]);
    }
  }

  /** The slots of one hours row on `day`; a time string that parses to `NaN`
      makes the loop condition false, so the window yields nothing. */
  function WindowSlots(day: Day, startTime: string, endTime: string, span: int, apts: seq<Appointment>, now: int): seq<Slot>
    requires span > 0
  {
    match (ClockMinutes(startTime), ClockMinutes(endTime))
    case (Some(s), Some(e)) => SlotsFrom(day.midnight + s, day.midnight + e, span, apts, now)
    case _ => []
  }

  /** `generateSlotsForPeriod`: step through one window and keep the offered candidates. */
  method GenerateSlotsForPeriod(
    day: Day, startTime: string, endTime: string, span: int, apts: seq<Appointment>, now: int)
    returns (slots: seq<Slot>)
    requires span > 0
    ensures slots == WindowSlots(day, startTime, endTime, span, apts, now)
  {
    slots := [];
    var startMinutes, endMinutes := ClockMinutes(startTime), ClockMinutes(endTime);
    if startMinutes.Some? && endMinutes.Some? {
      var first := day.midnight + startMinutes.value;
      var windowEnd := day.midnight + endMinutes.value;
      ghost var whole := SlotsFrom(first, windowEnd, span, apts, now);
      assert whole == WindowSlots(day, startTime, endTime, span, apts, now);
      var slotInterval := SlotInterval(span);
      var current := first;
      while current + span <= windowEnd
        invariant slots + SlotsFrom(current, windowEnd, span, apts, now) == whole
        decreases windowEnd - span - current
      {
        var slotEnd := current + span;
        StepKeepsPrefix(slots, current, windowEnd, span, apts, now, whole);
        var hasConflict := HasConflict(current, slotEnd, apts);
        if !hasConflict && current > now {
          slots := slots + [Slot(current, slotEnd)];
        }
        current := current + slotInterval;
      }
      assert slots + [] == slots;
    }
  }

  /** One step of the loop: emitting the candidate when it is offered keeps
      the emitted slots a prefix of the window's slots. */
  lemma StepKeepsPrefix(
    done: seq<Slot>, cur: int, windowEnd: int, span: int, apts: seq<Appointment>, now: int, whole: seq<Slot>)
    requires span > 0 && cur + span <= windowEnd
    requires done + SlotsFrom(cur, windowEnd, span, apts, now) == whole
    ensures (if Offered(cur, span, apts, now) then done + [Slot(cur, cur + span)] else done)
            + SlotsFrom(cur + SlotInterval(span), windowEnd, span, apts, now) == whole
  {
    var rest := SlotsFrom(cur + SlotInterval(span), windowEnd, span, apts, now);
    if Offered(cur, span, apts, now) {
      SlotsFromOffered(cur, windowEnd, span, apts, now);
      assert (done + [Slot(cur, cur + span)]) + rest == done + ([Slot(cur, cur + span)] + rest);
    } else {
      SlotsFromSkipped(cur, windowEnd, span, apts, now);
    }
  }

  // ---------------------------------------------------------------------------
  // The queries of getAvailableSlots
  // ---------------------------------------------------------------------------

  /** Only these statuses occupy time. */
  predicate Occupies(a: Appointment) { a.status == Scheduled || a.status == Confirmed }

  /** The appointments considered for `day`: of this business, occupying, and
      starting between 00:00:00 and 23:59:59 of the day. */
  function DayAppointments(apts: seq<Appointment>, businessId: Id, day: Day): seq<Appointment>
  {
    Filter(apts, (a: Appointment) =>
      a.businessId == businessId && Occupies(a)
      && day.midnight <= a.start <= day.midnight + LastMinuteOfDay)
  }

  /** The active hours rows of this business for the weekday, in table order. */
  function ActiveHours(hours: seq<HoursRow>, businessId: Id, weekday: int): seq<HoursRow>
  {
    Filter(hours, (r: HoursRow) => r.businessId == businessId && r.dayOfWeek == weekday && r.isActive)
  }

  /** Rows of `services` with this id and business (what `.single()` looks at). */
  function ExactServices(services: seq<Service>, serviceId: Id, businessId: Id): seq<Service>
  {
    Filter(services, (s: Service) => s.id == serviceId && s.businessId == businessId)
  }

  /** Active services of the business, the fallback candidates. */
  function ActiveServices(services: seq<Service>, businessId: Id): seq<Service>
  {
    Filter(services, (s: Service) => s.businessId == businessId && s.isActive)
  }

  /** The service `getAvailableSlots` works with: the one row with this id and
      business (`.single()` fails on zero or several), else the first active
      service of the business, else none. */
  function ResolveService(services: seq<Service>, serviceId: Id, businessId: Id): Option<Service>
  {
    var exact := ExactServices(services, serviceId, businessId);
    if |exact| == 1 then Some(exact[0])
    else
      var active := ActiveServices(services, businessId);
      if |active| > 0 then Some(active[0]) else None
  }

  /** The resolved service always belongs to the business; a unique exact match
      wins; the fallback is the first active service; with neither there is none. */
  lemma ResolveServiceCases(services: seq<Service>, serviceId: Id, businessId: Id)
    ensures var r := ResolveService(services, serviceId, businessId);
      && (r.Some? ==> r.value in services && r.value.businessId == businessId)
      && (|ExactServices(services, serviceId, businessId)| == 1 ==>
            r.Some? && r.value.id == serviceId)
      && (|ExactServices(services, serviceId, businessId)| != 1 && r.Some? ==>
            r.value.isActive && r.value == ActiveServices(services, businessId)[0])
      && (r.None? <==>
            |ExactServices(services, serviceId, businessId)| != 1
            && forall s :: s in services && s.businessId == businessId ==> !s.isActive)
  {
    var exact := ExactServices(services, serviceId, businessId);
    var active := ActiveServices(services, businessId);
    var pe := (s: Service) => s.id == serviceId && s.businessId == businessId;
    var pa := (s: Service) => s.businessId == businessId && s.isActive;
    if |exact| == 1 {
      FilterMembership(services, pe, exact[0]);
    }
    if |active| > 0 {
      FilterMembership(services, pa, active[0]);
    } else {
      forall s | s in services && s.businessId == businessId ensures !s.isActive {
        FilterMembership(services, pa, s);
      }
    }
  }

  /** `service.duration_minutes + (service.buffer_minutes || 0)`. */
  function TotalDuration(s: Service): int
  {
    s.durationMinutes + s.bufferMinutes
  }

  /** Every window's slots, concatenated in row order. */
  function RowsSlots(day: Day, rows: seq<HoursRow>, span: int, apts: seq<Appointment>, now: int): seq<Slot>
    requires span > 0
    decreases |rows|
  {
    if rows == [] then []
    else RowsSlots(day, rows[..|rows| - 1], span, apts, now)
         + WindowSlots(day, rows[|rows| - 1].startTime, rows[|rows| - 1].endTime, span, apts, now)
  }

  /** A slot is in the concatenation exactly when some row's window yields it. */
  lemma {:induction false} RowsSlotsMembership(
    day: Day, rows: seq<HoursRow>, span: int, apts: seq<Appointment>, now: int, x: Slot)
    requires span > 0
    ensures x in RowsSlots(day, rows, span, apts, now) <==>
      exists k :: 0 <= k < |rows| && x in WindowSlots(day, rows[k].startTime, rows[k].endTime, span, apts, now)
    decreases |rows|
  {
    if rows != [] {
      var init := rows[..|rows| - 1];
      RowsSlotsMembership(day, init, span, apts, now, x);
      if x in WindowSlots(day, rows[|rows| - 1].startTime, rows[|rows| - 1].endTime, span, apts, now) {
      } else if exists k :: 0 <= k < |rows| && x in WindowSlots(day, rows[k].startTime, rows[k].endTime, span, apts, now) {
        var k :| 0 <= k < |rows| && x in WindowSlots(day, rows[k].startTime, rows[k].endTime, span, apts, now);
        assert rows[k] == init[k];
      }
    }
  }

  /** Every service in the table occupies a positive span. */
  predicate PositiveSpans(services: seq<Service>)
  {
    forall i :: 0 <= i < |services| ==> TotalDuration(services[i]) > 0
  }

  /** The service the listing resolves, if any, occupies a positive span. */
  predicate ResolvesToPositiveSpan(services: seq<Service>, serviceId: Id, businessId: Id)
  {
    match ResolveService(services, serviceId, businessId)
    case None => true
    case Some(service) => TotalDuration(service) > 0
  }

  /** The listing reaches the stepping loop only with a positive span: it
      returns before the loop when a query fails or the day has no active
      hours row, and otherwise steps with the resolved service's span. */
  predicate SteppingSpanPositive(
    services: seq<Service>, hours: seq<HoursRow>, businessId: Id, serviceId: Id, day: Day,
    hoursQueryFails: bool, appointmentsQueryFails: bool)
  {
    || hoursQueryFails || appointmentsQueryFails
    || |ActiveHours(hours, businessId, day.weekday)| == 0
    || ResolvesToPositiveSpan(services, serviceId, businessId)
  }

  /** `getAvailableSlots` as a function of the tables. `hoursQueryFails` and
      `appointmentsQueryFails` say whether those queries return an error. */
  function AvailableSlots(
    services: seq<Service>, hours: seq<HoursRow>, apts: seq<Appointment>,
    businessId: Id, serviceId: Id, day: Day, now: int,
    hoursQueryFails: bool, appointmentsQueryFails: bool): Result<seq<Slot>, Failure>
    requires SteppingSpanPositive(services, hours, businessId, serviceId, day, hoursQueryFails, appointmentsQueryFails)
  {
    match ResolveService(services, serviceId, businessId)
    case None => Failure(ServiceNotFound)
    case Some(service) =>
      var rows := ActiveHours(hours, businessId, day.weekday);
      if hoursQueryFails || |rows| == 0 then Success([])
      else if appointmentsQueryFails then Failure(FetchAppointmentsFailed)
      else
        ResolveServiceCases(services, serviceId, businessId);
        Success(RowsSlots(day, rows, TotalDuration(service), DayAppointments(apts, businessId, day), now))
  }

  /** A closed day (no active rows) or a failed hours query gives no slots and no
      error, once the service resolves; an unresolvable service fails first.
      No service needs a positive span for this. */
  lemma ClosedDayHasNoSlots(
    services: seq<Service>, hours: seq<HoursRow>, apts: seq<Appointment>,
    businessId: Id, serviceId: Id, day: Day, now: int,
    hoursQueryFails: bool, appointmentsQueryFails: bool)
    requires hoursQueryFails || forall r :: r in hours && r.businessId == businessId && r.isActive ==> r.dayOfWeek != day.weekday
    ensures SteppingSpanPositive(services, hours, businessId, serviceId, day, hoursQueryFails, appointmentsQueryFails)
    ensures var res := AvailableSlots(services, hours, apts, businessId, serviceId, day, now, hoursQueryFails, appointmentsQueryFails);
      res == if ResolveService(services, serviceId, businessId).None? then Failure(ServiceNotFound) else Success([])
  {
    var rows := ActiveHours(hours, businessId, day.weekday);
    if !hoursQueryFails && |rows| > 0 {
      FilterMembership(hours, (r: HoursRow) => r.businessId == businessId && r.dayOfWeek == day.weekday && r.isActive, rows[0]);
    }
  }

  /** With the service resolved and an active hours row for the weekday, a
      failing appointments query fails the listing, whatever the spans. */
  lemma FailedAppointmentsQueryFails(
    services: seq<Service>, hours: seq<HoursRow>, apts: seq<Appointment>,
    businessId: Id, serviceId: Id, day: Day, now: int, r: HoursRow)
    requires ResolveService(services, serviceId, businessId).Some?
    requires r in hours && r.businessId == businessId && r.dayOfWeek == day.weekday && r.isActive
    ensures AvailableSlots(services, hours, apts, businessId, serviceId, day, now, false, true)
            == Failure(FetchAppointmentsFailed)
  {
    FilterMembership(hours, (r: HoursRow) => r.businessId == businessId && r.dayOfWeek == day.weekday && r.isActive, r);
  }

  /** `x` is admitted by the window of hours row `r`: both times parse, `x`
      starts on the window's grid, fits it with the whole span, ends `span`
      after its start, and is offered. */
  ghost predicate WindowAdmits(day: Day, r: HoursRow, span: int, apts: seq<Appointment>, now: int, x: Slot)
    requires span > 0
  {
    && ClockMinutes(r.startTime).Some? && ClockMinutes(r.endTime).Some?
    && OnGrid(x.start, day.midnight + ClockMinutes(r.startTime).value, SlotInterval(span))
    && x.start + span <= day.midnight + ClockMinutes(r.endTime).value
    && x.end == x.start + span
    && Offered(x.start, span, apts, now)
  }

  /** One window yields exactly the slots it admits. */
  lemma WindowSlotsExactly(day: Day, r: HoursRow, span: int, apts: seq<Appointment>, now: int, x: Slot)
    requires span > 0
    ensures x in WindowSlots(day, r.startTime, r.endTime, span, apts, now) <==> WindowAdmits(day, r, span, apts, now, x)
  {
    if ClockMinutes(r.startTime).Some? && ClockMinutes(r.endTime).Some? {
      SlotsFromExactly(day.midnight + ClockMinutes(r.startTime).value,
                       day.midnight + ClockMinutes(r.endTime).value, span, apts, now, x);
    }
  }

  /** A slot of the weekday's active windows is admitted by one of those rows. */
  lemma ActiveRowsSlotsSound(
    day: Day, hours: seq<HoursRow>, businessId: Id, span: int, considered: seq<Appointment>, now: int, x: Slot)
    requires span > 0
    requires x in RowsSlots(day, ActiveHours(hours, businessId, day.weekday), span, considered, now)
    ensures exists r ::
      r in hours && r.businessId == businessId && r.dayOfWeek == day.weekday && r.isActive
      && WindowAdmits(day, r, span, considered, now, x)
  {
    var rows := ActiveHours(hours, businessId, day.weekday);
    RowsSlotsMembership(day, rows, span, considered, now, x);
    var k :| 0 <= k < |rows| && x in WindowSlots(day, rows[k].startTime, rows[k].endTime, span, considered, now);
    FilterMembership(hours, (r: HoursRow) => r.businessId == businessId && r.dayOfWeek == day.weekday && r.isActive, rows[k]);
    WindowSlotsExactly(day, rows[k], span, considered, now, x);
  }

  /** A slot that an active row of the weekday admits is among the windows' slots. */
  lemma ActiveRowsSlotsComplete(
    day: Day, hours: seq<HoursRow>, businessId: Id, span: int, considered: seq<Appointment>, now: int, x: Slot, r: HoursRow)
    requires span > 0
    requires r in hours && r.businessId == businessId && r.dayOfWeek == day.weekday && r.isActive
    requires WindowAdmits(day, r, span, considered, now, x)
    ensures x in RowsSlots(day, ActiveHours(hours, businessId, day.weekday), span, considered, now)
  {
    var rows := ActiveHours(hours, businessId, day.weekday);
    FilterMembership(hours, (r: HoursRow) => r.businessId == businessId && r.dayOfWeek == day.weekday && r.isActive, r);
    var k :| 0 <= k < |rows| && rows[k] == r;
    WindowSlotsExactly(day, r, span, considered, now, x);
    RowsSlotsMembership(day, rows, span, considered, now, x);
  }

  /** The windows of the weekday's active rows yield exactly the slots some
      active row of that weekday admits. */
  lemma ActiveRowsSlotsExactly(
    day: Day, hours: seq<HoursRow>, businessId: Id, span: int, considered: seq<Appointment>, now: int, x: Slot)
    requires span > 0
    ensures x in RowsSlots(day, ActiveHours(hours, businessId, day.weekday), span, considered, now) <==>
      exists r :: r in hours && r.businessId == businessId && r.dayOfWeek == day.weekday && r.isActive
        && WindowAdmits(day, r, span, considered, now, x)
  {
    if x in RowsSlots(day, ActiveHours(hours, businessId, day.weekday), span, considered, now) {
      ActiveRowsSlotsSound(day, hours, businessId, span, considered, now, x);
    }
    if exists r :: r in hours && r.businessId == businessId && r.dayOfWeek == day.weekday && r.isActive
        && WindowAdmits(day, r, span, considered, now, x) {
      var r :| r in hours && r.businessId == businessId && r.dayOfWeek == day.weekday && r.isActive
        && WindowAdmits(day, r, span, considered, now, x);
      ActiveRowsSlotsComplete(day, hours, businessId, span, considered, now, x, r);
    }
  }

  /** The heart of `getAvailableSlots`: a slot is returned exactly when the
      window of some active row for the weekday admits it, measured with the
      service's `duration + buffer` and against the considered appointments. */
  lemma AvailableSlotsExactly(
    services: seq<Service>, hours: seq<HoursRow>, apts: seq<Appointment>,
    businessId: Id, serviceId: Id, day: Day, now: int, service: Service, slots: seq<Slot>, x: Slot)
    requires ResolveService(services, serviceId, businessId) == Some(service)
    requires TotalDuration(service) > 0
    requires AvailableSlots(services, hours, apts, businessId, serviceId, day, now, false, false) == Success(slots)
    ensures x in slots <==>
      exists r :: r in hours && r.businessId == businessId && r.dayOfWeek == day.weekday && r.isActive
        && WindowAdmits(day, r, TotalDuration(service), DayAppointments(apts, businessId, day), now, x)
  {
    var span := TotalDuration(service);
    var rows := ActiveHours(hours, businessId, day.weekday);
    var considered := DayAppointments(apts, businessId, day);
    assert slots == RowsSlots(day, rows, span, considered, now);
    ActiveRowsSlotsExactly(day, hours, businessId, span, considered, now, x);
  }

  /** Booking an offered start for the service's own duration overlaps none of
      the appointments the listing considered, provided the buffer is not
      negative. Appointments created later, or not considered (other days,
      other statuses), are not covered: the booking path does not re-check. */
  lemma OfferedSlotIsFree(
    services: seq<Service>, hours: seq<HoursRow>, apts: seq<Appointment>,
    businessId: Id, serviceId: Id, day: Day, now: int, service: Service, slots: seq<Slot>, x: Slot)
    requires ResolveService(services, serviceId, businessId) == Some(service)
    requires service.durationMinutes > 0 && service.bufferMinutes >= 0
    requires AvailableSlots(services, hours, apts, businessId, serviceId, day, now, false, false) == Success(slots)
    requires x in slots
    ensures forall a :: a in DayAppointments(apts, businessId, day) && a.start < a.end ==>
      !Overlaps(x.start, x.start + service.durationMinutes, a.start, a.end)
  {
    var considered := DayAppointments(apts, businessId, day);
    var span := TotalDuration(service);
    AvailableSlotsExactly(services, hours, apts, businessId, serviceId, day, now, service, slots, x);
    var r :| r in hours && r.businessId == businessId && r.dayOfWeek == day.weekday && r.isActive
      && WindowAdmits(day, r, span, considered, now, x);
    forall a | a in considered && a.start < a.end
      ensures !Overlaps(x.start, x.start + service.durationMinutes, a.start, a.end)
    {
      var i :| 0 <= i < |considered| && considered[i] == a;
      assert !Conflicts(x.start, x.start + span, considered[i]);
      ConflictIsHalfOpenOverlap(x.start, x.start + span, a);
    }
  }

  /** A table whose every service has a positive span meets the listing's
      precondition for every business, service, day and query outcome. */
  lemma ResolvedSpanPositive(
    services: seq<Service>, hours: seq<HoursRow>, businessId: Id, serviceId: Id, day: Day,
    hoursQueryFails: bool, appointmentsQueryFails: bool)
    requires PositiveSpans(services)
    ensures ResolvesToPositiveSpan(services, serviceId, businessId)
    ensures SteppingSpanPositive(services, hours, businessId, serviceId, day, hoursQueryFails, appointmentsQueryFails)
  {
    ResolveServiceCases(services, serviceId, businessId);
    if ResolveService(services, serviceId, businessId).Some? {
      var s := ResolveService(services, serviceId, businessId).value;
      var i :| 0 <= i < |services| && services[i] == s;
    }
  }

  // ---------------------------------------------------------------------------
  // findOrCreateCustomer
  // ---------------------------------------------------------------------------

  /** The customer row matches the (business, email) key the lookup filters on. */
  predicate HasKey(c: Customer, businessId: Id, email: string)
  {
    c.businessId == businessId && c.email == Some(email)
  }

  function CustomersWith(customers: seq<Customer>, businessId: Id, email: string): seq<Customer>
  {
    Filter(customers, (c: Customer) => HasKey(c, businessId, email))
  }

  /** At most one row per (business, email): the state a sequential run keeps. */
  ghost predicate UniqueKeys(customers: seq<Customer>)
  {
    forall i, j ::
      (0 <= i < j < |customers| && customers[i].email.Some? && customers[i].businessId == customers[j].businessId)
      ==> customers[i].email != customers[j].email
  }

  /** `email.split('@')[0]`: the text before the first '@' (all of it when there is none). */
  function BeforeAt(email: string): (local: string)
    ensures local <= email && '@' !in local
    ensures |local| < |email| ==> email[|local|] == '@'
    decreases |email|
  {
    if email == [] || email[0] == '@' then ""
    else [email[0]] + BeforeAt(email[1..])
  }

  /** `name || email.split('@')[0]`: an absent or empty name falls back to the local part. */
  function NewCustomerName(email: string, name: Option<string>): string
  {
    if name.Some? && name.value != "" then name.value else BeforeAt(email)
  }

  /** `phone || null`: an absent or empty phone is stored as null. */
  function NewCustomerPhone(phone: Option<string>): Option<string>
  {
    if phone.Some? && phone.value != "" then phone else None
  }

  /** Every row id lies below the next fresh id. */
  ghost predicate IdsBelow(customers: seq<Customer>, appointments: seq<Appointment>, nextId: nat)
  {
    && (forall i :: 0 <= i < |customers| ==> customers[i].id < nextId)
    && (forall i :: 0 <= i < |appointments| ==> appointments[i].id < nextId)
  }

  datatype CustomerOutcome = CustomerOutcome(result: Result<Id, Failure>, customers: seq<Customer>, nextId: nat)

  /** `findOrCreateCustomer` on the customer table: the lookup's `.single()`
      succeeds only on exactly one matching row; otherwise a row is inserted
      (unless the insert fails). */
  function FindOrCreate(
    customers: seq<Customer>, nextId: nat, businessId: Id, email: string,
    name: Option<string>, phone: Option<string>, insertFails: bool): CustomerOutcome
  {
    var existing := CustomersWith(customers, businessId, email);
    if |existing| == 1 then CustomerOutcome(Success(existing[0].id), customers, nextId)
    else if insertFails then CustomerOutcome(Failure(CreateCustomerFailed), customers, nextId)
    else
      var row := Customer(nextId, businessId, Some(email), NewCustomerName(email, name), NewCustomerPhone(phone));
      CustomerOutcome(Success(nextId), customers + [row], nextId + 1)
  }

  /** With unique keys the lookup sees at most one row. */
  lemma {:induction false} UniqueKeysAtMostOne(customers: seq<Customer>, businessId: Id, email: string)
    requires UniqueKeys(customers)
    ensures |CustomersWith(customers, businessId, email)| <= 1
    decreases |customers|
  {
    if customers != [] {
      var init := customers[..|customers| - 1];
      var last := customers[|customers| - 1];
      var p := (c: Customer) => HasKey(c, businessId, email);
      assert UniqueKeys(init) by {
        forall i, j | 0 <= i < j < |init| ensures init[i] == customers[i] && init[j] == customers[j] { }
      }
      UniqueKeysAtMostOne(init, businessId, email);
      if HasKey(last, businessId, email) && |CustomersWith(init, businessId, email)| > 0 {
        FilterMembership(init, p, CustomersWith(init, businessId, email)[0]);
        assert false;
      }
    }
  }

  /** An existing (business, email) row is found: its id comes back and the
      table is unchanged. */
  lemma FindOrCreateFindsExisting(
    customers: seq<Customer>, nextId: nat, businessId: Id, email: string,
    name: Option<string>, phone: Option<string>, insertFails: bool, c: Customer)
    requires UniqueKeys(customers)
    requires c in customers && HasKey(c, businessId, email)
    ensures FindOrCreate(customers, nextId, businessId, email, name, phone, insertFails)
         == CustomerOutcome(Success(c.id), customers, nextId)
  {
    var p := (x: Customer) => HasKey(x, businessId, email);
    FilterMembership(customers, p, c);
    UniqueKeysAtMostOne(customers, businessId, email);
    var existing := CustomersWith(customers, businessId, email);
    assert existing[0] in existing;
    FilterMembership(customers, p, existing[0]);
  }

  /** A missing key gets exactly one new row, with a fresh id, the given email,
      the name defaulting to the email's local part and the phone to null. */
  lemma FindOrCreateInsertsOne(
    customers: seq<Customer>, nextId: nat, businessId: Id, email: string,
    name: Option<string>, phone: Option<string>)
    requires IdsBelow(customers, [], nextId)
    requires forall c :: c in customers ==> !HasKey(c, businessId, email)
    ensures var out := FindOrCreate(customers, nextId, businessId, email, name, phone, false);
      && out.result.Success?
      && |out.customers| == |customers| + 1 && out.customers[..|customers|] == customers
      && (forall c :: c in customers ==> c.id != out.result.value)
      && var row := out.customers[|customers|];
         && row.id == out.result.value && HasKey(row, businessId, email)
         && (name.None? || name.value == "" ==> row.name == BeforeAt(email))
         && (phone.None? || phone.value == "" ==> row.phone.None?)
  {
    var p := (x: Customer) => HasKey(x, businessId, email);
    var existing := CustomersWith(customers, businessId, email);
    if |existing| > 0 {
      FilterMembership(customers, p, existing[0]);
    }
  }

  /** Lookup-or-insert keeps at most one row per key and keeps ids below the counter. */
  lemma FindOrCreateKeepsInvariants(
    customers: seq<Customer>, appointments: seq<Appointment>, nextId: nat, businessId: Id, email: string,
    name: Option<string>, phone: Option<string>, insertFails: bool)
    requires UniqueKeys(customers)
    requires IdsBelow(customers, appointments, nextId)
    ensures var out := FindOrCreate(customers, nextId, businessId, email, name, phone, insertFails);
      UniqueKeys(out.customers) && IdsBelow(out.customers, appointments, out.nextId)
  {
    var out := FindOrCreate(customers, nextId, businessId, email, name, phone, insertFails);
    var existing := CustomersWith(customers, businessId, email);
    if |existing| != 1 && !insertFails {
      UniqueKeysAtMostOne(customers, businessId, email);
      var cs := out.customers;
      var row := cs[|customers|];
      forall i | 0 <= i < |customers| && customers[i].email.Some? && customers[i].businessId == row.businessId
        ensures customers[i].email != row.email
      {
        if customers[i].email == row.email {
          FilterMembership(customers, (c: Customer) => HasKey(c, businessId, email), customers[i]);
        }
      }
      forall i, j | 0 <= i < j < |cs| && cs[i].email.Some? && cs[i].businessId == cs[j].businessId
        ensures cs[i].email != cs[j].email
      {
        if j < |customers| {
          assert cs[i] == customers[i] && cs[j] == customers[j];
        } else {
          assert cs[i] == customers[i];
        }
      }
    }
  }

  /** A second call with the same key returns the same id and changes nothing,
      whatever name, phone or insert outcome it comes with. */
  lemma FindOrCreateIdempotent(
    customers: seq<Customer>, appointments: seq<Appointment>, nextId: nat, businessId: Id, email: string,
    name: Option<string>, phone: Option<string>, insertFails: bool,
    name2: Option<string>, phone2: Option<string>, insertFails2: bool)
    requires UniqueKeys(customers)
    requires IdsBelow(customers, appointments, nextId)
    requires FindOrCreate(customers, nextId, businessId, email, name, phone, insertFails).result.Success?
    ensures var first := FindOrCreate(customers, nextId, businessId, email, name, phone, insertFails);
      FindOrCreate(first.customers, first.nextId, businessId, email, name2, phone2, insertFails2)
        == CustomerOutcome(first.result, first.customers, first.nextId)
  {
    var first := FindOrCreate(customers, nextId, businessId, email, name, phone, insertFails);
    FindOrCreateKeepsInvariants(customers, appointments, nextId, businessId, email, name, phone, insertFails);
    var existing := CustomersWith(customers, businessId, email);
    var c;
    if |existing| == 1 {
      c := existing[0];
      FilterMembership(customers, (x: Customer) => HasKey(x, businessId, email), c);
    } else {
      c := first.customers[|customers|];
    }
    assert c in first.customers && c.id == first.result.value;
    FindOrCreateFindsExisting(first.customers, first.nextId, businessId, email, name2, phone2, insertFails2, c);
  }

  // ---------------------------------------------------------------------------
  // createAppointment
  // ---------------------------------------------------------------------------

  /** `business?.timezone || 'America/New_York'`; `.maybeSingle()` yields no row
      unless exactly one business has the id. */
  function BusinessTimezone(businesses: seq<Business>, businessId: Id): (tz: string)
    ensures tz != ""
  {
    var rows := Filter(businesses, (b: Business) => b.id == businessId);
    if |rows| == 1 && rows[0].timezone != "" then rows[0].timezone else DefaultTimezone
  }

  /** The services with this id, whatever their business (the booking lookup does not filter on it). */
  function ServicesWithId(services: seq<Service>, serviceId: Id): seq<Service>
  {
    Filter(services, (s: Service) => s.id == serviceId)
  }

  /** `service.duration_minutes || 30`. */
  function BookedDuration(s: Service): (d: int)
    ensures d != 0
    ensures s.durationMinutes != 0 ==> d == s.durationMinutes
  {
    if s.durationMinutes == 0 then FallbackDuration else s.durationMinutes
  }

  /** `notes || null`. */
  function NotesOrNull(notes: Option<string>): Option<string>
  {
    if notes.Some? && notes.value != "" then notes else None
  }

  datatype BookingOutcome = BookingOutcome(result: Result<Booked, Failure>, appointments: seq<Appointment>, nextId: nat)

  /** `createAppointment` on the tables: no availability re-check is made. */
  function Book(
    businesses: seq<Business>, services: seq<Service>, appointments: seq<Appointment>, nextId: nat,
    businessId: Id, serviceId: Id, customerId: Id, start: int, notes: Option<string>,
    insertFails: bool): BookingOutcome
  {
    var timezone := BusinessTimezone(businesses, businessId);
    var matching := ServicesWithId(services, serviceId);
    if |matching| != 1 then BookingOutcome(Failure(ServiceNotFound), appointments, nextId)
    else if insertFails then BookingOutcome(Failure(CreateAppointmentFailed), appointments, nextId)
    else
      var end := start + BookedDuration(matching[0]);
      var row := Appointment(nextId, businessId, serviceId, customerId, start, end, Scheduled,
                             NotesOrNull(notes), timezone);
      BookingOutcome(Success(Booked(nextId, start, end)), appointments + [row], nextId + 1)
  }

  /** Booking either fails and leaves the table alone, or appends exactly one
      `scheduled` row with a fresh id, `end = start + (duration || 30)` and the
      business's timezone (default 'America/New_York'), and returns it. */
  lemma BookAppendsOneScheduled(
    businesses: seq<Business>, services: seq<Service>, customers: seq<Customer>, appointments: seq<Appointment>,
    nextId: nat, businessId: Id, serviceId: Id, customerId: Id, start: int, notes: Option<string>,
    insertFails: bool)
    requires IdsBelow(customers, appointments, nextId)
    ensures var out := Book(businesses, services, appointments, nextId, businessId, serviceId, customerId, start, notes, insertFails);
      && (out.result.Success? <==> |ServicesWithId(services, serviceId)| == 1 && !insertFails)
      && (|ServicesWithId(services, serviceId)| != 1 ==> out.result == Failure(ServiceNotFound))
      && (out.result.Failure? ==> out.appointments == appointments && out.nextId == nextId)
      && (out.result.Success? ==>
            var a := out.appointments[|appointments|];
            && out.appointments == appointments + [a]
            && IdsBelow(customers, out.appointments, out.nextId)
            && (forall b :: b in appointments ==> b.id != a.id)
            && a.status == Scheduled && Occupies(a)
            && a.start == start && a.end == start + BookedDuration(ServicesWithId(services, serviceId)[0])
            && a.timezone == BusinessTimezone(businesses, businessId)
            && a.serviceId == serviceId && a.customerId == customerId && a.businessId == businessId
            && out.result.value == Booked(a.id, a.start, a.end))
  {
  }

  /** Nothing stops a second booking of the same start: both succeed and the two
      stored appointments overlap. */
  lemma BookingTwiceDoubleBooks(
    businesses: seq<Business>, services: seq<Service>, appointments: seq<Appointment>, nextId: nat,
    businessId: Id, serviceId: Id, customerId: Id, customerId2: Id, start: int)
    requires |ServicesWithId(services, serviceId)| == 1
    requires ServicesWithId(services, serviceId)[0].durationMinutes >= 0
    ensures var first := Book(businesses, services, appointments, nextId, businessId, serviceId, customerId, start, None, false);
      var second := Book(businesses, services, first.appointments, first.nextId, businessId, serviceId, customerId2, start, None, false);
      && first.result.Success? && second.result.Success?
      && var a := second.appointments[|appointments|];
         var b := second.appointments[|appointments| + 1];
         && Occupies(a) && Occupies(b) && a.businessId == b.businessId && a.id != b.id
         && Overlaps(a.start, a.end, b.start, b.end)
  {
  }

  /** Listing and then booking compose: an offered start, booked for the same
      service (duration positive, buffer not negative), yields an appointment
      that overlaps none of the positive-length appointments the listing
      considered. */
  lemma BookingOfferedSlotAvoidsConsidered(
    businesses: seq<Business>, services: seq<Service>, hours: seq<HoursRow>, apts: seq<Appointment>,
    nextId: nat, businessId: Id, serviceId: Id, customerId: Id, day: Day, now: int,
    service: Service, slots: seq<Slot>, x: Slot)
    requires ResolveService(services, serviceId, businessId) == Some(service)
    requires ServicesWithId(services, serviceId) == [service]
    requires service.durationMinutes > 0 && service.bufferMinutes >= 0
    requires AvailableSlots(services, hours, apts, businessId, serviceId, day, now, false, false) == Success(slots)
    requires x in slots
    ensures var out := Book(businesses, services, apts, nextId, businessId, serviceId, customerId, x.start, None, false);
      && out.result.Success?
      && var a := out.appointments[|apts|];
         forall b :: b in DayAppointments(apts, businessId, day) && b.start < b.end ==>
           !Overlaps(a.start, a.end, b.start, b.end)
  {
    OfferedSlotIsFree(services, hours, apts, businessId, serviceId, day, now, service, slots, x);
  }

  // ---------------------------------------------------------------------------
  // The store
  // ---------------------------------------------------------------------------

  /** The tables the core reads and writes; row ids are drawn from `nextId`. */
  class Store {
    var businesses: seq<Business>
    var services: seq<Service>
    var hours: seq<HoursRow>
    var customers: seq<Customer>
    var appointments: seq<Appointment>
    var nextId: nat

    ghost predicate Valid()
      reads this
    {
      IdsBelow(customers, appointments, nextId)
    }

    constructor (businesses: seq<Business>, services: seq<Service>, hours: seq<HoursRow>)
      ensures Valid()
      ensures this.businesses == businesses && this.services == services && this.hours == hours
      ensures customers == [] && appointments == []
    {
      this.businesses, this.services, this.hours := businesses, services, hours;
      customers, appointments, nextId := [], [], 0;
    }

    /** `getAvailableSlots`: resolve the service, pick the weekday's active
        hours, restrict the appointments to the day, and concatenate the
        windows' slots in row order. Reads the store and changes nothing. */
    method GetAvailableSlots(
      businessId: Id, serviceId: Id, day: Day, now: int,
      hoursQueryFails: bool, appointmentsQueryFails: bool)
      returns (r: Result<seq<Slot>, Failure>)
      requires SteppingSpanPositive(services, hours, businessId, serviceId, day, hoursQueryFails, appointmentsQueryFails)
      ensures r == AvailableSlots(services, hours, appointments, businessId, serviceId, day, now,
                                  hoursQueryFails, appointmentsQueryFails)
    {
      var service := ResolveService(services, serviceId, businessId);
      if service.None? {
        return Failure(ServiceNotFound);
      }
      var rows := ActiveHours(hours, businessId, day.weekday);
      if hoursQueryFails || |rows| == 0 {
        return Success([]);
      }
      if appointmentsQueryFails {
        return Failure(FetchAppointmentsFailed);
      }
      var considered := DayAppointments(appointments, businessId, day);
      var totalDuration := TotalDuration(service.value);
      var available := [];
      for i := 0 to |rows|
        invariant available == RowsSlots(day, rows[..i], totalDuration, considered, now)
      {
        var slots := GenerateSlotsForPeriod(day, rows[i].startTime, rows[i].endTime, totalDuration, considered, now);
        assert rows[..i + 1][..i] == rows[..i];
        available := available + slots;
      }
      assert rows[..|rows|] == rows;
      return Success(available);
    }

    /** `findOrCreateCustomer`. */
    method FindOrCreateCustomer(
      businessId: Id, email: string, name: Option<string>, phone: Option<string>, insertFails: bool)
      returns (r: Result<Id, Failure>)
      requires Valid()
      modifies this`customers, this`nextId
      ensures Valid()
      ensures CustomerOutcome(r, customers, nextId)
           == FindOrCreate(old(customers), old(nextId), businessId, email, name, phone, insertFails)
    {
      var existing := CustomersWith(customers, businessId, email);
      if |existing| == 1 {
        return Success(existing[0].id);
      }
      if insertFails {
        return Failure(CreateCustomerFailed);
      }
      var row := Customer(nextId, businessId, Some(email), NewCustomerName(email, name), NewCustomerPhone(phone));
      customers := customers + [row];
      r := Success(nextId);
      nextId := nextId + 1;
    }

    /** `createAppointment`: inserts a `scheduled` row without re-checking availability. */
    method CreateAppointment(
      businessId: Id, serviceId: Id, customerId: Id, start: int, notes: Option<string>, insertFails: bool)
      returns (r: Result<Booked, Failure>)
      requires Valid()
      modifies this`appointments, this`nextId
      ensures Valid()
      ensures BookingOutcome(r, appointments, nextId)
           == Book(businesses, services, old(appointments), old(nextId),
                   businessId, serviceId, customerId, start, notes, insertFails)
    {
      var timezone := BusinessTimezone(businesses, businessId);
      var matching := ServicesWithId(services, serviceId);
      if |matching| != 1 {
        return Failure(ServiceNotFound);
      }
      var end := start + BookedDuration(matching[0]);
      if insertFails {
        return Failure(CreateAppointmentFailed);
      }
      var row := Appointment(nextId, businessId, serviceId, customerId, start, end, Scheduled,
                             NotesOrNull(notes), timezone);
      appointments := appointments + [row];
      r := Success(Booked(nextId, start, end));
      nextId := nextId + 1;
    }
  }
}
