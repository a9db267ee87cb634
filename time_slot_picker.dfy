/** `groupSlotsByPeriod` of the widget's time-slot picker
    (components/widget/TimeSlotPicker.tsx): the offered slots split into
    morning, afternoon and evening by the local hour of their start.

    Reading that hour (`new Date(start_time).getHours()`) depends on the
    browser's time zone; it is a parameter `hourOf`, which yields `None` where
    JavaScript yields `NaN` for an unparseable time. */
module TimeSlotPicker {
  import opened Wrappers
  import opened Seqs

  datatype TimeSlot = TimeSlot(time: string, startTime: string, endTime: string)

  datatype Period = Morning | Afternoon | Evening

  /** The period of a start hour. `NaN` fails both comparisons, so an
      unreadable start lands in the evening. */
  function PeriodOf(hour: Option<int>): (p: Period)
    ensures p == Morning <==> hour.Some? && hour.value < 12
    ensures p == Afternoon <==> hour.Some? && 12 <= hour.value < 17
    ensures p == Evening <==> hour.None? || hour.value >= 17
  {
    if hour.Some? && hour.value < 12 then Morning
    else if hour.Some? && hour.value < 17 then Afternoon
    else Evening
  }

  /** Whether a slot belongs to period `p`. */
  function InPeriod(hourOf: string -> Option<int>, p: Period): TimeSlot -> bool
  {
    (slot: TimeSlot) => PeriodOf(hourOf(slot.startTime)) == p
  }

  /** The slots of one period, in input order. */
  function Group(slots: seq<TimeSlot>, hourOf: string -> Option<int>, p: Period): (g: seq<TimeSlot>)
    ensures forall i :: 0 <= i < |g| ==> PeriodOf(hourOf(g[i].startTime)) == p
  {
    Filter(slots, InPeriod(hourOf, p))
  }

  /** `groupSlotsByPeriod`: one pass pushing each slot onto its period's list. */
  method GroupSlotsByPeriod(slots: seq<TimeSlot>, hourOf: string -> Option<int>)
    returns (morning: seq<TimeSlot>, afternoon: seq<TimeSlot>, evening: seq<TimeSlot>)
    ensures morning == Group(slots, hourOf, Morning)
    ensures afternoon == Group(slots, hourOf, Afternoon)
    ensures evening == Group(slots, hourOf, Evening)
  {
    morning, afternoon, evening := [], [], [];
    for i := 0 to |slots|
      invariant morning == Group(slots[..i], hourOf, Morning)
      invariant afternoon == Group(slots[..i], hourOf, Afternoon)
      invariant evening == Group(slots[..i], hourOf, Evening)
    {
      assert slots[..i + 1][..i] == slots[..i];
      var hour := hourOf(slots[i].startTime);
      if hour.Some? && hour.value < 12 {
        morning := morning + [slots[i]];
      } else if hour.Some? && hour.value < 17 {
        afternoon := afternoon + [slots[i]];
      } else {
        evening := evening + [slots[i]];
      }
    }
    assert slots[..|slots|] == slots;
  }

  /** Every slot of the input lands in exactly one group: the one of its period. */
  lemma EachSlotInOneGroup(slots: seq<TimeSlot>, hourOf: string -> Option<int>, slot: TimeSlot, p: Period)
    requires slot in slots
    ensures slot in Group(slots, hourOf, p) <==> PeriodOf(hourOf(slot.startTime)) == p
  {
    FilterMembership(slots, InPeriod(hourOf, p), slot);
  }

  /** A group holds nothing that is not in the input. */
  lemma GroupsComeFromInput(slots: seq<TimeSlot>, hourOf: string -> Option<int>, slot: TimeSlot, p: Period)
    requires slot in Group(slots, hourOf, p)
    ensures slot in slots
  {
    FilterMembership(slots, InPeriod(hourOf, p), slot);
  }

  /** The three groups together are the input, counted with multiplicity. */
  lemma {:induction false} GroupsPartition(slots: seq<TimeSlot>, hourOf: string -> Option<int>)
    ensures multiset(Group(slots, hourOf, Morning)) + multiset(Group(slots, hourOf, Afternoon))
            + multiset(Group(slots, hourOf, Evening)) == multiset(slots)
    decreases |slots|
  {
    if slots != [] {
      var init, last := slots[..|slots| - 1], slots[|slots| - 1];
      GroupsPartition(init, hourOf);
      var m, a, e := Group(init, hourOf, Morning), Group(init, hourOf, Afternoon), Group(init, hourOf, Evening);
      assert slots == init + [last];
      match PeriodOf(hourOf(last.startTime))
      case Morning =>
        assert Group(slots, hourOf, Morning) == m + [last];
        assert Group(slots, hourOf, Afternoon) == a && Group(slots, hourOf, Evening) == e;
      case Afternoon =>
        assert Group(slots, hourOf, Afternoon) == a + [last];
        assert Group(slots, hourOf, Morning) == m && Group(slots, hourOf, Evening) == e;
      case Evening =>
        assert Group(slots, hourOf, Evening) == e + [last];
        assert Group(slots, hourOf, Morning) == m && Group(slots, hourOf, Afternoon) == a;
    }
  }

  /** The three group sizes add up to the number of slots. */
  lemma GroupSizesSum(slots: seq<TimeSlot>, hourOf: string -> Option<int>)
    ensures |Group(slots, hourOf, Morning)| + |Group(slots, hourOf, Afternoon)|
            + |Group(slots, hourOf, Evening)| == |slots|
  {
    GroupsPartition(slots, hourOf);
    assert |multiset(slots)| == |slots|;
  }

  /** Slots sorted by a key (their start, say) stay sorted within each group. */
  lemma {:induction false} GroupKeepsOrder(slots: seq<TimeSlot>, hourOf: string -> Option<int>, p: Period, key: TimeSlot -> int)
    requires forall i, j :: 0 <= i < j < |slots| ==> key(slots[i]) <= key(slots[j])
    ensures var g := Group(slots, hourOf, p);
      forall i, j :: 0 <= i < j < |g| ==> key(g[i]) <= key(g[j])
    decreases |slots|
  {
    if slots != [] {
      var init := slots[..|slots| - 1];
      var last := slots[|slots| - 1];
      GroupKeepsOrder(init, hourOf, p, key);
      var g := Group(init, hourOf, p);
      forall x | x in g
        ensures key(x) <= key(last)
      {
        GroupsComeFromInput(init, hourOf, x, p);
        var k :| 0 <= k < |init| && init[k] == x;
        assert slots[k] == x;
      }
    }
  }

  /** A group as the picker shows it. */
  datatype SlotGroup = SlotGroup(period: Period, slots: seq<TimeSlot>)

  /** The groups rendered, in the order morning, afternoon, evening; a group
      with no slots renders nothing. */
  function VisibleGroups(morning: seq<TimeSlot>, afternoon: seq<TimeSlot>, evening: seq<TimeSlot>): (shown: seq<SlotGroup>)
    ensures forall i :: 0 <= i < |shown| ==> |shown[i].slots| > 0
    ensures SlotGroup(Morning, morning) in shown <==> |morning| > 0
    ensures SlotGroup(Afternoon, afternoon) in shown <==> |afternoon| > 0
    ensures SlotGroup(Evening, evening) in shown <==> |evening| > 0
    ensures |shown| <= 3
  {
    (if |morning| > 0 then [SlotGroup(Morning, morning)] else [])
    + (if |afternoon| > 0 then [SlotGroup(Afternoon, afternoon)] else [])
    + (if |evening| > 0 then [SlotGroup(Evening, evening)] else [])
  }
}
