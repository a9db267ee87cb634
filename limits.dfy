/** Subscription limit checks and feature gating (lib/subscription/limits.ts).
    The usage count that the source reads from the database is a parameter. */
module SubscriptionLimits {
  import opened Wrappers
  import opened Plans
  import Availability

  /** Without a plan every resource is limited to 10. */
  const FreeTierLimit: int := 10

  /** The outcome of `checkSubscriptionLimit`. */
  datatype LimitCheck = LimitCheck(allowed: bool, current: int, limit: int, message: Option<string>)

  /** The outcome of `canCreateResource`. */
  datatype ResourceCheck = ResourceCheck(allowed: bool, message: Option<string>)

  /** The premium features a plan may unlock. */
  datatype Feature = CalendarSync | CustomBranding | ApiAccess | PrioritySupport | CustomAi

  /** The name of a limit type as it appears in messages. */
  function LimitTypeName(t: LimitType): string
  {
    match t
    case Conversations => "conversations"
    case Faqs => "faqs"
    case Services => "services"
  }

  /** Decimal digits of a natural number. */
  function NatToString(n: nat): (s: string)
    ensures |s| >= 1
    ensures forall i :: 0 <= i < |s| ==> '0' <= s[i] <= '9'
    decreases n
  {
    var d := ['0' + (n % 10) as char];
    if n < 10 then d else NatToString(n / 10) + d
  }

  /** The digits spell `n`: reading them back gives the number itself. */
  lemma {:induction false} NatToStringValue(n: nat)
    ensures Availability.AllDigits(NatToString(n))
    ensures Availability.DigitsValue(NatToString(n)) == n
    decreases n
  {
    var s := NatToString(n);
    if n >= 10 {
      NatToStringValue(n / 10);
      assert s[..|s| - 1] == NatToString(n / 10);
    }
  }

  /** A number in a template literal: its decimal form, with '-' when negative. */
  function IntToString(n: int): string
  {
    if n < 0 then "-" + NatToString(-n) else NatToString(n)
  }

  /** `plan?.limits[limitType] ?? 10`. */
  function LimitFor(plan: Option<PlanType>, t: LimitType): int
  {
    if plan.None? then FreeTierLimit else LimitOf(SubscriptionPlan(plan.value).limits, t)
  }

  /** `getNextPlan`: the plan suggested for an upgrade. */
  function NextPlan(plan: Option<PlanType>): string
  {
    if plan.None? then "Starter"
    else if plan.value == Starter then "Professional"
    else if plan.value == Professional then "Enterprise"
    else "Enterprise"
  }

  /** The suggested plan is a real plan of the table, one tier up, and
      ENTERPRISE (already the top) is pointed at itself. */
  lemma NextPlanIsOneTierUp(plan: Option<PlanType>)
    ensures exists q ::
              && SubscriptionPlan(q).name == NextPlan(plan)
              && (plan.None? ==> Rank(q) == 0)
              && (plan.Some? ==> Rank(q) == if Rank(plan.value) < 2 then Rank(plan.value) + 1 else 2)
  {
    var q := if plan.None? then Starter
             else if plan.value == Starter then Professional else Enterprise;
    assert SubscriptionPlan(q).name == NextPlan(plan);
  }

  function DenialMessage(t: LimitType, limit: int, plan: Option<PlanType>): string
  {
    "You've reached your " + LimitTypeName(t) + " limit (" + IntToString(limit) + "). Upgrade to "
      + NextPlan(plan) + " for more."
  }

  /** The decision part of `checkSubscriptionLimit` for a usage count `current`. */
  function CheckSubscriptionLimit(t: LimitType, plan: Option<PlanType>, current: nat): (r: LimitCheck)
    ensures r.limit == LimitFor(plan, t) && r.current == current
    ensures r.allowed <==> r.limit == Unlimited || current < r.limit
    ensures r.message.None? <==> r.allowed
    ensures !r.allowed ==> r.message == Some(DenialMessage(t, r.limit, plan))
  {
    var limit := LimitFor(plan, t);
    var allowed := limit == Unlimited || current < limit;
    LimitCheck(allowed, current, limit, if allowed then None else Some(DenialMessage(t, limit, plan)))
  }

  /** Using less never turns an allowed request into a denied one. */
  lemma AllowedIsDownwardClosed(t: LimitType, plan: Option<PlanType>, current: nat, smaller: nat)
    requires smaller <= current
    requires CheckSubscriptionLimit(t, plan, current).allowed
    ensures CheckSubscriptionLimit(t, plan, smaller).allowed
  {
  }

  /** Among the paid plans, moving up a tier never takes an allowance away;
      ENTERPRISE allows everything. */
  lemma UpgradeKeepsAllowance(t: LimitType, p: PlanType, q: PlanType, current: nat)
    requires Rank(p) <= Rank(q)
    requires CheckSubscriptionLimit(t, Some(p), current).allowed
    ensures CheckSubscriptionLimit(t, Some(q), current).allowed
    ensures CheckSubscriptionLimit(t, Some(Enterprise), current).allowed
  {
  }

  /** The free tier's flat 10 is not below every paid plan: STARTER allows only
      5 services, so a business with 7 services may create more without a plan
      and is refused on STARTER. */
  lemma FreeTierAllowsMoreServicesThanStarter()
    ensures CheckSubscriptionLimit(Services, None, 7).allowed
    ensures !CheckSubscriptionLimit(Services, Some(Starter), 7).allowed
  {
  }

  /** `hasFeatureAccess`. */
  function HasFeatureAccess(plan: Option<PlanType>, feature: Feature): bool
  {
    if plan.None? then false
    else
      match feature
      case CalendarSync => plan.value == Professional || plan.value == Enterprise
      case CustomBranding => plan.value == Professional || plan.value == Enterprise
      case ApiAccess => plan.value == Enterprise
      case PrioritySupport => plan.value == Professional || plan.value == Enterprise
      case CustomAi => plan.value == Enterprise
  }

  /** The lowest tier that unlocks a feature. */
  function MinimumTier(feature: Feature): PlanType
  {
    match feature
    case ApiAccess => Enterprise
    case CustomAi => Enterprise
    case _ => Professional
  }

  /** Access is exactly "at or above the feature's minimum tier": no plan gets
      nothing, STARTER gets nothing, and access is monotone in the tier order. */
  lemma FeatureAccessByTier(plan: Option<PlanType>, feature: Feature)
    ensures HasFeatureAccess(plan, feature) <==>
      plan.Some? && Rank(plan.value) >= Rank(MinimumTier(feature))
    ensures !HasFeatureAccess(None, feature) && !HasFeatureAccess(Some(Starter), feature)
    ensures HasFeatureAccess(Some(Enterprise), feature)
  {
  }

  /** `getPlanName`: 'Free' without a plan, else the plan's name; no two plans share a name. */
  function GetPlanName(plan: Option<PlanType>): (name: string)
    ensures plan.Some? ==> name == SubscriptionPlan(plan.value).name
  {
    if plan.None? then "Free" else SubscriptionPlan(plan.value).name
  }

  /** Different plans, and no plan, get different names. */
  lemma PlanNameIsInjective(p: Option<PlanType>, q: Option<PlanType>)
    ensures GetPlanName(p) == GetPlanName(q) <==> p == q
  {
  }

  /** `canCreateResource`: the `allowed` and `message` of the limit check. */
  function CanCreateResource(t: LimitType, plan: Option<PlanType>, current: nat): (r: ResourceCheck)
    ensures r.allowed == CheckSubscriptionLimit(t, plan, current).allowed
    ensures r.message == CheckSubscriptionLimit(t, plan, current).message
  {
    var check := CheckSubscriptionLimit(t, plan, current);
    ResourceCheck(check.allowed, check.message)
  }
}
