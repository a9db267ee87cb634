/** The subscription plan table (lib/stripe/plans.ts). The Stripe price ids,
    read from the environment, and the marketing feature lists are not part of
    this model. */
module Plans {

  datatype PlanType = Starter | Professional | Enterprise

  /** The resources a plan limits. */
  datatype LimitType = Conversations | Faqs | Services

  datatype Limits = Limits(conversations: int, faqs: int, services: int)

  datatype Plan = Plan(name: string, price: int, interval: string, limits: Limits)

  /** A limit of -1 means unlimited. */
  const Unlimited: int := -1

  /** `SUBSCRIPTION_PLANS[planType]`. */
  function SubscriptionPlan(p: PlanType): Plan
  {
    match p
    case Starter => Plan("Starter", 19, "month", Limits(100, 50, 5))
    case Professional => Plan("Professional", 29, "month", Limits(500, 200, 20))
    case Enterprise => Plan("Enterprise", 50, "month", Limits(Unlimited, Unlimited, Unlimited))
  }

  /** `plan.limits[limitType]`. */
  function LimitOf(limits: Limits, t: LimitType): int
  {
    match t
    case Conversations => limits.conversations
    case Faqs => limits.faqs
    case Services => limits.services
  }

  /** The tier order STARTER < PROFESSIONAL < ENTERPRISE. */
  function Rank(p: PlanType): (r: nat)
    ensures r <= 2
  {
    match p
    case Starter => 0
    case Professional => 1
    case Enterprise => 2
  }

  /** The rank orders the tiers without ties. */
  lemma RankIsInjective(p: PlanType, q: PlanType)
    ensures Rank(p) == Rank(q) <==> p == q
  {
  }

  /** Prices strictly increase with the tier: 19, 29, 50 a month. */
  lemma PricesIncrease(p: PlanType, q: PlanType)
    ensures Rank(p) < Rank(q) ==> SubscriptionPlan(p).price < SubscriptionPlan(q).price
    ensures SubscriptionPlan(p).price > 0 && SubscriptionPlan(p).interval == "month"
  {
  }

  /** ENTERPRISE is unlimited in everything; the other plans have finite,
      positive limits, and PROFESSIONAL's are strictly larger than STARTER's. */
  lemma LimitsIncrease(t: LimitType)
    ensures LimitOf(SubscriptionPlan(Enterprise).limits, t) == Unlimited
    ensures 0 < LimitOf(SubscriptionPlan(Starter).limits, t) < LimitOf(SubscriptionPlan(Professional).limits, t)
  {
  }

  /** The plan names are pairwise different. */
  lemma PlanNamesDistinct(p: PlanType, q: PlanType)
    ensures SubscriptionPlan(p).name == SubscriptionPlan(q).name <==> p == q
  {
  }
}
