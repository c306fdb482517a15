/**
 * The pricing section: three plans, a monthly/yearly toggle, the price and
 * period shown for each plan, and the yearly saving.
 */
module Pricing {
  import opened Wrappers

  /** A plan; prices are whole dollars. */
  datatype Plan = Plan(name: string, monthly: nat, yearly: nat, popular: bool)

  const Free: Plan := Plan("Free", 0, 0, false)
  const Pro: Plan := Plan("Pro", 29, 290, true)
  const Enterprise: Plan := Plan("Enterprise", 99, 990, false)

  const Plans: seq<Plan> := [Free, Pro, Enterprise]

  /** The price in large type: the yearly price when yearly billing is on, the monthly one otherwise. */
  function Price(plan: Plan, isYearly: bool): (p: nat)
    ensures isYearly ==> p == plan.yearly
    ensures !isYearly ==> p == plan.monthly
  {
    if isYearly then plan.yearly else plan.monthly
  }

  /** The period after the price, shown for paid plans only. */
  function Suffix(plan: Plan, isYearly: bool): (s: Option<string>)
    ensures s.Some? <==> plan.monthly > 0
    ensures s.Some? ==> s.value == (if isYearly then "/year" else "/month")
  {
    if plan.monthly > 0 then Some(if isYearly then "/year" else "/month") else None
  }

  /** The line `Save $… annually`, shown in yearly mode for paid plans. */
  function Savings(plan: Plan, isYearly: bool): (s: Option<int>)
    ensures s.Some? <==> isYearly && plan.monthly > 0
  {
    if isYearly && plan.monthly > 0 then Some(plan.monthly * 12 - plan.yearly) else None
  }

  /** The saving shown is what twelve monthly payments cost beyond the yearly price. */
  lemma SavingsComplementsPrice(plan: Plan)
    requires plan.monthly > 0
    ensures Price(plan, true) + Savings(plan, true).value == 12 * Price(plan, false)
  {
  }

  /** The free plan costs nothing either way and shows neither period nor saving. */
  lemma FreeCostsNothing(isYearly: bool)
    ensures Price(Free, isYearly) == 0
    ensures Suffix(Free, isYearly).None? && Savings(Free, isYearly).None?
  {
  }

  /** Every paid plan is cheaper yearly: Pro saves $58 and Enterprise $198. */
  lemma YearlyCheaper()
    ensures forall p :: p in Plans && p.monthly > 0 ==> p.yearly < 12 * p.monthly
    ensures Savings(Pro, true) == Some(58)
    ensures Savings(Enterprise, true) == Some(198)
  {
  }

  /**
   * Each yearly price is ten monthly payments, a saving of one sixth (about 17%),
   * short of the 20% the toggle's badge advertises.
   */
  lemma BadgeOverstatesSaving(p: Plan)
    requires p in Plans && p.monthly > 0
    ensures p.yearly == 10 * p.monthly
    ensures 6 * Savings(p, true).value == 12 * p.monthly
    ensures 100 * Savings(p, true).value < 20 * (12 * p.monthly)
  {
  }
}
