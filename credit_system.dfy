/**
 * The static credit card: available, used and total credits, the low-credit
 * warning, and the guide of what each action costs.
 */
module CreditSystem {
  import Decimal
  import UsageCalculator

  const UserCredits: nat := 150
  const TotalCredits: nat := 1000

  /** The fill of the progress bar, a JavaScript division. */
  function Percentage(available: nat, total: nat): real
    requires total > 0
  {
    (available as real / total as real) * 100.0
  }

  /** The warning under the bar: less than a fifth of the credits left. */
  predicate LowCredits(available: nat, total: nat)
    requires total > 0
  {
    Percentage(available, total) < 20.0
  }

  /** Scaling both sides by a positive factor keeps a strict comparison. */
  lemma ScaleLess(x: real, y: real, t: real)
    requires t > 0.0
    ensures x < y <==> x * t < y * t
  {
    if x < y {
      assert (y - x) * t > 0.0;
    } else {
      assert (x - y) * t >= 0.0;
    }
  }

  /** The warning compared in whole numbers: it shows exactly when five times the available credits fall short of the total. */
  lemma LowCreditsIff(available: nat, total: nat)
    requires total > 0
    ensures LowCredits(available, total) <==> 5 * available < total
  {
    var a := available as real;
    var t := total as real;
    var q := a / t;
    assert q * t == a;
    assert LowCredits(available, total) <==> q < 0.2;
    ScaleLess(q, 0.2, t);
    assert q < 0.2 <==> a < 0.2 * t;
  }

  /** The three figures the card shows. */
  datatype Summary = Summary(available: int, used: int, total: int, warning: bool)

  function Summarize(available: nat, total: nat): (s: Summary)
    requires total > 0
    ensures s.available + s.used == s.total == total
    ensures s.warning <==> 5 * available < total
  {
    LowCreditsIff(available, total);
    Summary(available, total - available, total, LowCredits(available, total))
  }

  /** With 150 of 1000 credits left, 850 show as used and the warning is on. */
  lemma InitialSummary()
    ensures Summarize(UserCredits, TotalCredits) == Summary(150, 850, 1000, true)
  {
    LowCreditsIff(UserCredits, TotalCredits);
  }

  // ---------------------------------------------------------------- the usage guide

  datatype ActionCost = ActionCost(action: string, cost: nat)

  const CreditCosts: seq<ActionCost> := [
    ActionCost("Basic Image Generation", 1),
    ActionCost("HD Image Generation", 2),
    ActionCost("4K Image Generation", 5),
    ActionCost("Style Transfer", 3),
    ActionCost("Image Upscaling", 2),
    ActionCost("Batch Generation (10 images)", 8)
  ]

  /** The badge of a guide entry: the cost, then `Credit` for exactly one and `Credits` otherwise. */
  function CostLabel(cost: nat): (badge: string)
    ensures badge == Decimal.Show(cost) + " Credit" || badge == Decimal.Show(cost) + " Credits"
    ensures badge[|badge| - 1] == 's' <==> cost != 1
  {
    Decimal.Show(cost) + " " + (if cost == 1 then "Credit" else "Credits")
  }

  /** The guide quotes the same prices the usage calculator charges. */
  lemma GuideAgreesWithCalculator()
    ensures CreditCosts[0].cost == UsageCalculator.BasicCost
    ensures CreditCosts[1].cost == UsageCalculator.HdCost
    ensures CreditCosts[2].cost == UsageCalculator.UltraHdCost
    ensures CreditCosts[5].cost == UsageCalculator.BatchCost
  {
  }

  /** Only the basic generation reads in the singular. */
  lemma OnlyBasicIsSingular(i: nat)
    requires i < |CreditCosts|
    ensures CostLabel(CreditCosts[i].cost)[|CostLabel(CreditCosts[i].cost)| - 1] != 's' <==> i == 0
  {
  }
}
