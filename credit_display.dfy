/**
 * The credit dashboard card: a loading skeleton until a balance is known,
 * then the balance figures and up to ten recent transactions.
 */
module CreditDisplay {
  import opened Wrappers
  import opened EnhancedCredits
  import Sequences

  /** One listed transaction: what the row shows. `createdAt` is rendered as a date. */
  datatype Line = Line(
    id: string,
    description: string,
    createdAt: int,
    category: string,
    sign: char,
    amount: int,
    red: bool)

  datatype View =
    | Skeleton
    | Dashboard(
        available: int,
        usedThisMonth: int,
        bonus: int,
        lifetimeUsed: int,
        monthlyLimit: int,
        planType: string,
        resetDate: int,
        recent: Option<seq<Line>>)

  /** Rows listed at most. */
  const ListedRows: nat := 10

  const DefaultCategory: string := "General"

  /** A missing or empty reference type reads `General`. */
  function Category(referenceType: Option<string>): (c: string)
    ensures c != []
    ensures referenceType.Some? && referenceType.value != [] ==> c == referenceType.value
    ensures referenceType.None? || referenceType.value == [] ==> c == DefaultCategory
  {
    match referenceType
    case Some(s) => if s != [] then s else DefaultCategory
    case None => DefaultCategory
  }

  /** The amount as the row shows it: the sign, then the amount. */
  function ShownValue(l: Line): int {
    if l.sign == '-' then -l.amount else l.amount
  }

  function LineOf(t: CreditTransaction): (l: Line)
    ensures l.id == t.id && l.description == t.description && l.createdAt == t.createdAt
    ensures l.amount == t.amount
    ensures l.sign == '-' <==> t.transactionType == Debit
    ensures l.sign == '-' || l.sign == '+'
    ensures l.red <==> l.sign == '-'
    ensures ShownValue(l) == Signed(t)
    ensures l.category == Category(t.referenceType)
  {
    var debit := t.transactionType == Debit;
    Line(t.id, t.description, t.createdAt, Category(t.referenceType),
         if debit then '-' else '+', t.amount, debit)
  }

  function Lines(ts: seq<CreditTransaction>): (ls: seq<Line>)
    ensures |ls| == |ts|
    ensures forall i :: 0 <= i < |ts| ==> ls[i] == LineOf(ts[i])
  {
    if ts == [] then [] else [LineOf(ts[0])] + Lines(ts[1..])
  }

  /** The component's output for the hook's `loading`, `credits` and `transactions`. */
  function Render(loading: bool, credits: Option<UserCredits>, transactions: seq<CreditTransaction>): (v: View)
    ensures v.Skeleton? <==> loading || credits.None?
    ensures v.Dashboard? ==>
      var c := credits.value;
      v.available == Available(c) && v.usedThisMonth == c.creditsUsed && v.bonus == c.bonusCredits
      && v.lifetimeUsed == c.lifetimeCreditsUsed && v.monthlyLimit == c.monthlyLimit
      && v.planType == c.planType && v.resetDate == c.resetDate
    ensures v.Dashboard? ==> (v.recent.Some? <==> |transactions| > 0)
    ensures v.Dashboard? && v.recent.Some? ==>
      |v.recent.value| == (if |transactions| < ListedRows then |transactions| else ListedRows)
      && forall i :: 0 <= i < |v.recent.value| ==> v.recent.value[i] == LineOf(transactions[i])
  {
    if loading || credits.None? then Skeleton
    else
      var c := credits.value;
      Dashboard(c.creditsRemaining + c.bonusCredits, c.creditsUsed, c.bonusCredits,
                c.lifetimeCreditsUsed, c.monthlyLimit, c.planType, c.resetDate,
                if |transactions| > 0 then Some(Lines(Sequences.Take(transactions, ListedRows))) else None)
  }

  /**
   * Fed by the hook's `fetchTransactions`, the card lists the newest rows of the
   * whole ledger: no ledger row left off the card is newer than a listed one.
   */
  lemma ListsNewest(c: UserCredits, ledger: seq<CreditTransaction>, t: CreditTransaction, i: nat)
    requires t in ledger
    requires Render(false, Some(c), RecentTransactions(ledger)).recent.Some?
    requires i < |Render(false, Some(c), RecentTransactions(ledger)).recent.value|
    requires LineOf(t) !in Render(false, Some(c), RecentTransactions(ledger)).recent.value
    ensures Render(false, Some(c), RecentTransactions(ledger)).recent.value[i].createdAt >= t.createdAt
  {
    var r := RecentTransactions(ledger);
    var ls := Render(false, Some(c), r).recent.value;
    assert ls[i] == LineOf(r[i]);
    if t in r {
      var j :| 0 <= j < |r| && r[j] == t;
      if j < |ls| {
        assert ls[j] == LineOf(t);
      }
    }
  }
}
