/**
 * The credit balance hook: the signed-in user's `user_credits` row, the newest
 * fifty rows of `credit_transactions`, and the two operations that change them
 * (`deductCredits` through the `deduct_credits_v2` procedure, `addCredits` by
 * an insert followed by an update).
 */
module EnhancedCredits {
  import opened Wrappers
  import opened Backend
  import Sequences

  datatype TransactionType = Debit | Credit | Refund | Bonus

  /** The types `addCredits` accepts. */
  type CreditType = t: TransactionType | !t.Debit? witness Credit

  /** One row of `credit_transactions`; `createdAt` is the timestamp in milliseconds. */
  datatype CreditTransaction = CreditTransaction(
    id: string,
    userId: string,
    transactionType: TransactionType,
    amount: int,
    description: string,
    referenceId: Option<string>,
    referenceType: Option<string>,
    createdAt: int)

  /** The user's `user_credits` row; dates are timestamps in milliseconds. */
  datatype UserCredits = UserCredits(
    id: string,
    userId: string,
    creditsRemaining: int,
    creditsUsed: int,
    planType: string,
    monthlyLimit: int,
    resetDate: int,
    bonusCredits: int,
    lifetimeCreditsUsed: int,
    createdAt: int,
    updatedAt: int)

  /** The credits the user can spend: plan credits plus bonus credits. */
  function Available(c: UserCredits): int {
    c.creditsRemaining + c.bonusCredits
  }

  // ---------------------------------------------------------------- reading the ledger

  /** `fetchTransactions` asks for at most this many rows. */
  const TransactionLimit: nat := 50

  function CreatedAt(t: CreditTransaction): int {
    t.createdAt
  }

  /**
   * The rows `order('created_at', { ascending: false }).limit(50)` returns:
   * the fifty newest, newest first, and every row when there are fewer.
   */
  function RecentTransactions(ledger: seq<CreditTransaction>): (r: seq<CreditTransaction>)
    ensures |r| == if |ledger| < TransactionLimit then |ledger| else TransactionLimit
    ensures forall i, j :: 0 <= i < j < |r| ==> r[i].createdAt >= r[j].createdAt
    ensures forall t :: t in r ==> t in ledger
    ensures multiset(r) <= multiset(ledger)
    ensures |ledger| <= TransactionLimit ==> multiset(r) == multiset(ledger)
    ensures forall t, i :: t in ledger && t !in r && 0 <= i < |r| ==> r[i].createdAt >= t.createdAt
  {
    var sorted := Sequences.SortDesc(ledger, CreatedAt);
    var r := Sequences.Take(sorted, TransactionLimit);
    KeptFromLedger(ledger, sorted, r);
    KeptAreNewest(ledger, sorted, r);
    PrefixSubMultiset(sorted, r);
    r
  }

  lemma PrefixSubMultiset(sorted: seq<CreditTransaction>, r: seq<CreditTransaction>)
    requires r <= sorted
    ensures multiset(r) <= multiset(sorted)
  {
    assert sorted == r + sorted[|r|..];
  }

  lemma KeptFromLedger(ledger: seq<CreditTransaction>, sorted: seq<CreditTransaction>, r: seq<CreditTransaction>)
    requires multiset(sorted) == multiset(ledger) && r <= sorted
    ensures forall t :: t in r ==> t in ledger
  {
    forall t | t in r ensures t in ledger {
      assert t in multiset(sorted);
    }
  }

  lemma KeptAreNewest(ledger: seq<CreditTransaction>, sorted: seq<CreditTransaction>, r: seq<CreditTransaction>)
    requires multiset(sorted) == multiset(ledger) && r <= sorted
    requires Sequences.SortedDesc(sorted, CreatedAt)
    ensures forall t, i :: t in ledger && t !in r && 0 <= i < |r| ==> r[i].createdAt >= t.createdAt
  {
    forall t, i | t in ledger && t !in r && 0 <= i < |r| ensures r[i].createdAt >= t.createdAt {
      assert t in multiset(sorted);
      var j :| 0 <= j < |sorted| && sorted[j] == t;
      assert j >= |r|;
      assert r[i] == sorted[i];
    }
  }

  // ---------------------------------------------------------------- crediting

  /**
   * The row after `addCredits`' update: `amount` is added to `bonus_credits`
   * for a bonus and to `credits_remaining` otherwise, and `updated_at` is set.
   */
  function ApplyCredit(row: UserCredits, kind: CreditType, amount: int, now: int): (r: UserCredits)
    ensures kind == Bonus ==>
      r.bonusCredits == row.bonusCredits + amount && r.creditsRemaining == row.creditsRemaining
    ensures kind != Bonus ==>
      r.creditsRemaining == row.creditsRemaining + amount && r.bonusCredits == row.bonusCredits
    ensures r.updatedAt == now
    ensures r.creditsUsed == row.creditsUsed && r.lifetimeCreditsUsed == row.lifetimeCreditsUsed
    ensures r.monthlyLimit == row.monthlyLimit && r.resetDate == row.resetDate
    ensures r.(creditsRemaining := row.creditsRemaining, bonusCredits := row.bonusCredits, updatedAt := row.updatedAt) == row
  {
    if kind == Bonus then row.(bonusCredits := row.bonusCredits + amount, updatedAt := now)
    else row.(creditsRemaining := row.creditsRemaining + amount, updatedAt := now)
  }

  /** Crediting raises the spendable balance by exactly the amount, whatever the type. */
  lemma ApplyCreditAvailable(row: UserCredits, kind: CreditType, amount: int, now: int)
    ensures Available(ApplyCredit(row, kind, amount, now)) == Available(row) + amount
  {
  }

  /** A transaction's effect on the balance as the ledger records it: debits subtract. */
  function Signed(t: CreditTransaction): int {
    if t.transactionType == Debit then -t.amount else t.amount
  }

  /** The net of a ledger: credits, refunds and bonuses minus debits. */
  function Net(ledger: seq<CreditTransaction>): int {
    if ledger == [] then 0 else Net(ledger[..|ledger| - 1]) + Signed(ledger[|ledger| - 1])
  }

  lemma NetAppend(ledger: seq<CreditTransaction>, t: CreditTransaction)
    ensures Net(ledger + [t]) == Net(ledger) + Signed(t)
  {
    assert (ledger + [t])[..|ledger|] == ledger;
  }

  /**
   * When both of `addCredits`' writes take effect, the balance and the ledger
   * move together: spendable credits minus the ledger's net stay the same.
   */
  lemma CreditKeepsReconciled(row: UserCredits, ledger: seq<CreditTransaction>,
                              tx: CreditTransaction, kind: CreditType, now: int)
    requires tx.transactionType == kind
    ensures Available(ApplyCredit(row, kind, tx.amount, now)) - Net(ledger + [tx])
         == Available(row) - Net(ledger)
  {
    NetAppend(ledger, tx);
  }

  /**
   * When only the insert lands, as happens in `addCredits` as written, the
   * ledger runs ahead of the balance: spendable credits minus the ledger's
   * net fall by the amount.
   */
  lemma {:induction false} InsertOnlyDrifts(row: UserCredits, ledger: seq<CreditTransaction>,
                                            tx: CreditTransaction, kind: CreditType)
    requires tx.transactionType == kind
    ensures Available(row) - Net(ledger + [tx]) == Available(row) - Net(ledger) - tx.amount
  {
    NetAppend(ledger, tx);
  }

  // ---------------------------------------------------------------- the backend

  /** The signed-in user's rows in `user_credits` and `credit_transactions`. */
  class CreditStore {
    /** The single `user_credits` row `.single()` finds, if there is exactly one. */
    var row: Option<UserCredits>
    /** The user's `credit_transactions` rows, in insertion order. */
    var ledger: seq<CreditTransaction>

    constructor (row: Option<UserCredits>, ledger: seq<CreditTransaction>)
      ensures this.row == row && this.ledger == ledger
    {
      this.row := row;
      this.ledger := ledger;
    }
  }

  /** What `deduct_credits_v2` answered, and the tables as it left them (its body is not part of this model). */
  datatype RpcReply = RpcError | RpcReturned(result: bool)

  datatype Procedure = Procedure(
    reply: RpcReply,
    rowAfter: Option<UserCredits>,
    ledgerAfter: seq<CreditTransaction>)

  /** How the two reads of a refetch ended. */
  datatype Refetch = Refetch(creditsRead: Reply, transactionsRead: Reply)

  // ---------------------------------------------------------------- the hook

  class CreditsHook {
    const store: CreditStore
    var credits: Option<UserCredits>
    var transactions: seq<CreditTransaction>
    var loading: bool

    constructor (store: CreditStore)
      ensures this.store == store
      ensures credits == None && transactions == [] && !loading
    {
      this.store := store;
      credits := None;
      transactions := [];
      loading := false;
    }

    /** The value `credits` takes after a `fetchCredits` whose read ended as `read`. */
    function CreditsAfterRead(read: Reply): Option<UserCredits>
      reads this, store
    {
      if read == Applied && store.row.Some? then store.row else credits
    }

    /** The value `transactions` takes after a `fetchTransactions` whose read ended as `read`. */
    function TransactionsAfterRead(read: Reply): seq<CreditTransaction>
      reads this, store
    {
      match read
      case Applied => RecentTransactions(store.ledger)
      case Rejected => []
      case Raised => transactions
    }

    /**
     * `fetchCredits`: `credits` is replaced only when a row comes back; a
     * missing row or a failure keeps the old value; `loading` ends false.
     */
    method FetchCredits(read: Reply)
      modifies this`credits, this`loading
      ensures credits == old(CreditsAfterRead(read))
      ensures read != Applied ==> credits == old(credits)
      ensures !loading
    {
      loading := true;
      if read == Applied && store.row.Some? {
        credits := store.row;
      }
      loading := false;
    }

    /**
     * `fetchTransactions`: the newest fifty rows, `[]` when the client returns
     * no data, and the old list when the call throws.
     */
    method FetchTransactions(read: Reply)
      modifies this`transactions
      ensures transactions == old(TransactionsAfterRead(read))
      ensures |transactions| <= TransactionLimit || transactions == old(transactions)
    {
      match read {
        case Applied => transactions := RecentTransactions(store.ledger);
        case Rejected => transactions := [];
        case Raised =>
      }
    }

    /** `refetch()`, and the effect that runs on mount: both reads, credits first. */
    method Refresh(r: Refetch)
      modifies this`credits, this`transactions, this`loading
      ensures credits == old(CreditsAfterRead(r.creditsRead))
      ensures transactions == old(TransactionsAfterRead(r.transactionsRead))
      ensures !loading
    {
      FetchCredits(r.creditsRead);
      FetchTransactions(r.transactionsRead);
    }

    /**
     * `deductCredits`: the procedure decides; the hook reports success exactly
     * when it answered `true` without error, and only then reads back the
     * balance and the ledger. The amount, description and reference go to the
     * procedure only.
     */
    method DeductCredits(amount: int, description: string, referenceId: Option<string>,
                         referenceType: Option<string>, procedure: Procedure, refetch: Refetch)
      returns (ok: bool)
      modifies this, store
      ensures store.row == procedure.rowAfter && store.ledger == procedure.ledgerAfter
      ensures ok <==> procedure.reply == RpcReturned(true)
      ensures ok ==> credits == (if refetch.creditsRead == Applied && procedure.rowAfter.Some?
                                 then procedure.rowAfter else old(credits))
      ensures ok ==> transactions == match refetch.transactionsRead
                                     case Applied => RecentTransactions(procedure.ledgerAfter)
                                     case Rejected => []
                                     case Raised => old(transactions)
      ensures ok ==> !loading
      ensures !ok ==>
        credits == old(credits) && transactions == old(transactions) && loading == old(loading)
    {
      store.row := procedure.rowAfter;
      store.ledger := procedure.ledgerAfter;
      match procedure.reply {
        case RpcError =>
          ok := false;
        case RpcReturned(result) =>
          if result {
            Refresh(refetch);
            ok := true;
          } else {
            ok := false;
          }
      }
    }

    /**
     * `addCredits(amount, description, type = 'credit')`. The transaction is
     * inserted first; the balance update then adds `amount` to the field the
     * type selects, on the row whose `user_id` is `userId`. Errors the client
     * returns are not checked, so a rejected insert does not stop the update;
     * an exception stops everything after it. When both writes went through,
     * both are read back.
     */
    method AddCredits(amount: int, description: string, userId: string, txId: string, now: int,
                      insert: Reply, update: Reply, refetch: Refetch, kind: CreditType := Credit)
      modifies this, store
      ensures store.ledger == if insert == Applied then old(store.ledger) + [CreditTransaction(
                txId, userId, kind, amount, description, None, None, now)] else old(store.ledger)
      ensures store.row == if insert != Raised && update == Applied && old(store.row).Some?
                              && old(store.row).value.userId == userId
                           then Some(ApplyCredit(old(store.row).value, kind, amount, now))
                           else old(store.row)
      ensures insert != Raised && update != Raised ==>
                credits == (if refetch.creditsRead == Applied && store.row.Some? then store.row else old(credits))
                && transactions == (match refetch.transactionsRead
                                    case Applied => RecentTransactions(store.ledger)
                                    case Rejected => []
                                    case Raised => old(transactions))
                && !loading
      ensures insert == Raised || update == Raised ==>
                credits == old(credits) && transactions == old(transactions) && loading == old(loading)
    {
      if insert == Raised {
        return;
      }
      if insert == Applied {
        store.ledger := store.ledger + [CreditTransaction(txId, userId, kind, amount, description, None, None, now)];
      }
      if update == Raised {
        return;
      }
      if update == Applied && store.row.Some? && store.row.value.userId == userId {
        store.row := Some(ApplyCredit(store.row.value, kind, amount, now));
      }
      Refresh(refetch);
    }

    /**
     * `addCredits` as the source has it: the client has no `sql` member, so
     * building the update object throws before the update is sent. Only the
     * insert can land; the balance never changes and nothing is read back.
     */
    method AddCreditsAsWritten(amount: int, description: string, userId: string, txId: string, now: int,
                               insert: Reply, kind: CreditType := Credit)
      modifies this, store
      ensures store.ledger == if insert == Applied then old(store.ledger) + [CreditTransaction(
                txId, userId, kind, amount, description, None, None, now)] else old(store.ledger)
      ensures store.row == old(store.row)
      ensures credits == old(credits) && transactions == old(transactions) && loading == old(loading)
    {
      AddCredits(amount, description, userId, txId, now, insert, Raised, Refetch(Raised, Raised), kind);
    }
  }
}
