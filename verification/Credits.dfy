/**
 * The credits ledger (api/routes/credits.py) with the reservations made when a
 * research run is created (api/routes/research_runs.py). Each request is one
 * step here; WebhookDelivery takes the webhook apart.
 */
module Credits {
  import opened Options

  type Positive = n: int | n >= 1 witness 1

  const DEFAULT_USER := "default"
  const DEFAULT_CREDITS := 50

  /** How the HBAR transfer ends; it never affects the credits. */
  datatype Transfer = Sent(txId: string) | TransferFailed(error: string)

  datatype Transaction = Transaction(
    user: string,
    credits: int,
    completed: bool,
    hederaTx: Option<string>,
    hederaError: Option<string>)

  /** The two tables, and the log of sessions for which a transfer was attempted. */
  datatype Ledger = Ledger(
    balances: map<string, int>,
    transactions: map<string, Transaction>,
    transfers: seq<string>)

  const EMPTY := Ledger(map[], map[], [])

  datatype Op =
    | Balance(user: string)
    | Deduct(user: string, amount: Positive)
    | Webhook(session: string, user: string, credits: int, transfer: Transfer)
    | Reserve(budget: Positive)

  function Max0(n: int): nat {
    if n < 0 then 0 else n
  }

  function Completed(user: string, credits: int, transfer: Transfer): Transaction {
    match transfer
    case Sent(txId) => Transaction(user, credits, true, Some(txId), None)
    case TransferFailed(error) => Transaction(user, credits, true, None, Some(error))
  }

  /** The balance a user has, or would be given by `get_balance` and `deduct_credits`. */
  function OpeningBalance(l: Ledger, user: string): int {
    if user in l.balances then l.balances[user] else DEFAULT_CREDITS
  }

  /** The balance a webhook or a reservation starts from: a missing row counts as zero. */
  function BareBalance(l: Ledger, user: string): int {
    if user in l.balances then l.balances[user] else 0
  }

  predicate Accepts(l: Ledger, budget: int) {
    BareBalance(l, DEFAULT_USER) >= budget
  }

  function Step(l: Ledger, op: Op): Ledger {
    match op
    case Balance(user) => l.(balances := l.balances[user := OpeningBalance(l, user)])
    case Deduct(user, amount) => l.(balances := l.balances[user := Max0(OpeningBalance(l, user) - amount)])
    case Webhook(session, user, credits, transfer) =>
      if credits <= 0 || session in l.transactions then l
      else Ledger(l.balances[user := BareBalance(l, user) + credits],
                  l.transactions[session := Completed(user, credits, transfer)],
                  l.transfers + [session])
    case Reserve(budget) =>
      if Accepts(l, budget) then
        l.(balances := l.balances[DEFAULT_USER := BareBalance(l, DEFAULT_USER) - budget])
      else l
  }

  /** The tables as the handlers change them. */
  class CreditTables {
    var balances: map<string, int>
    var transactions: map<string, Transaction>
    ghost var transfers: seq<string>

    ghost function Snapshot(): Ledger
      reads this
    {
      Ledger(balances, transactions, transfers)
    }

    constructor ()
      ensures Snapshot() == EMPTY
    {
      balances, transactions, transfers := map[], map[], [];
    }

    method GetBalance(user: string) returns (balance: int)
      modifies this
      ensures Snapshot() == Step(old(Snapshot()), Balance(user)) && balance == balances[user]
    {
      if user !in balances {
        balances := balances[user := DEFAULT_CREDITS];
      }
      balance := balances[user];
    }

    method DeductCredits(user: string, amount: Positive) returns (balance: int)
      modifies this
      ensures Snapshot() == Step(old(Snapshot()), Deduct(user, amount)) && balance == balances[user]
    {
      if user !in balances {
        balances := balances[user := DEFAULT_CREDITS];
      }
      balances := balances[user := Max0(balances[user] - amount)];
      balance := balances[user];
    }

    method StripeWebhook(session: string, user: string, credits: int, transfer: Transfer)
      modifies this
      ensures Snapshot() == Step(old(Snapshot()), Webhook(session, user, credits, transfer))
    {
      if credits <= 0 {
        return;
      }
      if session in transactions {
        return;
      }
      var row := Transaction(user, credits, false, None, None);
      transactions := transactions[session := row];
      if user !in balances {
        balances := balances[user := credits];
      } else {
        balances := balances[user := balances[user] + credits];
      }
      transfers := transfers + [session];
      match transfer {
        case Sent(txId) =>
          row := row.(hederaTx := Some(txId), completed := true);
        case TransferFailed(error) =>
          row := row.(completed := true, hederaError := Some(error));
      }
      transactions := transactions[session := row];
    }

    /** The reservation of `create_research_run_route`; a refusal is the 402. */
    method ReserveCredits(budget: Positive) returns (accepted: bool)
      modifies this
      ensures Snapshot() == Step(old(Snapshot()), Reserve(budget))
      ensures accepted <==> "default" in old(balances) && old(balances)["default"] >= budget
    {
      var balance := if DEFAULT_USER in balances then balances[DEFAULT_USER] else 0;
      if balance < budget {
        return false;
      }
      // The branch that would add a row cannot be taken: see ReservationNeverCreatesRow.
      assert DEFAULT_USER in balances;
      balances := balances[DEFAULT_USER := balances[DEFAULT_USER] - budget];
      return true;
    }
  }

  // --------------------------------------------------------------- whole runs

  function Run(ops: seq<Op>): Ledger {
    if ops == [] then EMPTY else Step(Run(ops[..|ops| - 1]), ops[|ops| - 1])
  }

  /** The sessions a list of requests pays for, read off the requests alone. */
  function PaidSessions(ops: seq<Op>): set<string> {
    set op | op in ops && op.Webhook? && op.credits > 0 :: op.session
  }

  /** The last request is the first delivery of a paying session. */
  predicate GrantsLast(ops: seq<Op>)
    requires ops != []
  {
    var op := ops[|ops| - 1];
    op.Webhook? && op.credits > 0 && op.session !in PaidSessions(ops[..|ops| - 1])
  }

  /** Credits bought by a user: each paying session once, whatever happens to its replays. */
  function Granted(ops: seq<Op>, user: string): int {
    if ops == [] then 0
    else
      Granted(ops[..|ops| - 1], user)
      + if GrantsLast(ops) && ops[|ops| - 1].user == user then ops[|ops| - 1].credits else 0
  }

  predicate Opens(op: Op, user: string) {
    (op.Balance? || op.Deduct?) && op.user == user
  }

  /** Some request has given the user a row. */
  predicate Touched(ops: seq<Op>, user: string) {
    ops != [] && (Touched(ops[..|ops| - 1], user)
                  || Opens(ops[|ops| - 1], user)
                  || (GrantsLast(ops) && ops[|ops| - 1].user == user))
  }

  /** 50 credits for a user first seen by balance or deduct, none for one first seen by a webhook. */
  function Seed(ops: seq<Op>, user: string): int {
    if ops == [] then 0
    else if Touched(ops[..|ops| - 1], user) then Seed(ops[..|ops| - 1], user)
    else if Opens(ops[|ops| - 1], user) then 50
    else 0
  }

  function Least(a: int, b: int): int {
    if a < b then a else b
  }

  /** What the requests leave a user, read off the requests alone. */
  function Net(ops: seq<Op>, user: string): int
    decreases |ops|, 1
  {
    Seed(ops, user) + Granted(ops, user) - Deducted(ops, user) - Reserved(ops, user)
  }

  /** What the deductions took: at most what was there, which for a new user is the 50 of the opening. */
  function Deducted(ops: seq<Op>, user: string): int
    decreases |ops|, 0
  {
    if ops == [] then 0
    else
      var before, op := ops[..|ops| - 1], ops[|ops| - 1];
      Deducted(before, user)
      + if op.Deduct? && op.user == user then Least(op.amount, if Touched(before, user) then Net(before, user) else 50)
        else 0
  }

  /** What the reservations took, all from one user: each its budget if that much was there. */
  function Reserved(ops: seq<Op>, user: string): int
    decreases |ops|, 0
  {
    if ops == [] then 0
    else
      var before, op := ops[..|ops| - 1], ops[|ops| - 1];
      Reserved(before, user)
      + if op.Reserve? && user == "default" && Net(before, user) >= op.budget then op.budget else 0
  }

  lemma {:induction false} SessionsArePaid(ops: seq<Op>)
    ensures Run(ops).transactions.Keys == PaidSessions(ops)
  {
    if ops != [] {
      var before, op := ops[..|ops| - 1], ops[|ops| - 1];
      SessionsArePaid(before);
      assert ops == before + [op];
      assert PaidSessions(ops) == PaidSessions(before) + if op.Webhook? && op.credits > 0 then {op.session} else {};
    }
  }

  lemma {:induction false} RowsAreTouched(ops: seq<Op>, user: string)
    ensures user in Run(ops).balances <==> Touched(ops, user)
    ensures user in Run(ops).balances ==> Run(ops).balances[user] >= 0
  {
    if ops != [] {
      hide PaidSessions;
      var before := ops[..|ops| - 1];
      SessionsArePaid(before);
      RowsAreTouched(before, user);
      RowsAreTouched(before, DEFAULT_USER);
    }
  }

  lemma RowsAndSessions(ops: seq<Op>, user: string)
    ensures user in Run(ops).balances <==> Touched(ops, user)
    ensures Run(ops).transactions.Keys == PaidSessions(ops)
    ensures user in Run(ops).balances ==> Run(ops).balances[user] >= 0
  {
    SessionsArePaid(ops);
    RowsAreTouched(ops, user);
  }

  /**
   * Conservation over every run: a balance is the user's seed plus what
   * distinct paying sessions granted, less what was deducted and reserved, and
   * it is never negative.
   */
  lemma {:induction false} CreditsAreConserved(ops: seq<Op>, user: string)
    ensures BareBalance(Run(ops), user) ==
      Seed(ops, user) + Granted(ops, user) - Deducted(ops, user) - Reserved(ops, user)
    ensures BareBalance(Run(ops), user) >= 0
    ensures user !in Run(ops).balances ==> BareBalance(Run(ops), user) == 0
    decreases |ops|
  {
    hide PaidSessions;
    RowsAndSessions(ops, user);
    if ops != [] {
      var before := ops[..|ops| - 1];
      CreditsAreConserved(before, user);
      RowsAndSessions(before, user);
      RowsAndSessions(before, DEFAULT_USER);
      if !Touched(before, user) {
        NothingSpentYet(before, user);
      }
    }
  }

  lemma {:induction false} NothingSpentYet(ops: seq<Op>, user: string)
    requires !Touched(ops, user)
    ensures Seed(ops, user) == 0 && Granted(ops, user) == 0 && Deducted(ops, user) == 0 && Reserved(ops, user) == 0
  {
    if ops != [] {
      NothingSpentYet(ops[..|ops| - 1], user);
    }
  }

  /**
   * Over every run: a reservation is accepted if and only if what the requests
   * leave the default user covers its budget, and it then takes exactly that;
   * a refused one changes nothing.
   */
  lemma ReservationTakenExactlyWhen(ops: seq<Op>, budget: Positive)
    ensures var l, l' := Run(ops), Step(Run(ops), Reserve(budget));
      var left := Seed(ops, "default") + Granted(ops, "default") - Deducted(ops, "default") - Reserved(ops, "default");
      && (Accepts(l, budget) <==> left >= budget)
      && (left < budget ==> l' == l)
      && (left >= budget ==>
            && "default" in l.balances && l.balances["default"] == left
            && l' == l.(balances := l.balances["default" := left - budget]))
  {
    CreditsAreConserved(ops, "default");
    RowsAndSessions(ops, "default");
  }

  /** The first delivery of a paying session decides its transaction row for good. */
  function FirstDelivery(ops: seq<Op>, session: string): Option<Op> {
    if ops == [] then None
    else
      var earlier, op := FirstDelivery(ops[..|ops| - 1], session), ops[|ops| - 1];
      if earlier.Some? then earlier
      else if op.Webhook? && op.session == session && op.credits > 0 then Some(op)
      else None
  }

  /** A transaction row names the user and credits of the first delivery, and how its transfer ended. */
  lemma {:induction false} TransactionsAreFirstDeliveries(ops: seq<Op>, session: string)
    ensures var row, first := Run(ops).transactions, FirstDelivery(ops, session);
      && (session in row <==> first.Some?)
      && (first.Some? ==>
            && first.value.Webhook?
            && row[session].user == first.value.user && row[session].credits == first.value.credits
            && row[session].completed
            && (first.value.transfer.Sent? ==>
                  row[session].hederaTx == Some(first.value.transfer.txId) && row[session].hederaError == None)
            && (first.value.transfer.TransferFailed? ==>
                  row[session].hederaTx == None && row[session].hederaError == Some(first.value.transfer.error)))
  {
    if ops != [] {
      TransactionsAreFirstDeliveries(ops[..|ops| - 1], session);
    }
  }

  /** Replaying a processed session changes nothing, whatever the replay claims. */
  lemma ReplaysChangeNothing(ops: seq<Op>, replay: Op)
    requires replay.Webhook? && replay.session in PaidSessions(ops)
    ensures Run(ops + [replay]) == Run(ops)
  {
    RowsAndSessions(ops, DEFAULT_USER);
    assert (ops + [replay])[..|ops|] == ops;
  }

  ghost predicate NoRepeats(s: seq<string>) {
    forall i, j | 0 <= i < j < |s| :: s[i] != s[j]
  }

  /** One transfer is attempted for each granted session, and for no other. */
  lemma {:induction false} OneTransferPerSession(ops: seq<Op>)
    ensures NoRepeats(Run(ops).transfers)
    ensures forall s :: s in Run(ops).transfers <==> s in Run(ops).transactions
    ensures forall s | s in Run(ops).transactions :: Run(ops).transactions[s].completed
  {
    if ops != [] {
      OneTransferPerSession(ops[..|ops| - 1]);
    }
  }

  /** A reservation never creates a row: a user without one cannot meet a positive budget. */
  lemma ReservationNeverCreatesRow(l: Ledger, budget: Positive)
    ensures Step(l, Reserve(budget)).balances.Keys == l.balances.Keys
    ensures Accepts(l, budget) ==> DEFAULT_USER in l.balances
  {
  }

  /**
   * Whether the first request is a purchase decides if the 50 opening credits
   * are ever given: the same two requests in the other order differ by them.
   */
  lemma PurchaseFirstForfeitsSeed(session: string, user: string, credits: Positive, t: Transfer)
    ensures BareBalance(Run([Balance(user), Webhook(session, user, credits, t)]), user) ==
      BareBalance(Run([Webhook(session, user, credits, t), Balance(user)]), user) + 50
  {
    var b, w := Balance(user), Webhook(session, user, credits, t);
    assert [b, w][..1] == [b] && [w, b][..1] == [w];
    assert [b][..0] == [] && [w][..0] == [];
    assert Run([b]) == Step(EMPTY, b) && Run([w]) == Step(EMPTY, w);
  }
}
