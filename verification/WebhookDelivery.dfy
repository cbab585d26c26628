/**
 * Deliveries of the Stripe webhook that overlap (api/routes/credits.py,
 * stripe_webhook): several server processes look a session up, commit the
 * grant, and transfer, in any interleaving. The database refuses a second row
 * for a session id or for a user id; the new balance is computed from the
 * balance read earlier.
 */
module WebhookDelivery {
  import opened Options

  datatype Grant = Grant(session: string, user: string, credits: int)

  /** Where one delivery stands. */
  datatype Progress =
    | Looked(grant: Grant, seen: Option<int>)
    | Committed(grant: Grant)
    | Finished

  datatype State = State(
    grants: seq<Grant>,
    balances: map<string, int>,
    deliveries: map<nat, Progress>,
    transfers: seq<string>)

  datatype Event =
    | Receive(delivery: nat, grant: Grant)
    | Commit(delivery: nat)
    | TransferHbar(delivery: nat)

  predicate Processed(s: State, session: string) {
    exists i | 0 <= i < |s.grants| :: s.grants[i].session == session
  }

  function Stored(s: State, user: string): Option<int> {
    if user in s.balances then Some(s.balances[user]) else None
  }

  function Amount(seen: Option<int>): int {
    if seen.Some? then seen.value else 0
  }

  /** The unique indexes refuse the commit; the handler rolls back and answers 500. */
  predicate Refused(s: State, g: Grant, seen: Option<int>) {
    Processed(s, g.session) || (seen.None? && g.user in s.balances)
  }

  function Next(s: State, e: Event): State {
    match e
    case Receive(d, g) =>
      if d in s.deliveries then s
      else if g.credits <= 0 || Processed(s, g.session) then s.(deliveries := s.deliveries[d := Finished])
      else s.(deliveries := s.deliveries[d := Looked(g, Stored(s, g.user))])
    case Commit(d) =>
      if d !in s.deliveries || !s.deliveries[d].Looked? then s
      else
        var g, seen := s.deliveries[d].grant, s.deliveries[d].seen;
        if Refused(s, g, seen) then s.(deliveries := s.deliveries[d := Finished])
        else s.(grants := s.grants + [g],
                balances := s.balances[g.user := Amount(seen) + g.credits],
                deliveries := s.deliveries[d := Committed(g)])
    case TransferHbar(d) =>
      if d !in s.deliveries || !s.deliveries[d].Committed? then s
      else s.(transfers := s.transfers + [s.deliveries[d].grant.session],
              deliveries := s.deliveries[d := Finished])
  }

  function Run(start: State, events: seq<Event>): State {
    if events == [] then start else Next(Run(start, events[..|events| - 1]), events[|events| - 1])
  }

  /** A state from before any delivery: an arbitrary table of balances. */
  ghost predicate Initial(s: State) {
    s.grants == [] && s.deliveries == map[] && s.transfers == []
  }

  ghost predicate Inv(s: State) {
    && (forall i, j | 0 <= i < j < |s.grants| :: s.grants[i].session != s.grants[j].session)
    && (forall i, j | 0 <= i < j < |s.transfers| :: s.transfers[i] != s.transfers[j])
    && (forall t | t in s.transfers :: Processed(s, t))
    && (forall d | d in s.deliveries && s.deliveries[d].Committed? ::
          && s.deliveries[d].grant in s.grants
          && s.deliveries[d].grant.session !in s.transfers)
    && (forall d, e | d in s.deliveries && e in s.deliveries && d != e
                      && s.deliveries[d].Committed? && s.deliveries[e].Committed? ::
          s.deliveries[d].grant.session != s.deliveries[e].grant.session)
    && (forall d | d in s.deliveries && s.deliveries[d].Looked? :: s.deliveries[d].grant.credits > 0)
    && (forall g | g in s.grants :: g.credits > 0)
  }

  lemma GrantedIsProcessed(s: State, g: Grant)
    requires g in s.grants
    ensures Processed(s, g.session)
  {
    var i :| 0 <= i < |s.grants| && s.grants[i] == g;
  }

  lemma ProcessedGrows(s: State, s': State, session: string)
    requires s.grants <= s'.grants && Processed(s, session)
    ensures Processed(s', session)
  {
    var i :| 0 <= i < |s.grants| && s.grants[i].session == session;
    assert s'.grants[i] == s.grants[i];
  }

  lemma InvStep(s: State, e: Event)
    requires Inv(s)
    ensures Inv(Next(s, e))
  {
    match e {
      case Receive(_, _) =>
        ReceiveKeepsInv(s, e);
      case Commit(d) =>
        if d in s.deliveries && s.deliveries[d].Looked? {
          if Refused(s, s.deliveries[d].grant, s.deliveries[d].seen) {
            RefusalKeepsInv(s, d);
          } else {
            CommitKeepsInv(s, d);
          }
        }
      case TransferHbar(d) =>
        if d in s.deliveries && s.deliveries[d].Committed? {
          TransferKeepsInv(s, d);
        }
    }
  }

  lemma ReceiveKeepsInv(s: State, e: Event)
    requires Inv(s) && e.Receive?
    ensures Inv(Next(s, e))
  {
  }

  lemma RefusalKeepsInv(s: State, d: nat)
    requires Inv(s) && d in s.deliveries && s.deliveries[d].Looked?
    requires Refused(s, s.deliveries[d].grant, s.deliveries[d].seen)
    ensures Inv(Next(s, Commit(d)))
  {
  }

  lemma TransferKeepsInv(s: State, d: nat)
    requires Inv(s) && d in s.deliveries && s.deliveries[d].Committed?
    ensures Inv(Next(s, TransferHbar(d)))
  {
    GrantedIsProcessed(s, s.deliveries[d].grant);
  }

  lemma CommitKeepsInv(s: State, d: nat)
    requires Inv(s) && d in s.deliveries && s.deliveries[d].Looked?
    requires !Refused(s, s.deliveries[d].grant, s.deliveries[d].seen)
    ensures Inv(Next(s, Commit(d)))
  {
    var s' := Next(s, Commit(d));
    var g := s.deliveries[d].grant;
    forall t | t in s.transfers
      ensures Processed(s', t) && t != g.session
    {
      ProcessedGrows(s, s', t);
    }
    forall e | e in s.deliveries && s.deliveries[e].Committed?
      ensures s.deliveries[e].grant.session != g.session
    {
      GrantedIsProcessed(s, s.deliveries[e].grant);
    }
    forall i | 0 <= i < |s.grants|
      ensures s.grants[i].session != g.session
    {
    }
  }

  lemma {:induction false} InvAlways(start: State, events: seq<Event>)
    requires Initial(start)
    ensures Inv(Run(start, events))
  {
    if events != [] {
      InvAlways(start, events[..|events| - 1]);
      InvStep(Run(start, events[..|events| - 1]), events[|events| - 1]);
    }
  }

  /**
   * However deliveries overlap, a session is granted at most once, its transfer
   * is attempted at most once, and only after the grant is committed.
   */
  lemma AtMostOnce(start: State, events: seq<Event>)
    requires Initial(start)
    ensures
      var s := Run(start, events);
      && (forall i, j | 0 <= i < |s.grants| && 0 <= j < |s.grants| && s.grants[i].session == s.grants[j].session ::
            i == j)
      && (forall i, j | 0 <= i < |s.transfers| && 0 <= j < |s.transfers| && s.transfers[i] == s.transfers[j] :: i == j)
      && (forall t | t in s.transfers :: Processed(s, t))
  {
    InvAlways(start, events);
  }

  /** A commit adds exactly its credits to the balance if and only if the balance has not moved since it was read. */
  lemma CommitConservesExactlyWhen(s: State, d: nat)
    requires d in s.deliveries && s.deliveries[d].Looked?
    requires !Refused(s, s.deliveries[d].grant, s.deliveries[d].seen)
    ensures
      var g, seen := s.deliveries[d].grant, s.deliveries[d].seen;
      Amount(Stored(Next(s, Commit(d)), g.user)) == Amount(Stored(s, g.user)) + g.credits <==>
      Amount(seen) == Amount(Stored(s, g.user))
  {
  }

  function TotalGranted(grants: seq<Grant>, user: string): int {
    if grants == [] then 0
    else TotalGranted(grants[..|grants| - 1], user)
         + if grants[|grants| - 1].user == user then grants[|grants| - 1].credits else 0
  }

  /** The event commits a grant of this user. */
  predicate Accepts(s: State, e: Event, user: string) {
    && e.Commit? && e.delivery in s.deliveries && s.deliveries[e.delivery].Looked?
    && !Refused(s, s.deliveries[e.delivery].grant, s.deliveries[e.delivery].seen)
    && s.deliveries[e.delivery].grant.user == user
  }

  /** The balance the delivery read is the balance it finds. */
  predicate IsCurrent(s: State, e: Event, user: string)
    requires Accepts(s, e, user)
  {
    Amount(s.deliveries[e.delivery].seen) == Amount(Stored(s, user))
  }

  /** Every accepted commit for the user found the balance it had read. */
  ghost predicate CommitsAreCurrent(start: State, events: seq<Event>, user: string) {
    forall i | 0 <= i < |events| && Accepts(Run(start, events[..i]), events[i], user) ::
      IsCurrent(Run(start, events[..i]), events[i], user)
  }

  /** What one event grants a user: the credits of the row it commits, if any. */
  function GrantedBy(s: State, e: Event, user: string): int {
    if Accepts(s, e, user) then s.deliveries[e.delivery].grant.credits else 0
  }

  lemma TotalAppend(grants: seq<Grant>, g: Grant, user: string)
    ensures TotalGranted(grants + [g], user) == TotalGranted(grants, user) + if g.user == user then g.credits else 0
  {
    assert (grants + [g])[..|grants|] == grants;
  }

  lemma StepGrants(s: State, e: Event, user: string)
    ensures TotalGranted(Next(s, e).grants, user) == TotalGranted(s.grants, user) + GrantedBy(s, e, user)
  {
    hide TotalGranted;
    if Next(s, e).grants != s.grants {
      TotalAppend(s.grants, s.deliveries[e.delivery].grant, user);
    }
  }

  /** The balance the user is owed. */
  function Owed(base: int, s: State, user: string): int {
    base + TotalGranted(s.grants, user)
  }

  /**
   * The stored balance is what is owed, or less once a commit was outdated; a
   * waiting delivery has read the stored balance or one that is less than owed.
   */
  ghost predicate Books(base: int, s: State, user: string, intact: bool) {
    && (if intact then Amount(Stored(s, user)) == Owed(base, s, user)
        else Amount(Stored(s, user)) < Owed(base, s, user))
    && forall d | d in s.deliveries && s.deliveries[d].Looked? && s.deliveries[d].grant.user == user ::
         Amount(s.deliveries[d].seen) == Amount(Stored(s, user)) || Amount(s.deliveries[d].seen) < Owed(base, s, user)
  }

  /** A step that grants the user nothing leaves the user's balance alone and can only look at it. */
  lemma OtherStep(s: State, e: Event, user: string)
    requires !Accepts(s, e, user)
    ensures var s' := Next(s, e);
      && Stored(s', user) == Stored(s, user)
      && forall d | d in s'.deliveries && s'.deliveries[d].Looked? && s'.deliveries[d].grant.user == user ::
           (d in s.deliveries && s'.deliveries[d] == s.deliveries[d]) || s'.deliveries[d].seen == Stored(s, user)
  {
  }

  /** An accepted commit stores what it read plus its credits; deliveries that wait go on waiting. */
  lemma AcceptedStep(s: State, e: Event, user: string)
    requires Accepts(s, e, user)
    ensures var s' := Next(s, e);
      && Amount(Stored(s', user)) == Amount(s.deliveries[e.delivery].seen) + s.deliveries[e.delivery].grant.credits
      && forall d | d in s'.deliveries && s'.deliveries[d].Looked? ::
           d in s.deliveries && s'.deliveries[d] == s.deliveries[d]
  {
  }

  lemma BooksUnmoved(base: int, s: State, s': State, user: string, intact: bool)
    requires Books(base, s, user, intact)
    requires Stored(s', user) == Stored(s, user) && Owed(base, s', user) == Owed(base, s, user)
    requires forall d | d in s'.deliveries && s'.deliveries[d].Looked? && s'.deliveries[d].grant.user == user ::
      (d in s.deliveries && s'.deliveries[d] == s.deliveries[d]) || s'.deliveries[d].seen == Stored(s, user)
    ensures Books(base, s', user, intact)
  {
    hide Owed, Stored, Amount;
  }

  lemma BooksMoved(base: int, s: State, s': State, seen: int, credits: int, user: string, intact: bool)
    requires Books(base, s, user, intact) && credits > 0
    requires seen == Amount(Stored(s, user)) || seen < Owed(base, s, user)
    requires Amount(Stored(s', user)) == seen + credits && Owed(base, s', user) == Owed(base, s, user) + credits
    requires forall d | d in s'.deliveries && s'.deliveries[d].Looked? && s'.deliveries[d].grant.user == user ::
      d in s.deliveries && s'.deliveries[d] == s.deliveries[d]
    ensures Books(base, s', user, intact && seen == Amount(Stored(s, user)))
  {
    hide Owed, Stored, Amount;
  }

  lemma BooksStep(base: int, s: State, e: Event, user: string, intact: bool)
    requires Inv(s) && Books(base, s, user, intact)
    ensures Books(base, Next(s, e), user, intact && (Accepts(s, e, user) ==> IsCurrent(s, e, user)))
  {
    StepGrants(s, e, user);
    if Accepts(s, e, user) {
      var d := s.deliveries[e.delivery];
      assert d.grant.credits > 0;
      hide Next, Inv, TotalGranted;
      AcceptedStep(s, e, user);
      BooksMoved(base, s, Next(s, e), Amount(d.seen), d.grant.credits, user, intact);
    } else {
      hide Next, Inv, TotalGranted, Books;
      OtherStep(s, e, user);
      BooksUnmoved(base, s, Next(s, e), user, intact);
    }
  }

  lemma {:induction false} BooksAlways(start: State, events: seq<Event>, user: string)
    requires Initial(start)
    ensures Books(Amount(Stored(start, user)), Run(start, events), user, CommitsAreCurrent(start, events, user))
  {
    if events != [] {
      hide Next, Accepts, IsCurrent, Books;
      var before, last := events[..|events| - 1], events[|events| - 1];
      BooksAlways(start, before, user);
      InvAlways(start, before);
      BooksStep(Amount(Stored(start, user)), Run(start, before), last, user, CommitsAreCurrent(start, before, user));
      LastCommit(start, events, user);
    }
  }

  lemma LastCommit(start: State, events: seq<Event>, user: string)
    requires events != []
    ensures var before, last := events[..|events| - 1], events[|events| - 1];
      CommitsAreCurrent(start, events, user) <==>
      && CommitsAreCurrent(start, before, user)
      && (Accepts(Run(start, before), last, user) ==> IsCurrent(Run(start, before), last, user))
  {
    hide Next, Accepts, IsCurrent;
    var before := events[..|events| - 1];
    assert forall i | 0 <= i < |before| :: events[..i] == before[..i] && events[i] == before[i];
  }

  /**
   * A user ends up with all the credits granted if and only if every accepted
   * commit found the balance it had read, and otherwise with less.
   */
  lemma GrantsConservedExactlyWhen(start: State, events: seq<Event>, user: string)
    requires Initial(start)
    ensures var owed := Amount(Stored(start, user)) + TotalGranted(Run(start, events).grants, user);
      && (Amount(Stored(Run(start, events), user)) == owed <==> CommitsAreCurrent(start, events, user))
      && Amount(Stored(Run(start, events), user)) <= owed
  {
    BooksAlways(start, events, user);
  }

  /**
   * A delivery of a new paying session that nothing overlaps is granted once and
   * transferred once; one that is not paying or already processed does nothing.
   */
  lemma LoneDelivery(s: State, d: nat, g: Grant)
    requires d !in s.deliveries
    ensures var s' := Next(Next(Next(s, Receive(d, g)), Commit(d)), TransferHbar(d));
      if g.credits > 0 && !(exists i | 0 <= i < |s.grants| :: s.grants[i].session == g.session) then
        && s'.grants == s.grants + [g] && s'.transfers == s.transfers + [g.session]
        && s'.balances == s.balances[g.user := g.credits + if g.user in s.balances then s.balances[g.user] else 0]
      else s'.grants == s.grants && s'.transfers == s.transfers && s'.balances == s.balances
  {
    var s1 := Next(s, Receive(d, g));
    if g.credits > 0 && !Processed(s, g.session) {
      assert s1.deliveries[d] == Looked(g, Stored(s, g.user)) && !Processed(s1, g.session);
      assert Next(s1, Commit(d)).deliveries[d] == Committed(g);
    }
  }

  lemma RunFour(start: State, a: Event, b: Event, c: Event, d: Event)
    ensures Run(start, [a, b, c, d]) == Next(Next(Next(Next(start, a), b), c), d)
  {
    assert [a, b, c, d][..3] == [a, b, c] && [a, b, c][..2] == [a, b] && [a, b][..1] == [a] && [a][..0] == [];
    assert Run(start, []) == start;
    assert Run(start, [a]) == Next(start, a);
    assert Run(start, [a, b]) == Next(Next(start, a), b);
    assert Run(start, [a, b, c]) == Next(Next(Next(start, a), b), c);
  }

  /** Two overlapping purchases of one user: the second commit overwrites the first grant. */
  lemma OverlapLosesAGrant(start: State, g1: Grant, g2: Grant)
    requires Initial(start) && g1.user == g2.user && g1.session != g2.session
    requires g1.credits > 0 && g2.credits > 0 && g1.user in start.balances
    ensures
      var s := Run(start, [Receive(1, g1), Receive(2, g2), Commit(1), Commit(2)]);
      && s.grants == [g1, g2]
      && Stored(s, g1.user) == Some(start.balances[g1.user] + g2.credits)
  {
    RunFour(start, Receive(1, g1), Receive(2, g2), Commit(1), Commit(2));
    BothLook(start, g1, g2);
    CommitsLooked(Next(Next(start, Receive(1, g1)), Receive(2, g2)), g1, g2, Some(start.balances[g1.user]));
  }

  /** Both deliveries read the balance before either commits. */
  lemma BothLook(start: State, g1: Grant, g2: Grant)
    requires Initial(start) && g1.user == g2.user && g1.user in start.balances && g1.credits > 0 && g2.credits > 0
    ensures var s := Next(Next(start, Receive(1, g1)), Receive(2, g2)); var seen := Some(start.balances[g1.user]);
      && s.grants == [] && s.balances == start.balances
      && 1 in s.deliveries && s.deliveries[1] == Looked(g1, seen)
      && 2 in s.deliveries && s.deliveries[2] == Looked(g2, seen)
  {
  }

  lemma CommitsLooked(s: State, g1: Grant, g2: Grant, seen: Option<int>)
    requires s.grants == [] && seen.Some? && g1.session != g2.session && g1.user == g2.user
    requires 1 in s.deliveries && s.deliveries[1] == Looked(g1, seen)
    requires 2 in s.deliveries && s.deliveries[2] == Looked(g2, seen)
    ensures var s' := Next(Next(s, Commit(1)), Commit(2));
      s'.grants == [g1, g2] && Stored(s', g1.user) == Some(seen.value + g2.credits)
  {
    var s1 := Next(s, Commit(1));
    assert s1.grants == [g1] && s1.deliveries[2] == Looked(g2, seen);
    assert !Processed(s1, g2.session);
  }
}
