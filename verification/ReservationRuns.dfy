/** What reservations and locked funds amount to over a whole run of the wallet. */
module ReservationRuns {
  import opened WalletTypes
  import opened LedgerProcessor
  import opened WalletInvariant
  import opened WalletRuns

  /** What a committed transaction takes off a reservation. */
  function Consumes(s: WalletState, a: WalletAction, id: string): int {
    if Attempt(s, a).Err? then 0 else
      match a
      case DoRelease(r) => if r.reservationId == id then r.amount else 0
      case DoSettle(t) => if t.reservationId == id then t.debitAmount else 0
      case _ => 0
  }

  /** What all the releases and settlements of a run have taken off a reservation. */
  function Consumed(actions: seq<WalletAction>, id: string): int {
    if actions == [] then 0
    else
      var init := actions[..|actions| - 1];
      Consumed(init, id) + Consumes(Run(EMPTY_WALLET, init), actions[|actions| - 1], id)
  }

  /** What an account delta locks besides any reservation. */
  function Pledges(s: WalletState, a: WalletAction, account: Account): int {
    if a.DoAccountDelta? && Effect(s, a).Some? && Account(a.delta.user, a.delta.asset) == account
    then a.delta.lockedDelta else 0
  }

  function Pledged(actions: seq<WalletAction>, account: Account): int {
    if actions == [] then 0
    else
      var init := actions[..|actions| - 1];
      Pledged(init, account) + Pledges(Run(EMPTY_WALLET, init), actions[|actions| - 1], account)
  }

  function Gone(s: WalletState, id: string): int {
    if id in s.reservations then s.reservations[id].amount - s.reservations[id].remaining else 0
  }

  lemma StepConsumes(s: WalletState, a: WalletAction, id: string)
    ensures Gone(Next(s, a), id) == Gone(s, id) + Consumes(s, a, id)
  {
  }

  /** In every run what is gone of a reservation is what committed releases and settlements have taken, to the unit. */
  lemma {:induction false} EveryReservationIsAccounted(actions: seq<WalletAction>, id: string)
    ensures Gone(Run(EMPTY_WALLET, actions), id) == Consumed(actions, id)
  {
    if actions != [] {
      EveryReservationIsAccounted(actions[..|actions| - 1], id);
      StepConsumes(Run(EMPTY_WALLET, actions[..|actions| - 1]), actions[|actions| - 1], id);
    }
  }

  /** A step ends a reservation exactly if it takes all that remains, and the status says which kind of step it was. */
  lemma StepEndsIff(s: WalletState, a: WalletAction, id: string)
    requires id in s.reservations && ReservationOk(s.reservations[id])
    ensures id in Next(s, a).reservations
    ensures var was, now := s.reservations[id].status, Next(s, a).reservations[id].status;
      && (now != was <==> was.Active? && Consumes(s, a, id) == s.reservations[id].remaining)
      && (now != was ==> now == if a.DoRelease? then Released else Settled)
  {
  }

  lemma LockedMoves(s: WalletState, a: WalletAction, account: Account)
    requires Valid(s)
    ensures BalanceOf(Next(s, a), account, Locked) == BalanceOf(s, account, Locked)
      + if Effect(s, a).Some? then Announced(Effect(s, a).value.payload.event, account, Locked) else 0
  {
    StepFacts(s, a);
    assert Effect(s, a).None? ==> BalanceOf(Next(s, a), account, Locked) == BalanceOf(s, account, Locked);
  }

  lemma NoReservationMoves(s: WalletState, a: WalletAction)
    requires !a.DoReserve? && !a.DoRelease? && !a.DoSettle?
    ensures Next(s, a).reservations == s.reservations
  {
  }

  /** A transaction that touches neither reservations nor, but for a delta, locked funds. */
  lemma NothingClaimed(s: WalletState, a: WalletAction, account: Account)
    requires !a.DoReserve? && !a.DoRelease? && !a.DoSettle?
    ensures Pledges(s, a, account)
      == if Effect(s, a).Some? then Announced(Effect(s, a).value.payload.event, account, Locked) else 0
  {
  }

  function Id(a: WalletAction): string {
    match a
    case DoReserve(_, id) => id
    case DoRelease(r) => r.reservationId
    case DoSettle(t) => t.reservationId
    case _ => ""
  }

  /** A reservation, release or settlement announces what it moves the claim by. */
  lemma OneClaim(s: WalletState, a: WalletAction, account: Account)
    requires ReservationsOk(s.reservations) && Attempt(s, a).Ok? && (a.DoReserve? || a.DoRelease? || a.DoSettle?)
    ensures Id(a) in Next(s, a).reservations && Effect(s, a).Some?
    ensures var r := Next(s, a).reservations[Id(a)];
      && Next(s, a).reservations == s.reservations[Id(a) := r]
      && Announced(Effect(s, a).value.payload.event, account, Locked)
         == Claim(account)(Id(a), r)
            - (if Id(a) in s.reservations then Claim(account)(Id(a), s.reservations[Id(a)]) else 0)
  {
  }

  lemma StepLocks(s: WalletState, a: WalletAction, account: Account)
    requires Valid(s)
    ensures BalanceOf(Next(s, a), account, Locked) - BalanceOf(s, account, Locked)
         == ActiveClaims(Next(s, a).reservations, account) - ActiveClaims(s.reservations, account)
            + Pledges(s, a, account)
  {
    LockedMoves(s, a, account);
    if Attempt(s, a).Ok? && (a.DoReserve? || a.DoRelease? || a.DoSettle?) {
      OneClaim(s, a, account);
      ClaimsAfterPut(s.reservations, Id(a), Next(s, a).reservations[Id(a)], account);
    } else if Attempt(s, a).Ok? {
      NoReservationMoves(s, a);
      NothingClaimed(s, a, account);
    }
  }

  /**
   * In every run an account's locked funds are exactly what remains of its active reservations
   * and what account deltas have locked: nothing stays locked that nobody holds.
   */
  lemma {:induction false} LockedIsWhatIsHeld(actions: seq<WalletAction>, account: Account)
    ensures BalanceOf(Run(EMPTY_WALLET, actions), account, Locked)
         == ActiveClaims(Run(EMPTY_WALLET, actions).reservations, account) + Pledged(actions, account)
  {
    if actions != [] {
      var init := actions[..|actions| - 1];
      LockedIsWhatIsHeld(init, account);
      EveryRunIsValid(init);
      StepLocks(Run(EMPTY_WALLET, init), actions[|actions| - 1], account);
    }
  }
}
