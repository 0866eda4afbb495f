/** Successful rounds of the relay drain the outbox. */
module OutboxDelivery {
  import opened Common
  import opened WalletTypes
  import opened OutboxTable
  import opened OutboxRelay

  // ---- draining ----

  lemma {:induction false} UnpublishedSame(a: seq<OutboxRow>, b: seq<OutboxRow>, from: nat)
    requires |a| == |b| && from <= |a|
    requires forall i | 0 <= i < |a| :: a[i].status.Published? == b[i].status.Published?
    ensures UnpublishedFrom(a, from) == UnpublishedFrom(b, from)
    decreases |a| - from
  {
    if from < |a| {
      UnpublishedSame(a, b, from + 1);
    }
  }

  lemma {:induction false} UnpublishedAfterMark(outbox: seq<OutboxRow>, id: nat, row: OutboxRow, from: nat)
    requires id < |outbox| && from <= |outbox|
    requires !outbox[id].status.Published? && row.status.Published?
    ensures UnpublishedFrom(outbox[id := row], from) == UnpublishedFrom(outbox, from) - if from <= id then 1 else 0
    decreases |outbox| - from
  {
    if from < |outbox| {
      UnpublishedAfterMark(outbox, id, row, from + 1);
    }
  }

  /** When every unpublished row is due, a claim takes as many as it may. */
  lemma {:induction false} ClaimTakesAll(outbox: seq<OutboxRow>, ready: set<nat>, limit: nat, from: nat)
    requires from <= |outbox|
    requires forall i: nat | i < |outbox| :: i in ready && (outbox[i].status.Published? || outbox[i].status.Pending?)
    ensures |Claimable(outbox, ready, limit, from)| == Min(limit, UnpublishedFrom(outbox, from))
    decreases |outbox| - from
  {
    if limit > 0 && from < |outbox| {
      ClaimTakesAll(outbox, ready, if outbox[from].status.Pending? then limit - 1 else limit, from + 1);
    }
  }

  function PartitionFor(m: Message, hashed: int): int {
    if m.partition.Some? then m.partition.value else hashed
  }

  /** The batch of a relay for which every publish succeeds; `hashed` is where unpinned keys go. */
  function Deliver(w: World, r: nat, hashed: int): World
    requires r < |w.relays|
    requires w.relays[r].Publishing? ==> forall k | 0 <= k < |w.relays[r].batch| :: w.relays[r].batch[k] < |w.outbox|
    decreases if w.relays[r].Publishing? then |w.relays[r].batch| else 0
  {
    if !w.relays[r].Publishing? || w.relays[r].batch == [] then w else
      var p := PartitionFor(w.outbox[w.relays[r].batch[0]].message, hashed);
      Deliver(RelayStep(RelayStep(w, Publish(r, p)), RecordPublished(r)), r, hashed)
  }

  predicate IsRow(outbox: seq<OutboxRow>, id: nat) {
    id < |outbox|
  }

  function AllIds(outbox: seq<OutboxRow>): set<nat> {
    set id: nat | id < |outbox| && IsRow(outbox, id)
  }

  /** One iteration of the relay loop when everything is due and every publish succeeds. */
  function Round(w: World, r: nat, limit: nat, hashed: int): World
    requires r < |w.relays|
    requires w.relays[r].Idle?
  {
    var all := AllIds(w.outbox);
    Deliver(RelayStep(RelayStep(w, RequeueStale(r, all)), ClaimDue(r, all, limit)), r, hashed)
  }

  lemma {:induction false} DeliverDrains(w: World, r: nat, hashed: int)
    requires r < |w.relays| && w.relays[r].Publishing? && w.relays[r].batch != []
    requires var batch := w.relays[r].batch;
      && (forall k | 0 <= k < |batch| :: batch[k] < |w.outbox| && !w.outbox[batch[k]].status.Published?)
      && (forall j, k | 0 <= j < k < |batch| :: batch[j] < batch[k])
    ensures var t := Deliver(w, r, hashed);
      && |t.relays| == |w.relays| && t.relays[r].Idle?
      && |t.outbox| == |w.outbox|
      && Unpublished(t.outbox) == Unpublished(w.outbox) - |w.relays[r].batch|
    decreases |w.relays[r].batch|
  {
    var batch := w.relays[r].batch;
    var p := PartitionFor(w.outbox[batch[0]].message, hashed);
    var sent := RelayStep(w, Publish(r, p));
    var next := RelayStep(sent, RecordPublished(r));
    UnpublishedAfterMark(w.outbox, batch[0], next.outbox[batch[0]], 0);
    if |batch| > 1 {
      DeliverDrains(next, r, hashed);
    }
  }

  /** A successful round publishes as many rows as the batch limit allows. */
  lemma RoundDrains(w: World, r: nat, limit: nat, hashed: int)
    requires r < |w.relays| && w.relays[r].Idle?
    ensures var t := Round(w, r, limit, hashed);
      && |t.relays| == |w.relays| && t.relays[r].Idle?
      && |t.outbox| == |w.outbox|
      && Unpublished(t.outbox) == Max(0, Unpublished(w.outbox) - limit)
  {
    var all := AllIds(w.outbox);
    var requeued := RelayStep(w, RequeueStale(r, all));
    UnpublishedSame(w.outbox, requeued.outbox, 0);
    ClaimTakesAll(requeued.outbox, all, limit, 0);
    var ids := Claimable(requeued.outbox, all, limit, 0);
    var claimed := RelayStep(requeued, ClaimDue(r, all, limit));
    if ids != [] {
      UnpublishedSame(requeued.outbox, claimed.outbox, 0);
      DeliverDrains(claimed, r, hashed);
    }
  }

  ghost predicate RoundsTo(w: World, r: nat, limit: nat, hashed: int, rounds: nat, t: World)
    decreases rounds
  {
    r < |w.relays| && w.relays[r].Idle? &&
    if rounds == 0 then t == w else RoundsTo(Round(w, r, limit, hashed), r, limit, hashed, rounds - 1, t)
  }

  lemma {:induction false} AllPublished(outbox: seq<OutboxRow>, from: nat)
    requires from <= |outbox| && UnpublishedFrom(outbox, from) == 0
    ensures forall i | from <= i < |outbox| :: outbox[i].status.Published?
    decreases |outbox| - from
  {
    if from < |outbox| {
      AllPublished(outbox, from + 1);
    }
  }

  /** Enough successful rounds leave no unpublished row, whatever earlier relays left behind. */
  lemma {:induction false} RoundsDrain(w: World, r: nat, limit: nat, hashed: int, rounds: nat, t: World)
    requires RoundsTo(w, r, limit, hashed, rounds, t)
    requires rounds * limit >= Unpublished(w.outbox)
    ensures forall i | 0 <= i < |t.outbox| :: t.outbox[i].status.Published?
    ensures |t.outbox| == |w.outbox|
    decreases rounds
  {
    if rounds == 0 {
      AllPublished(w.outbox, 0);
    } else {
      RoundDrains(w, r, limit, hashed);
      OneRoundLess(rounds, limit, Unpublished(w.outbox));
      RoundsDrain(Round(w, r, limit, hashed), r, limit, hashed, rounds - 1, t);
    }
  }

  lemma OneRoundLess(rounds: nat, limit: nat, left: nat)
    requires rounds > 0 && rounds * limit >= left
    ensures (rounds - 1) * limit >= Max(0, left - limit)
  {
    assert rounds * limit == (rounds - 1) * limit + limit;
  }

  // ---- attempts ----

  /** Whether the step is a claim of row i. */
  predicate ClaimsRow(w: World, a: WorldAction, i: nat) {
    && a.OfRelay? && a.action.ClaimDue? && a.action.relay < |w.relays| && w.relays[a.action.relay].Idle?
    && i < |w.outbox| && i in Claimable(w.outbox, a.action.ready, a.action.limit, 0)
  }

  /** How often a run has claimed row i. */
  function Claims(w: World, actions: seq<WorldAction>, i: nat): nat {
    if actions == [] then 0
    else
      var init := actions[..|actions| - 1];
      Claims(w, init, i) + if ClaimsRow(WorldRun(w, init), actions[|actions| - 1], i) then 1 else 0
  }

  function Attempts(outbox: seq<OutboxRow>, i: nat): nat {
    if i < |outbox| then outbox[i].attempts else 0
  }

  lemma StepAttempts(w: World, a: WorldAction, i: nat)
    ensures Attempts(WorldStep(w, a).outbox, i) == Attempts(w.outbox, i) + if ClaimsRow(w, a, i) then 1 else 0
  {
    if a.OfRelay? && a.action.ClaimDue? && a.action.relay < |w.relays| && w.relays[a.action.relay].Idle? {
      var ids := Claimable(w.outbox, a.action.ready, a.action.limit, 0);
      assert ids == [] ==> i !in ids;
    }
  }

  /** A row's attempts count its claims in the run, each claim once. */
  lemma {:induction false} AttemptsCountClaims(relays: nat, actions: seq<WorldAction>, i: nat)
    ensures Attempts(WorldRun(InitialWorld(relays), actions).outbox, i) == Claims(InitialWorld(relays), actions, i)
  {
    if actions != [] {
      AttemptsCountClaims(relays, actions[..|actions| - 1], i);
      StepAttempts(WorldRun(InitialWorld(relays), actions[..|actions| - 1]), actions[|actions| - 1], i);
    }
  }
}
