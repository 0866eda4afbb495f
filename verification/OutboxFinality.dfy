/** When exactly a PUBLISHED row stays PUBLISHED, and that one live relay is enough for it. */
module OutboxFinality {
  import opened Common
  import opened WalletTypes
  import opened OutboxTable
  import opened OutboxRelay

  // ---- when exactly PUBLISHED is final ----

  predicate PublishedAt(w: World, i: nat) {
    i < |w.outbox| && w.outbox[i].status.Published?
  }

  /** The pending mark that a relay whose publish call failed is about to put on row i. */
  predicate Undoes(w: World, a: WorldAction, i: nat) {
    a.OfRelay? && a.action.RecordPending? && a.action.relay < |w.relays| &&
    var relay := w.relays[a.action.relay];
    relay.Refused? && relay.batch != [] && relay.batch[0] == i
  }

  /** The published mark of a relay that has row i at another position. */
  predicate Moves(w: World, a: WorldAction, i: nat)
    requires i < |w.outbox|
  {
    a.OfRelay? && a.action.RecordPublished? && a.action.relay < |w.relays| &&
    var relay := w.relays[a.action.relay];
    relay.Acknowledged? && relay.batch != [] && relay.batch[0] == i && w.outbox[i].published != Some(relay.position)
  }

  predicate Changes(w: World, a: WorldAction, i: nat) {
    Undoes(w, a, i) || (i < |w.outbox| && Moves(w, a, i))
  }

  /** Of all steps only a failed publisher's pending mark of the row takes PUBLISHED back. */
  lemma StepUndoesIff(w: World, a: WorldAction, i: nat)
    requires PublishedAt(w, i)
    ensures PublishedAt(WorldStep(w, a), i) <==> !Undoes(w, a, i)
  {
    StepChangesIff(w, a, i);
  }

  /** And only that, or a second publisher's mark with another position, changes a PUBLISHED row. */
  lemma StepChangesIff(w: World, a: WorldAction, i: nat)
    requires PublishedAt(w, i)
    ensures i < |WorldStep(w, a).outbox|
    ensures WorldStep(w, a).outbox[i] == w.outbox[i] <==> !Changes(w, a, i)
    ensures Moves(w, a, i) ==> WorldStep(w, a).outbox[i].status.Published?
  {
  }

  /** Whatever its status, a row's recorded position changes by such a mark alone, and then is that relay's. */
  lemma PositionMovesIff(w: World, a: WorldAction, i: nat)
    requires i < |w.outbox|
    ensures i < |WorldStep(w, a).outbox|
    ensures WorldStep(w, a).outbox[i].published != w.outbox[i].published <==> Moves(w, a, i)
    ensures Moves(w, a, i) ==> WorldStep(w, a).outbox[i].published == Some(w.relays[a.action.relay].position)
  {
  }

  /** No step of the run undoes row i. */
  ghost predicate NeverUndone(w: World, actions: seq<WorldAction>, i: nat) {
    forall n | 0 <= n < |actions| :: !Undoes(WorldRun(w, actions[..n]), actions[n], i)
  }

  ghost predicate NeverChanged(w: World, actions: seq<WorldAction>, i: nat) {
    forall n | 0 <= n < |actions| :: !Changes(WorldRun(w, actions[..n]), actions[n], i)
  }

  lemma NeverUndonePrefix(w: World, actions: seq<WorldAction>, n: nat, i: nat)
    requires NeverUndone(w, actions, i) && n <= |actions|
    ensures NeverUndone(w, actions[..n], i)
  {
    forall k | 0 <= k < n ensures !Undoes(WorldRun(w, actions[..n][..k]), actions[..n][k], i) {
      assert actions[..n][..k] == actions[..k];
    }
  }

  lemma NeverChangedPrefix(w: World, actions: seq<WorldAction>, n: nat, i: nat)
    requires NeverChanged(w, actions, i) && n <= |actions|
    ensures NeverChanged(w, actions[..n], i)
  {
    forall k | 0 <= k < n ensures !Changes(WorldRun(w, actions[..n][..k]), actions[..n][k], i) {
      assert actions[..n][..k] == actions[..k];
    }
  }

  lemma {:induction false} PublishedWhileNotUndone(w: World, actions: seq<WorldAction>, i: nat)
    requires PublishedAt(w, i)
    requires NeverUndone(w, actions, i)
    ensures PublishedAt(WorldRun(w, actions), i)
  {
    if actions != [] {
      var n := |actions| - 1;
      NeverUndonePrefix(w, actions, n, i);
      PublishedWhileNotUndone(w, actions[..n], i);
      StepUndoesIff(WorldRun(w, actions[..n]), actions[n], i);
    }
  }

  lemma {:induction false} RowStaysWhileUnchanged(w: World, actions: seq<WorldAction>, i: nat)
    requires PublishedAt(w, i)
    requires NeverChanged(w, actions, i)
    ensures i < |WorldRun(w, actions).outbox| && WorldRun(w, actions).outbox[i] == w.outbox[i]
  {
    if actions != [] {
      var n := |actions| - 1;
      NeverChangedPrefix(w, actions, n, i);
      RowStaysWhileUnchanged(w, actions[..n], i);
      StepChangesIff(WorldRun(w, actions[..n]), actions[n], i);
    }
  }

  /** A PUBLISHED row is PUBLISHED at every moment of a run exactly if no step of the run undoes it. */
  lemma PublishedThroughoutIff(w: World, actions: seq<WorldAction>, i: nat)
    requires PublishedAt(w, i)
    ensures (forall n | 0 <= n <= |actions| :: PublishedAt(WorldRun(w, actions[..n]), i))
       <==> NeverUndone(w, actions, i)
  {
    if NeverUndone(w, actions, i) {
      forall n | 0 <= n <= |actions| ensures PublishedAt(WorldRun(w, actions[..n]), i) {
        NeverUndonePrefix(w, actions, n, i);
        PublishedWhileNotUndone(w, actions[..n], i);
      }
    } else {
      var n :| 0 <= n < |actions| && Undoes(WorldRun(w, actions[..n]), actions[n], i);
      assert actions[..n + 1][..n] == actions[..n];
      if PublishedAt(WorldRun(w, actions[..n]), i) {
        StepUndoesIff(WorldRun(w, actions[..n]), actions[n], i);
        assert !PublishedAt(WorldRun(w, actions[..n + 1]), i);
      }
    }
  }

  predicate SameRow(w: World, t: World, i: nat)
    requires i < |w.outbox|
  {
    i < |t.outbox| && t.outbox[i] == w.outbox[i]
  }

  /** The same of the whole row, position and attempts included. */
  lemma RowThroughoutIff(w: World, actions: seq<WorldAction>, i: nat)
    requires PublishedAt(w, i)
    ensures (forall n | 0 <= n <= |actions| :: SameRow(w, WorldRun(w, actions[..n]), i))
       <==> NeverChanged(w, actions, i)
  {
    if NeverChanged(w, actions, i) {
      forall n | 0 <= n <= |actions| ensures SameRow(w, WorldRun(w, actions[..n]), i) {
        NeverChangedPrefix(w, actions, n, i);
        RowStaysWhileUnchanged(w, actions[..n], i);
      }
    } else {
      var n :| 0 <= n < |actions| && Changes(WorldRun(w, actions[..n]), actions[n], i);
      assert actions[..n + 1][..n] == actions[..n];
      if SameRow(w, WorldRun(w, actions[..n]), i) {
        StepChangesIff(WorldRun(w, actions[..n]), actions[n], i);
        assert !SameRow(w, WorldRun(w, actions[..n + 1]), i);
      }
    }
  }

  // ---- one live relay ----

  predicate SingleLive(w: World) {
    forall i, j | 0 <= i < j < |w.relays| :: w.relays[i].Down? || w.relays[j].Down?
  }

  predicate Holding(relay: Relay) {
    relay.Publishing? || relay.Acknowledged? || relay.Refused?
  }

  predicate InProcess(outbox: seq<OutboxRow>, batch: seq<nat>) {
    && (forall k | 0 <= k < |batch| :: batch[k] < |outbox| && outbox[batch[k]].status.Processing?)
    && (forall j, k | 0 <= j < k < |batch| :: batch[j] < batch[k])
  }

  /** The rows in a live relay's hands are PROCESSING, and each is there once. */
  ghost predicate HeldAreProcessing(w: World) {
    forall r | 0 <= r < |w.relays| && Holding(w.relays[r]) ::
      InProcess(w.outbox, w.relays[r].batch)
  }

  /** In a single-relay run nobody but the acting relay holds rows. */
  lemma OthersHoldNothing(w: World, r: nat)
    requires SingleLive(w) && r < |w.relays| && !w.relays[r].Down?
    ensures forall k | 0 <= k < |w.relays| && k != r :: w.relays[k].Down?
  {
  }

  /** Marking the first row of a batch leaves the rest of it in process. */
  lemma MarkFirst(outbox: seq<OutboxRow>, batch: seq<nat>, row: OutboxRow)
    requires batch != [] && InProcess(outbox, batch)
    ensures var t := outbox[batch[0] := row];
      InProcess(t, batch[1..])
  {
    assert forall k | 0 <= k < |batch| - 1 :: batch[1..][k] == batch[k + 1] && batch[k + 1] != batch[0];
  }

  lemma SingleLiveMark(w: World, a: RelayAction)
    requires SingleLive(w) && HeldAreProcessing(w) && a.relay < |w.relays|
    requires a.RecordPublished? || a.RecordPending?
    ensures HeldAreProcessing(RelayStep(w, a))
  {
    var relay := w.relays[a.relay];
    if (a.RecordPublished? && relay.Acknowledged?) || (a.RecordPending? && relay.Refused?) {
      OthersHoldNothing(w, a.relay);
      if relay.batch != [] {
        assert InProcess(w.outbox, relay.batch);
        MarkFirst(w.outbox, relay.batch, RelayStep(w, a).outbox[relay.batch[0]]);
      }
    }
  }

  lemma SingleLiveClaim(w: World, r: nat, ready: set<nat>, limit: nat)
    requires SingleLive(w) && HeldAreProcessing(w) && r < |w.relays|
    ensures HeldAreProcessing(RelayStep(w, ClaimDue(r, ready, limit)))
  {
    if w.relays[r].Idle? {
      OthersHoldNothing(w, r);
    }
  }

  lemma SingleLiveStep(w: World, a: WorldAction)
    requires SingleLive(w) && HeldAreProcessing(w)
    ensures HeldAreProcessing(WorldStep(w, a))
  {
    if a.OfRelay? && a.action.relay < |w.relays| {
      match a.action
      case RecordPublished(_) => SingleLiveMark(w, a.action);
      case RecordPending(_) => SingleLiveMark(w, a.action);
      case ClaimDue(r, ready, limit) => SingleLiveClaim(w, r, ready, limit);
      case RequeueStale(r, _) => if w.relays[r].Idle? { OthersHoldNothing(w, r); }
      case _ =>
    }
  }

  /** At every moment of the run at most one relay is up. */
  ghost predicate AlwaysSingle(relays: nat, actions: seq<WorldAction>) {
    forall n | 0 <= n <= |actions| :: SingleLive(WorldRun(InitialWorld(relays), actions[..n]))
  }

  lemma {:induction false} SingleLiveRun(relays: nat, actions: seq<WorldAction>)
    requires AlwaysSingle(relays, actions)
    ensures HeldAreProcessing(WorldRun(InitialWorld(relays), actions))
  {
    if actions != [] {
      var before := actions[..|actions| - 1];
      AlwaysSinglePrefix(relays, actions, |before|);
      SingleLiveRun(relays, before);
      assert actions[..|actions|] == actions;
      SingleLiveStep(WorldRun(InitialWorld(relays), before), actions[|actions| - 1]);
    }
  }

  lemma AlwaysSinglePrefix(relays: nat, actions: seq<WorldAction>, n: nat)
    requires AlwaysSingle(relays, actions) && n <= |actions|
    ensures AlwaysSingle(relays, actions[..n])
    ensures SingleLive(WorldRun(InitialWorld(relays), actions[..n]))
  {
    forall k | 0 <= k <= n ensures SingleLive(WorldRun(InitialWorld(relays), actions[..n][..k])) {
      assert actions[..n][..k] == actions[..k];
    }
  }

  ghost predicate HeldThroughout(w: World, actions: seq<WorldAction>) {
    forall k | 0 <= k < |actions| :: HeldAreProcessing(WorldRun(w, actions[..k]))
  }

  lemma HeldThroughoutPrefix(w: World, actions: seq<WorldAction>, n: nat)
    requires HeldThroughout(w, actions) && n <= |actions|
    ensures HeldThroughout(w, actions[..n])
  {
    forall k | 0 <= k < n ensures HeldAreProcessing(WorldRun(w, actions[..n][..k])) {
      assert actions[..n][..k] == actions[..k];
    }
  }

  lemma HeldIsNotPublished(w: World, a: WorldAction, i: nat)
    requires HeldAreProcessing(w) && PublishedAt(w, i)
    ensures !Changes(w, a, i)
  {
  }

  lemma NeverChangedSnoc(w: World, init: seq<WorldAction>, last: WorldAction, i: nat)
    requires NeverChanged(w, init, i) && !Changes(WorldRun(w, init), last, i)
    ensures NeverChanged(w, init + [last], i)
  {
    var all := init + [last];
    forall k | 0 <= k < |all| ensures !Changes(WorldRun(w, all[..k]), all[k], i) {
      assert all[..k] == if k < |init| then init[..k] else init;
      assert k < |init| ==> all[k] == init[k];
    }
  }

  lemma LastIsUnchanged(w: World, init: seq<WorldAction>, last: WorldAction, i: nat)
    requires PublishedAt(w, i) && NeverChanged(w, init, i) && HeldAreProcessing(WorldRun(w, init))
    ensures !Changes(WorldRun(w, init), last, i)
  {
    RowStaysWhileUnchanged(w, init, i);
    HeldIsNotPublished(WorldRun(w, init), last, i);
  }

  lemma {:induction false} HeldRowsAreNotPublished(w: World, actions: seq<WorldAction>, i: nat)
    requires PublishedAt(w, i) && HeldThroughout(w, actions)
    ensures NeverChanged(w, actions, i)
  {
    if actions != [] {
      var n := |actions| - 1;
      var init, last := actions[..n], actions[n];
      HeldThroughoutPrefix(w, actions, n);
      HeldRowsAreNotPublished(w, init, i);
      assert HeldAreProcessing(WorldRun(w, actions[..n]));
      LastIsUnchanged(w, init, last, i);
      assert actions == init + [last];
      NeverChangedSnoc(w, init, last, i);
    }
  }

  lemma SingleIsHeldThroughout(relays: nat, actions: seq<WorldAction>, n: nat)
    requires AlwaysSingle(relays, actions) && n <= |actions|
    ensures HeldThroughout(WorldRun(InitialWorld(relays), actions[..n]), actions[n..])
  {
    var w, rest := WorldRun(InitialWorld(relays), actions[..n]), actions[n..];
    forall k | 0 <= k < |rest| ensures HeldAreProcessing(WorldRun(w, rest[..k])) {
      SingleIsHeldAt(relays, actions, n, k);
    }
  }

  lemma SingleIsHeldAt(relays: nat, actions: seq<WorldAction>, n: nat, k: nat)
    requires AlwaysSingle(relays, actions) && n + k <= |actions|
    ensures HeldAreProcessing(WorldRun(WorldRun(InitialWorld(relays), actions[..n]), actions[n..][..k]))
  {
    AlwaysSinglePrefix(relays, actions, n + k);
    assert actions[..n + k] == actions[..n] + actions[n..][..k];
    SingleIsHeldAfter(relays, actions[..n], actions[n..][..k]);
  }

  lemma SingleIsHeldAfter(relays: nat, first: seq<WorldAction>, second: seq<WorldAction>)
    requires AlwaysSingle(relays, first + second)
    ensures HeldAreProcessing(WorldRun(WorldRun(InitialWorld(relays), first), second))
  {
    RunConcat(InitialWorld(relays), first, second);
    SingleLiveRun(relays, first + second);
  }

  /** With never more than one live relay, a PUBLISHED row stays exactly as it is for the rest of the run. */
  lemma PublishedIsFinal(relays: nat, actions: seq<WorldAction>, n: nat, i: nat)
    requires AlwaysSingle(relays, actions) && n <= |actions|
    requires PublishedAt(WorldRun(InitialWorld(relays), actions[..n]), i)
    ensures i < |WorldRun(InitialWorld(relays), actions).outbox|
    ensures WorldRun(InitialWorld(relays), actions).outbox[i] == WorldRun(InitialWorld(relays), actions[..n]).outbox[i]
  {
    var w, rest := WorldRun(InitialWorld(relays), actions[..n]), actions[n..];
    SingleIsHeldThroughout(relays, actions, n);
    HeldRowsAreNotPublished(w, rest, i);
    RowStaysWhileUnchanged(w, rest, i);
    RunConcat(InitialWorld(relays), actions[..n], rest);
    assert actions[..n] + rest == actions;
  }

  // ---- two live relays ----

  /** A run of steps whose intermediate worlds are known. */
  lemma {:induction false} RunThrough(steps: seq<WorldAction>, worlds: seq<World>)
    requires |worlds| == |steps| + 1
    requires forall k | 0 <= k < |steps| :: WorldStep(worlds[k], steps[k]) == worlds[k + 1]
    ensures WorldRun(worlds[0], steps) == worlds[|steps|]
  {
    if steps != [] {
      RunThrough(steps[..|steps| - 1], worlds[..|steps|]);
    }
  }

  /** A row that has been claimed `attempts` times. */
  function Tried(m: Message, attempts: nat, status: OutboxStatus, position: Option<StreamPosition>): OutboxRow {
    OutboxRow(m, status, attempts, position)
  }

  /** Both relays claim the only row: the second one after requeueing it as stale. */
  lemma BothClaim(m: Message) returns (steps: seq<WorldAction>)
    ensures WorldRun(InitialWorld(2), steps)
      == World([Tried(m, 2, Processing, None)], [], [Publishing([0]), Publishing([0])])
  {
    steps := [OfWallet([m]), OfRelay(Start(0)), OfRelay(Start(1)), OfRelay(ClaimDue(0, {0}, 1)),
      OfRelay(RequeueStale(1, {0})), OfRelay(ClaimDue(1, {0}, 1))];
    var worlds := [InitialWorld(2),
      World([Tried(m, 0, Pending, None)], [], [Down, Down]),
      World([Tried(m, 0, Pending, None)], [], [Idle, Down]),
      World([Tried(m, 0, Pending, None)], [], [Idle, Idle]),
      World([Tried(m, 1, Processing, None)], [], [Publishing([0]), Idle]),
      World([Tried(m, 1, Pending, None)], [], [Publishing([0]), Idle]),
      World([Tried(m, 2, Processing, None)], [], [Publishing([0]), Publishing([0])])];
    assert WorldStep(worlds[0], steps[0]) == worlds[1];
    ClaimsTheOnlyRow(m, 0, Idle, 0);
    ClaimsTheOnlyRow(m, 1, Publishing([0]), 1);
    RunThrough(steps, worlds);
  }

  lemma ClaimsTheOnlyRow(m: Message, attempts: nat, other: Relay, r: nat)
    requires r < 2
    ensures var relays := if r == 0 then [Idle, Idle] else [other, Idle];
      RelayStep(World([Tried(m, attempts, Pending, None)], [], relays), ClaimDue(r, {0}, 1))
      == World([Tried(m, attempts + 1, Processing, None)], [], relays[r := Publishing([0])])
  {
    var outbox := [Tried(m, attempts, Pending, None)];
    assert Claimable(outbox, {0}, 1, 0) == [0];
    assert Claim(outbox, [0]) == [Tried(m, attempts + 1, Processing, None)];
  }

  /** Two live relays are enough to take a PUBLISHED row back: the pending mark looks at no status. */
  lemma SecondRelayUndoesPublished(m: Message) returns (actions: seq<WorldAction>, last: WorldAction)
    requires m.partition.None?
    ensures var w := WorldRun(InitialWorld(2), actions);
      && |w.outbox| == 1
      && w.outbox[0].status.Published?
      && WorldRun(InitialWorld(2), actions + [last]).outbox[0].status.Pending?
  {
    var steps := BothClaim(m);
    var w := WorldRun(InitialWorld(2), steps);
    var failed := OfRelay(PublishFails(0, None));
    var sent := OfRelay(Publish(1, 0));
    var marked := OfRelay(RecordPublished(1));
    RunSnoc(InitialWorld(2), steps, failed);
    RunSnoc(InitialWorld(2), steps + [failed], sent);
    RunSnoc(InitialWorld(2), steps + [failed] + [sent], marked);
    var w1 := WorldStep(w, failed);
    assert w1.relays == [Refused([0]), Publishing([0])];
    var w2 := WorldStep(w1, sent);
    assert w2.relays[0] == Refused([0]) && w2.relays[1].Acknowledged? && w2.relays[1].batch == [0];
    actions, last := steps + [failed] + [sent] + [marked], OfRelay(RecordPending(0));
    RunSnoc(InitialWorld(2), actions, last);
  }
}
