/** One iteration of the relay's loop, and why the state machine of OutboxRelay covers it. */
module RelayLoop {
  import opened Common
  import opened WalletTypes
  import opened OutboxTable
  import opened OutboxRelay
  import opened OutboxDelivery
  import W = WalletRepository

  /** How one publish call ends; `hashed` is the partition an unpinned key goes to. */
  datatype Outcome = Delivered(hashed: int) | PublishError(appended: Option<int>)

  /** The row `id` after its publish call and mark. */
  function DeliverOne(outbox: seq<OutboxRow>, log: seq<StreamRecord>, id: nat, outcome: Outcome)
    : (seq<OutboxRow>, seq<StreamRecord>)
    requires id < |outbox|
  {
    match outcome
    case Delivered(hashed) =>
      var (after, position) := AppendTo(log, RecordFor(outbox, id, PartitionFor(outbox[id].message, hashed)));
      (MarkPublished(outbox, id, position), after)
    case PublishError(None) =>
      (MarkPending(outbox, id), log)
    case PublishError(Some(hashed)) =>
      (MarkPending(outbox, id), AppendTo(log, RecordFor(outbox, id, PartitionFor(outbox[id].message, hashed))).0)
  }

  function DeliverAll(outbox: seq<OutboxRow>, log: seq<StreamRecord>, ids: seq<nat>, outcomes: seq<Outcome>)
    : (seq<OutboxRow>, seq<StreamRecord>)
    requires forall k | 0 <= k < |ids| :: ids[k] < |outbox|
    requires |ids| <= |outcomes|
    decreases |ids|
  {
    if ids == [] then (outbox, log) else
      var (nextOutbox, nextLog) := DeliverOne(outbox, log, ids[0], outcomes[0]);
      DeliverAll(nextOutbox, nextLog, ids[1..], outcomes[1..])
  }

  /** What one iteration leaves: stale rows requeued, due rows claimed, and the claimed ones delivered in order. */
  function Iteration(outbox: seq<OutboxRow>, log: seq<StreamRecord>, stale: set<nat>, ready: set<nat>, limit: nat,
      outcomes: seq<Outcome>)
    : (seq<OutboxRow>, seq<StreamRecord>)
    requires limit <= |outcomes|
  {
    var requeued := Requeue(outbox, stale);
    var ids := Claimable(requeued, ready, limit, 0);
    DeliverAll(Claim(requeued, ids), log, ids, outcomes)
  }

  class RelayProcess {
    const repository: W.Repository
    var log: seq<StreamRecord>

    constructor (repository: W.Repository)
      ensures this.repository == repository && log == []
    {
      this.repository, log := repository, [];
    }

    /** One produce call: the record goes to the end of its partition. */
    method Produce(record: StreamRecord) returns (position: StreamPosition)
      modifies this`log
      ensures (log, position) == AppendTo(old(log), record)
    {
      position := StreamPosition(record.partition, |Lane(log, record.topic, record.partition)|);
      log := log + [record];
    }

    method RunOnce(stale: set<nat>, ready: set<nat>, limit: nat, outcomes: seq<Outcome>)
      requires limit <= |outcomes|
      modifies this`log, repository`outbox
      ensures (repository.outbox, log) == Iteration(old(repository.outbox), old(log), stale, ready, limit, outcomes)
    {
      repository.RequeueStaleOutboxMessages(stale);
      var ids := repository.ClaimOutboxMessages(limit, ready);
      var i := 0;
      while i < |ids|
        invariant 0 <= i <= |ids| <= limit
        invariant forall k | 0 <= k < |ids| :: ids[k] < |repository.outbox|
        invariant DeliverAll(repository.outbox, log, ids[i..], outcomes[i..])
               == Iteration(old(repository.outbox), old(log), stale, ready, limit, outcomes)
      {
        var id := ids[i];
        var message := repository.outbox[id].message;
        assert ids[i..][0] == id && ids[i..][1..] == ids[i + 1..];
        assert outcomes[i..][0] == outcomes[i] && outcomes[i..][1..] == outcomes[i + 1..];
        match outcomes[i] {
          case Delivered(hashed) =>
            var position := Produce(StreamRecord(message.topic, PartitionFor(message, hashed), id, message.messageKey,
              message.payload));
            repository.MarkOutboxPublished(id, position);
          case PublishError(None) =>
            repository.MarkOutboxPending(id);
          case PublishError(Some(hashed)) =>
            var position := Produce(StreamRecord(message.topic, PartitionFor(message, hashed), id, message.messageKey,
              message.payload));
            repository.MarkOutboxPending(id);
        }
        i := i + 1;
      }
    }
  }

  // ---- an iteration is a run of the state machine ----

  /** The two steps of the state machine that deliver the current row. */
  function DeliverySteps(w: World, r: nat, outcome: Outcome): seq<WorldAction>
    requires r < |w.relays| && w.relays[r].Publishing? && w.relays[r].batch != [] && w.relays[r].batch[0] < |w.outbox|
  {
    var m := w.outbox[w.relays[r].batch[0]].message;
    match outcome
    case Delivered(hashed) => [OfRelay(Publish(r, PartitionFor(m, hashed))), OfRelay(RecordPublished(r))]
    case PublishError(None) => [OfRelay(PublishFails(r, None)), OfRelay(RecordPending(r))]
    case PublishError(Some(hashed)) => [OfRelay(PublishFails(r, Some(PartitionFor(m, hashed)))),
      OfRelay(RecordPending(r))]
  }

  predicate AtFirst(w: World, r: nat) {
    r < |w.relays| && w.relays[r].Publishing? && w.relays[r].batch != [] && w.relays[r].batch[0] < |w.outbox|
  }

  lemma OneSuccess(w: World, r: nat, hashed: int)
    requires AtFirst(w, r)
    ensures var batch := w.relays[r].batch;
      var (outbox, log) := DeliverOne(w.outbox, w.log, batch[0], Delivered(hashed));
      WorldRun(w, DeliverySteps(w, r, Delivered(hashed))) == World(outbox, log, w.relays[r := Advance(batch)])
  {
    var batch, m := w.relays[r].batch, w.outbox[w.relays[r].batch[0]].message;
    var publish, record := OfRelay(Publish(r, PartitionFor(m, hashed))), OfRelay(RecordPublished(r));
    RunOfTwo(w, publish, record);
    assert WorldStep(w, publish).relays[r := Advance(batch)] == w.relays[r := Advance(batch)];
  }

  lemma OneFailure(w: World, r: nat, hashed: Option<int>)
    requires AtFirst(w, r)
    ensures var batch := w.relays[r].batch;
      var (outbox, log) := DeliverOne(w.outbox, w.log, batch[0], PublishError(hashed));
      WorldRun(w, DeliverySteps(w, r, PublishError(hashed))) == World(outbox, log, w.relays[r := Advance(batch)])
  {
    var batch, m := w.relays[r].batch, w.outbox[w.relays[r].batch[0]].message;
    var fail := OfRelay(PublishFails(r, if hashed.Some? then Some(PartitionFor(m, hashed.value)) else None));
    RunOfTwo(w, fail, OfRelay(RecordPending(r)));
    assert WorldStep(w, fail).relays[r := Advance(batch)] == w.relays[r := Advance(batch)];
  }

  lemma OneDelivery(w: World, r: nat, outcome: Outcome)
    requires AtFirst(w, r)
    ensures var batch := w.relays[r].batch;
      var (outbox, log) := DeliverOne(w.outbox, w.log, batch[0], outcome);
      WorldRun(w, DeliverySteps(w, r, outcome)) == World(outbox, log, w.relays[r := Advance(batch)])
  {
    match outcome
    case Delivered(hashed) => OneSuccess(w, r, hashed);
    case PublishError(hashed) => OneFailure(w, r, hashed);
  }

  lemma RunOfTwo(w: World, first: WorldAction, second: WorldAction)
    ensures WorldRun(w, [first, second]) == WorldStep(WorldStep(w, first), second)
  {
    RunSnoc(w, [], first);
    RunSnoc(w, [first], second);
    assert [] + [first] == [first] && [first] + [second] == [first, second];
  }

  lemma {:induction false} DeliveriesAreARun(w: World, r: nat, outcomes: seq<Outcome>) returns (steps: seq<WorldAction>)
    requires r < |w.relays| && w.relays[r].Publishing? && w.relays[r].batch != []
    requires forall k | 0 <= k < |w.relays[r].batch| :: w.relays[r].batch[k] < |w.outbox|
    requires |w.relays[r].batch| <= |outcomes|
    ensures var (outbox, log) := DeliverAll(w.outbox, w.log, w.relays[r].batch, outcomes);
      WorldRun(w, steps) == World(outbox, log, w.relays[r := Idle])
    decreases |w.relays[r].batch|
  {
    var batch := w.relays[r].batch;
    OneDelivery(w, r, outcomes[0]);
    steps := DeliverySteps(w, r, outcomes[0]);
    if |batch| > 1 {
      var next := WorldRun(w, steps);
      assert next.relays[r := Idle] == w.relays[r := Idle];
      var rest := DeliveriesAreARun(next, r, outcomes[1..]);
      RunConcat(w, steps, rest);
      steps := steps + rest;
    }
  }

  /** Hence every property of the runs holds after any number of iterations. */
  lemma IterationIsARun(w: World, r: nat, stale: set<nat>, ready: set<nat>, limit: nat, outcomes: seq<Outcome>)
    returns (steps: seq<WorldAction>)
    requires r < |w.relays| && w.relays[r].Idle? && limit <= |outcomes|
    ensures var (outbox, log) := Iteration(w.outbox, w.log, stale, ready, limit, outcomes);
      WorldRun(w, steps) == World(outbox, log, w.relays)
  {
    var requeue, claim := OfRelay(RequeueStale(r, stale)), OfRelay(ClaimDue(r, ready, limit));
    RunSnoc(w, [], requeue);
    RunSnoc(w, [] + [requeue], claim);
    steps := [] + [requeue] + [claim];
    var requeued := Requeue(w.outbox, stale);
    var ids := Claimable(requeued, ready, limit, 0);
    var claimed := WorldRun(w, steps);
    if ids == [] {
      assert Claim(requeued, ids) == requeued;
    } else {
      var rest := DeliveriesAreARun(claimed, r, outcomes);
      RunConcat(w, steps, rest);
      assert claimed.relays[r := Idle] == w.relays;
      steps := steps + rest;
    }
  }
}
