/**
 * The outbox relay as a state machine: any number of relay processes over one outbox and
 * one append-only log, each of them able to stop between any two of its steps.
 */
module OutboxRelay {
  import opened Common
  import opened WalletTypes
  import opened OutboxTable

  /** One record of the broker. The outbox_id says where it came from; consumers do not see it. */
  datatype StreamRecord = StreamRecord(topic: Topic, partition: int, outboxId: nat, messageKey: string,
      payload: Payload)

  /** A relay process and the claimed rows it still holds in memory, the current one first. */
  datatype Relay =
    | Down
    | Idle
    | Publishing(batch: seq<nat>)
    | Acknowledged(batch: seq<nat>, position: StreamPosition)
    | Refused(batch: seq<nat>)

  datatype World = World(outbox: seq<OutboxRow>, log: seq<StreamRecord>, relays: seq<Relay>)

  datatype RelayAction =
    | Start(relay: nat)
    | Stop(relay: nat)
    | RequeueStale(relay: nat, stale: set<nat>)
    | ClaimDue(relay: nat, ready: set<nat>, limit: nat)
    | Publish(relay: nat, partition: int)
    // the broker may have appended the record although the relay sees an error
    | PublishFails(relay: nat, appended: Option<int>)
    | RecordPublished(relay: nat)
    | RecordPending(relay: nat)

  // ---- the broker ----

  /** The records of one partition of one topic; an offset is an index into it. */
  function Lane(log: seq<StreamRecord>, topic: Topic, partition: int): seq<StreamRecord> {
    if log == [] then []
    else
      var last := log[|log| - 1];
      Lane(log[..|log| - 1], topic, partition)
      + if last.topic == topic && last.partition == partition then [last] else []
  }

  lemma LaneAppend(log: seq<StreamRecord>, record: StreamRecord, topic: Topic, partition: int)
    ensures Lane(log + [record], topic, partition)
         == Lane(log, topic, partition)
            + if record.topic == topic && record.partition == partition then [record] else []
  {
    assert (log + [record])[..|log + [record]| - 1] == log;
  }

  function RecordFor(outbox: seq<OutboxRow>, id: nat, partition: int): StreamRecord
    requires id < |outbox|
  {
    var m := outbox[id].message;
    StreamRecord(m.topic, partition, id, m.messageKey, m.payload)
  }

  // ---- steps ----

  /** After the current row is marked, the relay turns to the next one, or to its next round. */
  function Advance(batch: seq<nat>): Relay
    requires batch != []
  {
    if |batch| == 1 then Idle else Publishing(batch[1..])
  }

  predicate CanPublish(w: World, relay: nat, partition: Option<int>) {
    && relay < |w.relays|
    && w.relays[relay].Publishing?
    && w.relays[relay].batch != []
    && w.relays[relay].batch[0] < |w.outbox|
    && (partition.Some? && w.outbox[w.relays[relay].batch[0]].message.partition.Some?
        ==> partition == w.outbox[w.relays[relay].batch[0]].message.partition)
  }

  function AppendTo(log: seq<StreamRecord>, record: StreamRecord): (seq<StreamRecord>, StreamPosition) {
    (log + [record], StreamPosition(record.partition, |Lane(log, record.topic, record.partition)|))
  }

  /** One step of one relay; a step that is not enabled leaves the world as it is. */
  function RelayStep(w: World, a: RelayAction): World {
    if a.relay >= |w.relays| then w else
      var r := a.relay;
      match a
      case Start(_) =>
        if w.relays[r].Down? then w.(relays := w.relays[r := Idle]) else w
      case Stop(_) =>
        w.(relays := w.relays[r := Down])
      case RequeueStale(_, stale) =>
        if w.relays[r].Idle? then w.(outbox := Requeue(w.outbox, stale)) else w
      case ClaimDue(_, ready, limit) =>
        if !w.relays[r].Idle? then w else
          var ids := Claimable(w.outbox, ready, limit, 0);
          if ids == [] then w
          else w.(outbox := Claim(w.outbox, ids), relays := w.relays[r := Publishing(ids)])
      case Publish(_, partition) =>
        if !CanPublish(w, r, Some(partition)) then w else
          var batch := w.relays[r].batch;
          var (log, position) := AppendTo(w.log, RecordFor(w.outbox, batch[0], partition));
          w.(log := log, relays := w.relays[r := Acknowledged(batch, position)])
      case PublishFails(_, appended) =>
        if !CanPublish(w, r, appended) then w else
          var batch := w.relays[r].batch;
          var log := if appended.None? then w.log else AppendTo(w.log, RecordFor(w.outbox, batch[0], appended.value)).0;
          w.(log := log, relays := w.relays[r := Refused(batch)])
      case RecordPublished(_) =>
        if w.relays[r].Acknowledged? && w.relays[r].batch != [] then
          World(MarkPublished(w.outbox, w.relays[r].batch[0], w.relays[r].position), w.log,
                w.relays[r := Advance(w.relays[r].batch)])
        else w
      case RecordPending(_) =>
        if w.relays[r].Refused? && w.relays[r].batch != [] then
          World(MarkPending(w.outbox, w.relays[r].batch[0]), w.log, w.relays[r := Advance(w.relays[r].batch)])
        else w
  }

  /** Relay steps interleaved with transactions that add rows. */
  datatype WorldAction = OfRelay(action: RelayAction) | OfWallet(messages: seq<Message>)

  function Enqueued(outbox: seq<OutboxRow>, messages: seq<Message>): seq<OutboxRow> {
    outbox + seq(|messages|, i requires 0 <= i < |messages| => OutboxRow(messages[i], Pending, 0, None))
  }

  function WorldStep(w: World, a: WorldAction): World {
    match a
    case OfRelay(action) => RelayStep(w, action)
    case OfWallet(messages) => w.(outbox := Enqueued(w.outbox, messages))
  }

  function WorldRun(w: World, actions: seq<WorldAction>): World {
    if actions == [] then w
    else WorldStep(WorldRun(w, actions[..|actions| - 1]), actions[|actions| - 1])
  }

  function InitialWorld(relays: nat): World {
    World([], [], seq(relays, i => Down))
  }

  lemma RunSnoc(w: World, actions: seq<WorldAction>, a: WorldAction)
    ensures WorldRun(w, actions + [a]) == WorldStep(WorldRun(w, actions), a)
  {
    assert (actions + [a])[..|actions + [a]| - 1] == actions;
  }

  lemma {:induction false} RunConcat(w: World, first: seq<WorldAction>, second: seq<WorldAction>)
    ensures WorldRun(w, first + second) == WorldRun(WorldRun(w, first), second)
  {
    if second == [] {
      assert first + second == first;
    } else {
      var init := second[..|second| - 1];
      RunConcat(w, first, init);
      var all := first + second;
      assert all[..|all| - 1] == first + init && all[|all| - 1] == second[|second| - 1];
    }
  }

  // ---- counting ----

  function RecordCount(log: seq<StreamRecord>, id: nat): nat {
    if log == [] then 0
    else RecordCount(log[..|log| - 1], id) + if log[|log| - 1].outboxId == id then 1 else 0
  }

  lemma RecordCountAppend(log: seq<StreamRecord>, record: StreamRecord, id: nat)
    ensures RecordCount(log + [record], id) == RecordCount(log, id) + if record.outboxId == id then 1 else 0
  {
    assert (log + [record])[..|log + [record]| - 1] == log;
  }

  function Occurrences(ids: seq<nat>, id: nat): nat {
    if ids == [] then 0 else (if ids[0] == id then 1 else 0) + Occurrences(ids[1..], id)
  }

  lemma {:induction false} IncreasingOnce(ids: seq<nat>, id: nat)
    requires forall j, k | 0 <= j < k < |ids| :: ids[j] < ids[k]
    ensures Occurrences(ids, id) == if id in ids then 1 else 0
  {
    if ids != [] {
      IncreasingOnce(ids[1..], id);
    }
  }

  /** How many publish calls for a row a relay has claimed and not yet made. */
  function Owed(relay: Relay, id: nat): nat {
    match relay
    case Publishing(batch) => Occurrences(batch, id)
    case Acknowledged(batch, _) => if batch == [] then 0 else Occurrences(batch[1..], id)
    case Refused(batch) => if batch == [] then 0 else Occurrences(batch[1..], id)
    case _ => 0
  }

  function OwedByAll(relays: seq<Relay>, id: nat): nat {
    if relays == [] then 0 else Owed(relays[0], id) + OwedByAll(relays[1..], id)
  }

  lemma {:induction false} OwedAfterUpdate(relays: seq<Relay>, r: nat, relay: Relay, id: nat)
    requires r < |relays|
    ensures OwedByAll(relays[r := relay], id) == OwedByAll(relays, id) - Owed(relays[r], id) + Owed(relay, id)
  {
    var updated := relays[r := relay];
    if r == 0 {
      assert updated[1..] == relays[1..];
    } else {
      assert updated[1..] == relays[1..][r - 1 := relay];
      OwedAfterUpdate(relays[1..], r - 1, relay, id);
    }
  }

  // ---- what every step keeps ----

  /** The log holds a record of row `id` at this position. */
  predicate HoldsRow(log: seq<StreamRecord>, topic: Topic, position: StreamPosition, id: nat) {
    var lane := Lane(log, topic, position.partition);
    position.offset < |lane| && lane[position.offset].outboxId == id
  }

  /** A record carries a message: topic, key and payload, and the partition where the message names one. */
  predicate Carries(record: StreamRecord, m: Message) {
    && record.topic == m.topic && record.messageKey == m.messageKey && record.payload == m.payload
    && (m.partition.Some? ==> record.partition == m.partition.value)
  }

  ghost predicate RecordsMatch(w: World) {
    forall k | 0 <= k < |w.log| ::
      w.log[k].outboxId < |w.outbox| && Carries(w.log[k], w.outbox[w.log[k].outboxId].message)
  }

  ghost predicate PositionsHold(w: World) {
    forall i: nat | i < |w.outbox| && w.outbox[i].published.Some? ::
      HoldsRow(w.log, w.outbox[i].message.topic, w.outbox[i].published.value, i)
  }

  ghost predicate PublishedHavePosition(w: World) {
    forall i | 0 <= i < |w.outbox| :: w.outbox[i].status.Published? ==> w.outbox[i].published.Some?
  }

  ghost predicate BatchOk(w: World, relay: Relay) {
    && (relay.Publishing? || relay.Acknowledged? || relay.Refused? ==>
          relay.batch != [] && forall k | 0 <= k < |relay.batch| :: relay.batch[k] < |w.outbox|)
    && (relay.Acknowledged? ==> HoldsRow(w.log, w.outbox[relay.batch[0]].message.topic, relay.position, relay.batch[0]))
  }

  ghost predicate BatchesOk(w: World) {
    forall r | 0 <= r < |w.relays| :: BatchOk(w, w.relays[r])
  }

  ghost predicate AttemptsCover(w: World) {
    forall i: nat | i < |w.outbox| ::
      RecordCount(w.log, i) + OwedByAll(w.relays, i) <= w.outbox[i].attempts
  }

  /** No record or claim mentions a row that is not there yet. */
  ghost predicate NoneAhead(w: World) {
    forall i: nat | i >= |w.outbox| :: RecordCount(w.log, i) == 0 && OwedByAll(w.relays, i) == 0
  }

  ghost predicate WorldOk(w: World) {
    && RecordsMatch(w)
    && PositionsHold(w)
    && PublishedHavePosition(w)
    && BatchesOk(w)
    && AttemptsCover(w)
    && NoneAhead(w)
  }

  // ---- every step keeps it ----

  /** Rows keep their messages, and the log grows by at most one record. */
  ghost predicate Extends(w: World, t: World) {
    && |w.outbox| <= |t.outbox|
    && (forall i | 0 <= i < |w.outbox| :: t.outbox[i].message == w.outbox[i].message)
    && (t.log == w.log || (t.log != [] && t.log[..|t.log| - 1] == w.log))
  }

  lemma HoldsRowKept(w: World, t: World, topic: Topic, position: StreamPosition, id: nat)
    requires Extends(w, t) && HoldsRow(w.log, topic, position, id)
    ensures HoldsRow(t.log, topic, position, id)
  {
    if t.log != w.log {
      assert t.log == w.log + [t.log[|t.log| - 1]];
      LaneAppend(w.log, t.log[|t.log| - 1], topic, position.partition);
    }
  }

  lemma BatchOkKept(w: World, t: World, relay: Relay)
    requires Extends(w, t) && BatchOk(w, relay)
    ensures BatchOk(t, relay)
  {
    if relay.Acknowledged? {
      HoldsRowKept(w, t, w.outbox[relay.batch[0]].message.topic, relay.position, relay.batch[0]);
    }
  }

  /** A step that changes one relay at most keeps the other relays' batches in order. */
  lemma BatchesKept(w: World, t: World, r: nat)
    requires Extends(w, t) && BatchesOk(w) && r < |w.relays|
    requires |t.relays| == |w.relays| && t.relays == w.relays[r := t.relays[r]]
    requires BatchOk(t, t.relays[r])
    ensures BatchesOk(t)
  {
    forall k | 0 <= k < |t.relays| ensures BatchOk(t, t.relays[k]) {
      if k != r {
        BatchOkKept(w, t, w.relays[k]);
      }
    }
  }

  /** Status changes: the log is the same, and a row is given a position only together with PUBLISHED. */
  lemma StatusStepKeepsRows(w: World, t: World)
    requires RecordsMatch(w) && PositionsHold(w) && Extends(w, t) && t.log == w.log
    requires |t.outbox| == |w.outbox|
    requires forall i: nat | i < |w.outbox| && t.outbox[i].published != w.outbox[i].published ::
      t.outbox[i].published.Some? && HoldsRow(t.log, t.outbox[i].message.topic, t.outbox[i].published.value, i)
    ensures RecordsMatch(t) && PositionsHold(t)
  {
    forall i: nat | i < |t.outbox| && t.outbox[i].published.Some?
      ensures HoldsRow(t.log, t.outbox[i].message.topic, t.outbox[i].published.value, i)
    {
      if t.outbox[i].published == w.outbox[i].published {
        assert HoldsRow(w.log, w.outbox[i].message.topic, w.outbox[i].published.value, i);
      }
    }
  }

  /** One relay's debt changes together with the attempts and the log. */
  lemma AttemptsKept(w: World, t: World, r: nat)
    requires AttemptsCover(w) && NoneAhead(w) && r < |w.relays|
    requires |t.outbox| == |w.outbox| && |t.relays| == |w.relays| && t.relays == w.relays[r := t.relays[r]]
    requires forall i: nat ::
      RecordCount(t.log, i) + Owed(t.relays[r], i) + (if i < |w.outbox| then w.outbox[i].attempts else 0)
      <= RecordCount(w.log, i) + Owed(w.relays[r], i) + (if i < |w.outbox| then t.outbox[i].attempts else 0)
    ensures AttemptsCover(t) && NoneAhead(t)
  {
    forall i: nat
      ensures i < |t.outbox| ==> RecordCount(t.log, i) + OwedByAll(t.relays, i) <= t.outbox[i].attempts
      ensures i >= |t.outbox| ==> RecordCount(t.log, i) == 0 && OwedByAll(t.relays, i) == 0
    {
      OwedAfterUpdate(w.relays, r, t.relays[r], i);
    }
  }

  /** A claim owes one publish call for each row, and raises the row's attempts by one. */
  lemma ClaimOwes(w: World, t: World, r: nat, ids: seq<nat>)
    requires r < |w.relays| && r < |t.relays| && w.relays[r].Idle? && t.relays[r] == Publishing(ids) && t.log == w.log
    requires (forall k | 0 <= k < |ids| :: ids[k] < |w.outbox|) && t.outbox == Claim(w.outbox, ids)
    requires forall j, k | 0 <= j < k < |ids| :: ids[j] < ids[k]
    ensures forall i: nat ::
      RecordCount(t.log, i) + Owed(t.relays[r], i) + (if i < |w.outbox| then w.outbox[i].attempts else 0)
      <= RecordCount(w.log, i) + Owed(w.relays[r], i) + (if i < |w.outbox| then t.outbox[i].attempts else 0)
  {
    forall i: nat ensures Owed(t.relays[r], i) == if i in ids then 1 else 0 {
      IncreasingOnce(ids, i);
    }
  }

  lemma ClaimKeeps(w: World, r: nat, ready: set<nat>, limit: nat)
    requires WorldOk(w) && r < |w.relays|
    ensures WorldOk(RelayStep(w, ClaimDue(r, ready, limit)))
  {
    var ids := Claimable(w.outbox, ready, limit, 0);
    if w.relays[r].Idle? && ids != [] {
      var t := RelayStep(w, ClaimDue(r, ready, limit));
      StatusStepKeepsRows(w, t);
      BatchesKept(w, t, r);
      ClaimOwes(w, t, r, ids);
      AttemptsKept(w, t, r);
    }
  }

  lemma RequeueKeeps(w: World, r: nat, stale: set<nat>)
    requires WorldOk(w) && r < |w.relays|
    ensures WorldOk(RelayStep(w, RequeueStale(r, stale)))
  {
    if w.relays[r].Idle? {
      var t := RelayStep(w, RequeueStale(r, stale));
      StatusStepKeepsRows(w, t);
      BatchesKept(w, t, r);
      assert t.relays == w.relays[r := t.relays[r]];
      AttemptsKept(w, t, r);
    }
  }

  /** The record that a publish call appends, whether or not the relay hears of it. */
  lemma AppendKeeps(w: World, r: nat, partition: int, relay: Relay)
    requires WorldOk(w) && CanPublish(w, r, Some(partition))
    requires var batch := w.relays[r].batch;
      relay == Refused(batch)
        || relay == Acknowledged(batch, AppendTo(w.log, RecordFor(w.outbox, batch[0], partition)).1)
    ensures WorldOk(w.(log := AppendTo(w.log, RecordFor(w.outbox, w.relays[r].batch[0], partition)).0,
                       relays := w.relays[r := relay]))
  {
    var id := w.relays[r].batch[0];
    var record := RecordFor(w.outbox, id, partition);
    var t := w.(log := w.log + [record], relays := w.relays[r := relay]);
    LaneAppend(w.log, record, record.topic, partition);
    RowsAfterAppend(w, t, record);
    BatchesKept(w, t, r);
    AppendPays(w.log, record, w.relays[r], relay);
    AttemptsKept(w, t, r);
  }

  /** An appended record is one of the publish calls that its relay owes. */
  lemma AppendPays(log: seq<StreamRecord>, record: StreamRecord, before: Relay, after: Relay)
    requires before.Publishing? && before.batch != [] && before.batch[0] == record.outboxId
    requires (after.Refused? || after.Acknowledged?) && after.batch == before.batch
    ensures forall i: nat ::
      RecordCount(log + [record], i) + Owed(after, i) == RecordCount(log, i) + Owed(before, i)
  {
    forall i: nat ensures RecordCount(log + [record], i) + Owed(after, i) == RecordCount(log, i) + Owed(before, i) {
      RecordCountAppend(log, record, i);
    }
  }

  lemma RowsAfterAppend(w: World, t: World, record: StreamRecord)
    requires RecordsMatch(w) && PositionsHold(w) && PublishedHavePosition(w)
    requires t.outbox == w.outbox && t.log == w.log + [record]
    requires record.outboxId < |w.outbox| && Carries(record, w.outbox[record.outboxId].message)
    ensures Extends(w, t) && RecordsMatch(t) && PositionsHold(t) && PublishedHavePosition(t)
  {
    assert t.log[..|t.log| - 1] == w.log;
    forall i: nat | i < |t.outbox| && t.outbox[i].published.Some?
      ensures HoldsRow(t.log, t.outbox[i].message.topic, t.outbox[i].published.value, i)
    {
      HoldsRowKept(w, t, w.outbox[i].message.topic, w.outbox[i].published.value, i);
    }
  }

  lemma MarkKeeps(w: World, r: nat, outbox: seq<OutboxRow>)
    requires WorldOk(w) && r < |w.relays|
    requires w.relays[r].Acknowledged? || w.relays[r].Refused?
    requires outbox == if w.relays[r].Acknowledged?
      then MarkPublished(w.outbox, w.relays[r].batch[0], w.relays[r].position)
                       else MarkPending(w.outbox, w.relays[r].batch[0])
    ensures WorldOk(World(outbox, w.log, w.relays[r := Advance(w.relays[r].batch)]))
  {
    var t := World(outbox, w.log, w.relays[r := Advance(w.relays[r].batch)]);
    assert BatchOk(w, w.relays[r]);
    StatusStepKeepsRows(w, t);
    BatchesKept(w, t, r);
    AttemptsKept(w, t, r);
  }

  lemma RelayOnlyKeeps(w: World, r: nat, relay: Relay)
    requires WorldOk(w) && r < |w.relays| && BatchOk(w, relay)
    requires forall i: nat :: Owed(relay, i) <= Owed(w.relays[r], i)
    ensures WorldOk(w.(relays := w.relays[r := relay]))
  {
    var t := w.(relays := w.relays[r := relay]);
    BatchesKept(w, t, r);
    AttemptsKept(w, t, r);
  }

  lemma RelayStepKeeps(w: World, a: RelayAction)
    requires WorldOk(w)
    ensures WorldOk(RelayStep(w, a))
  {
    if a.relay < |w.relays| {
      assert BatchOk(w, w.relays[a.relay]);
      match a
      case Start(r) =>
        if w.relays[r].Down? { RelayOnlyKeeps(w, r, Idle); }
      case Stop(r) =>
        RelayOnlyKeeps(w, r, Down);
      case RequeueStale(r, stale) =>
        RequeueKeeps(w, r, stale);
      case ClaimDue(r, ready, limit) =>
        ClaimKeeps(w, r, ready, limit);
      case Publish(r, partition) =>
        if CanPublish(w, r, Some(partition)) {
          AppendKeeps(w, r, partition,
            Acknowledged(w.relays[r].batch, AppendTo(w.log, RecordFor(w.outbox, w.relays[r].batch[0], partition)).1));
        }
      case PublishFails(r, appended) =>
        if CanPublish(w, r, appended) {
          if appended.Some? {
            AppendKeeps(w, r, appended.value, Refused(w.relays[r].batch));
          } else {
            RelayOnlyKeeps(w, r, Refused(w.relays[r].batch));
          }
        }
      case RecordPublished(r) =>
        if w.relays[r].Acknowledged? { MarkKeeps(w, r, RelayStep(w, a).outbox); }
      case RecordPending(r) =>
        if w.relays[r].Refused? { MarkKeeps(w, r, RelayStep(w, a).outbox); }
    }
  }

  lemma EnqueueKeeps(w: World, messages: seq<Message>)
    requires WorldOk(w)
    ensures WorldOk(WorldStep(w, OfWallet(messages)))
  {
    var t := WorldStep(w, OfWallet(messages));
    forall i: nat | i < |t.outbox| && t.outbox[i].published.Some?
      ensures HoldsRow(t.log, t.outbox[i].message.topic, t.outbox[i].published.value, i)
    {
      assert i < |w.outbox|;
      assert HoldsRow(w.log, w.outbox[i].message.topic, w.outbox[i].published.value, i);
    }
    forall r | 0 <= r < |t.relays| ensures BatchOk(t, t.relays[r]) {
      BatchOkKept(w, t, w.relays[r]);
    }
  }

  lemma {:induction false} NobodyOwes(relays: nat, id: nat)
    ensures OwedByAll(seq(relays, i => Down), id) == 0
  {
    if relays > 0 {
      assert seq(relays, i => Down)[1..] == seq(relays - 1, i => Down);
      NobodyOwes(relays - 1, id);
    }
  }

  /**
   * In every reachable world, with any number of relays stopping anywhere: every record of
   * the log is a copy of the row it names, the position noted with a row holds that row,
   * and a row has no more records than attempts.
   */
  lemma {:induction false} EveryWorldIsOk(relays: nat, actions: seq<WorldAction>)
    ensures WorldOk(WorldRun(InitialWorld(relays), actions))
  {
    if actions == [] {
      forall i: nat ensures OwedByAll(InitialWorld(relays).relays, i) == 0 {
        NobodyOwes(relays, i);
      }
    } else {
      EveryWorldIsOk(relays, actions[..|actions| - 1]);
      var w := WorldRun(InitialWorld(relays), actions[..|actions| - 1]);
      match actions[|actions| - 1]
      case OfRelay(a) => RelayStepKeeps(w, a);
      case OfWallet(messages) => EnqueueKeeps(w, messages);
    }
  }

  /** No row is ever lost or rewritten: later worlds contain the messages of earlier ones, in place. */
  lemma {:induction false} RowsStay(w: World, actions: seq<WorldAction>)
    ensures var t := WorldRun(w, actions);
      && |w.outbox| <= |t.outbox|
      && forall i | 0 <= i < |w.outbox| :: t.outbox[i].message == w.outbox[i].message
  {
    if actions != [] {
      RowsStay(w, actions[..|actions| - 1]);
    }
  }
}
