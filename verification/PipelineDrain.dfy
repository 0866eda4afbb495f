/** Every reachable state of the pipeline has a continuation in which it is drained. */
module PipelineDrain {
  import opened WalletTypes
  import opened WalletInvariant
  import opened OutboxTable
  import opened OutboxRelay
  import opened OutboxDelivery
  import opened LedgerJournal
  import opened Pipeline

  function Resume(s: System, actions: seq<Action>): System
    decreases |actions|
  {
    if actions == [] then s else Resume(Step(s, actions[0]), actions[1..])
  }

  lemma {:induction false} ResumeConcat(s: System, first: seq<Action>, second: seq<Action>)
    ensures Resume(s, first + second) == Resume(Resume(s, first), second)
    decreases |first|
  {
    if first == [] {
      assert first + second == second;
    } else {
      assert (first + second)[1..] == first[1..] + second;
      ResumeConcat(Step(s, first[0]), first[1..], second);
    }
  }

  lemma {:induction false} ReachResumes(relays: nat, actions: seq<Action>, more: seq<Action>)
    ensures Reach(relays, actions + more) == Resume(Reach(relays, actions), more)
    decreases |more|
  {
    if more == [] {
      assert actions + more == actions;
    } else {
      var next := actions + [more[0]];
      assert next[..|actions|] == actions;
      assert next + more[1..] == actions + more;
      ReachResumes(relays, next, more[1..]);
    }
  }

  // ---- the relay publishes everything ----

  function RelayRun(w: World, steps: seq<RelayAction>): World
    decreases |steps|
  {
    if steps == [] then w else RelayRun(RelayStep(w, steps[0]), steps[1..])
  }

  function OnRelays(steps: seq<RelayAction>): seq<Action> {
    seq(|steps|, i requires 0 <= i < |steps| => OnRelay(steps[i]))
  }

  lemma {:induction false} RelayRunInSystem(s: System, steps: seq<RelayAction>)
    ensures var w, t := RelayRun(WorldOf(s), steps), Resume(s, OnRelays(steps));
      t == s.(wallet := s.wallet.(outbox := w.outbox), log := w.log, relays := w.relays)
    decreases |steps|
  {
    if steps != [] {
      assert OnRelays(steps)[1..] == OnRelays(steps[1..]);
      RelayRunInSystem(Step(s, OnRelay(steps[0])), steps[1..]);
    }
  }

  lemma {:induction false} DeliverySteps(w: World, r: nat, hashed: int) returns (steps: seq<RelayAction>)
    requires r < |w.relays|
    requires w.relays[r].Publishing? ==> forall k | 0 <= k < |w.relays[r].batch| :: w.relays[r].batch[k] < |w.outbox|
    ensures RelayRun(w, steps) == Deliver(w, r, hashed)
    decreases if w.relays[r].Publishing? then |w.relays[r].batch| else 0
  {
    if !w.relays[r].Publishing? || w.relays[r].batch == [] {
      steps := [];
    } else {
      var publish := Publish(r, PartitionFor(w.outbox[w.relays[r].batch[0]].message, hashed));
      var sent := RelayStep(w, publish);
      var rest := DeliverySteps(RelayStep(sent, RecordPublished(r)), r, hashed);
      steps := [publish, RecordPublished(r)] + rest;
      RunOfTwo(w, publish, RecordPublished(r), rest);
    }
  }

  lemma RunOfTwo(w: World, a: RelayAction, b: RelayAction, rest: seq<RelayAction>)
    ensures RelayRun(w, [a, b] + rest) == RelayRun(RelayStep(RelayStep(w, a), b), rest)
  {
    assert ([a, b] + rest)[1..] == [b] + rest;
    assert ([b] + rest)[1..] == rest;
  }

  /** Restart the relay, and one round with everything due and every publish succeeding. */
  lemma PublishSteps(w: World, r: nat) returns (steps: seq<RelayAction>)
    requires r < |w.relays|
    ensures var t := RelayRun(w, steps);
      |t.outbox| == |w.outbox| && forall i | 0 <= i < |t.outbox| :: t.outbox[i].status.Published?
  {
    var up := RelayStep(RelayStep(w, Stop(r)), Start(r));
    var all := AllIds(up.outbox);
    var limit := Unpublished(up.outbox);
    var claimed := RelayStep(RelayStep(up, RequeueStale(r, all)), ClaimDue(r, all, limit));
    var rest := DeliverySteps(claimed, r, 0);
    var round := [RequeueStale(r, all), ClaimDue(r, all, limit)] + rest;
    RunOfTwo(up, RequeueStale(r, all), ClaimDue(r, all, limit), rest);
    RunOfTwo(w, Stop(r), Start(r), round);
    RoundDrains(up, r, limit, 0);
    AllPublished(Round(up, r, limit, 0).outbox, 0);
    steps := [Stop(r), Start(r)] + round;
  }

  // ---- the ledger consumes everything ----

  function Saved(s: System, p: int): nat {
    if p in s.ledger.offsets then s.ledger.offsets[p] else 0
  }

  /** The continuation touches nothing but the ledger, and of the offsets only those of `ps`. */
  ghost predicate OnlyConsumes(s: System, t: System, ps: set<int>) {
    && t.wallet == s.wallet && t.log == s.log && t.relays == s.relays
    && forall q | q !in ps :: (q in t.ledger.offsets <==> q in s.ledger.offsets) && Saved(t, q) == Saved(s, q)
  }

  predicate ReadToEnd(s: System, p: int) {
    Saved(s, p) == |EventLane(s, p)| && (|EventLane(s, p)| > 0 ==> p in s.ledger.offsets)
  }

  lemma ConsumeOne(s: System, p: int)
    requires p in s.consumers && s.consumers[p] == Saved(s, p) < |EventLane(s, p)|
    ensures var t := Step(s, Consume(p));
      && OnlyConsumes(s, t, {p})
      && p in t.consumers && t.consumers[p] == Saved(t, p) == Saved(s, p) + 1 && p in t.ledger.offsets
  {
  }

  lemma {:induction false} ConsumeRest(s: System, p: int) returns (actions: seq<Action>)
    requires p in s.consumers && s.consumers[p] == Saved(s, p) <= |EventLane(s, p)|
    requires |EventLane(s, p)| > 0 && Saved(s, p) == |EventLane(s, p)| ==> p in s.ledger.offsets
    ensures OnlyConsumes(s, Resume(s, actions), {p}) && ReadToEnd(Resume(s, actions), p)
    decreases |EventLane(s, p)| - Saved(s, p)
  {
    if Saved(s, p) == |EventLane(s, p)| {
      actions := [];
    } else {
      var t := Step(s, Consume(p));
      ConsumeOne(s, p);
      assert EventLane(t, p) == EventLane(s, p);
      var rest := ConsumeRest(t, p);
      actions := [Consume(p)] + rest;
      assert actions[1..] == rest;
    }
  }

  lemma ConsumePartition(s: System, p: int) returns (actions: seq<Action>)
    requires Saved(s, p) <= |EventLane(s, p)|
    ensures OnlyConsumes(s, Resume(s, actions), {p}) && ReadToEnd(Resume(s, actions), p)
  {
    var t := Step(s, RestartConsumer(p));
    var rest := ConsumeRest(t, p);
    actions := [RestartConsumer(p)] + rest;
    assert actions[1..] == rest;
  }

  lemma {:induction false} ConsumePartitions(s: System, ps: set<int>) returns (actions: seq<Action>)
    requires forall p <- ps :: Saved(s, p) <= |EventLane(s, p)|
    ensures OnlyConsumes(s, Resume(s, actions), ps)
    ensures forall p <- ps :: ReadToEnd(Resume(s, actions), p)
    decreases |ps|
  {
    if ps == {} {
      actions := [];
    } else {
      SomePartition(ps);
      var p :| p in ps;
      var one := ConsumePartition(s, p);
      var t := Resume(s, one);
      var rest := ConsumePartitions(t, ps - {p});
      ResumeConcat(s, one, rest);
      actions := one + rest;
    }
  }

  lemma SomePartition(ps: set<int>)
    ensures ps == {} || exists p :: p in ps
  {
    if forall p :: p !in ps {
      assert ps == {};
    }
  }

  // ---- both ----

  lemma {:induction false} RelaysStay(relays: nat, actions: seq<Action>)
    ensures |Reach(relays, actions).relays| == relays
  {
    if actions != [] {
      RelaysStay(relays, actions[..|actions| - 1]);
    }
  }

  function Partitions(log: seq<StreamRecord>): set<int> {
    set record | record in log :: record.partition
  }

  predicate AllPublishedIn(s: System) {
    forall i | 0 <= i < |s.wallet.outbox| :: s.wallet.outbox[i].status.Published?
  }

  lemma ReadToEndIsDrained(s: System)
    requires AllPublishedIn(s)
    requires forall p <- Partitions(s.log) :: ReadToEnd(s, p)
    ensures Drained(s)
  {
    forall p | |EventLane(s, p)| > 0 ensures p in s.ledger.offsets && s.ledger.offsets[p] == |EventLane(s, p)| {
      LaneInLog(s.log, WalletEvents, p, 0);
      assert p in Partitions(s.log);
    }
  }

  lemma CanPublishAll(s: System) returns (actions: seq<Action>)
    requires |s.relays| > 0
    ensures AllPublishedIn(Resume(s, actions))
  {
    var steps := PublishSteps(WorldOf(s), 0);
    RelayRunInSystem(s, steps);
    actions := OnRelays(steps);
  }

  lemma SavedIsInLane(s: System, p: int)
    requires Sound(s)
    ensures Saved(s, p) <= |EventLane(s, p)|
  {
    assert p in s.ledger.offsets ==> JournaledBelow(s, p, s.ledger.offsets[p]);
  }

  lemma CanReadAll(s: System) returns (actions: seq<Action>)
    requires Sound(s) && AllPublishedIn(s)
    ensures Drained(Resume(s, actions))
  {
    forall p ensures Saved(s, p) <= |EventLane(s, p)| {
      SavedIsInLane(s, p);
    }
    actions := ConsumePartitions(s, Partitions(s.log));
    ReadToEndIsDrained(Resume(s, actions));
  }

  /** The journal alone gives every balance, up to repeated releases. */
  ghost predicate JournalBalances(s: System, relays: nat, actions: seq<Action>) {
    forall account, column ::
      JournalDelta(s.ledger.entries, account, column)
      == BalanceOf(s.wallet, account, column) + if column.Locked? then Unreported(relays, actions, account) else 0
  }

  lemma DrainedBalances(relays: nat, actions: seq<Action>)
    requires Drained(Reach(relays, actions))
    ensures JournalBalances(Reach(relays, actions), relays, actions)
  {
    var s := Reach(relays, actions);
    forall account, column
      ensures JournalDelta(s.ledger.entries, account, column)
        == BalanceOf(s.wallet, account, column) + if column.Locked? then Unreported(relays, actions, account) else 0
    {
      DrainedReconciles(relays, actions, account, column);
    }
  }

  lemma PublishFrom(relays: nat, actions: seq<Action>) returns (more: seq<Action>)
    requires relays > 0
    ensures AllPublishedIn(Reach(relays, actions + more))
  {
    RelaysStay(relays, actions);
    more := CanPublishAll(Reach(relays, actions));
    ReachResumes(relays, actions, more);
  }

  lemma ReadFrom(relays: nat, actions: seq<Action>) returns (more: seq<Action>)
    requires AllPublishedIn(Reach(relays, actions))
    ensures Drained(Reach(relays, actions + more))
  {
    EveryReachIsSound(relays, actions);
    more := CanReadAll(Reach(relays, actions));
    ReachResumes(relays, actions, more);
  }

  /**
   * With at least one relay process, every reachable state, whatever has crashed or is claimed,
   * can still be drained: relay 0 starts again and publishes, then the ledger restarts and reads.
   * After that the journal alone gives every balance.
   */
  lemma EveryReachCanDrain(relays: nat, actions: seq<Action>) returns (more: seq<Action>)
    requires relays > 0
    ensures Drained(Reach(relays, actions + more))
    ensures JournalBalances(Reach(relays, actions + more), relays, actions + more)
  {
    var published := PublishFrom(relays, actions);
    var consumed := ReadFrom(relays, actions + published);
    more := published + consumed;
    assert actions + published + consumed == actions + more;
    DrainedBalances(relays, actions + more);
  }
}
