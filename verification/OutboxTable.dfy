/** The statements with which the relay moves outbox rows between their three states. */
module OutboxTable {
  import opened Common
  import opened WalletTypes

  /** Only PROCESSING rows that have been so for long enough go back to PENDING. */
  function Requeue(outbox: seq<OutboxRow>, stale: set<nat>): seq<OutboxRow> {
    seq(|outbox|, i requires 0 <= i < |outbox| =>
      if i in stale && outbox[i].status.Processing? then outbox[i].(status := Pending) else outbox[i])
  }

  /** The first `limit` PENDING rows, in outbox_id order, whose next attempt is due. */
  function Claimable(outbox: seq<OutboxRow>, ready: set<nat>, limit: nat, from: nat): (ids: seq<nat>)
    requires from <= |outbox|
    ensures |ids| <= limit
    ensures forall k | 0 <= k < |ids| ::
      from <= ids[k] < |outbox| && ids[k] in ready && outbox[ids[k]].status.Pending?
    ensures forall j, k | 0 <= j < k < |ids| :: ids[j] < ids[k]
    decreases |outbox| - from
  {
    if limit == 0 || from == |outbox| then []
    else if outbox[from].status.Pending? && from in ready then [from] + Claimable(outbox, ready, limit - 1, from + 1)
    else Claimable(outbox, ready, limit, from + 1)
  }

  function Claim(outbox: seq<OutboxRow>, ids: seq<nat>): seq<OutboxRow> {
    seq(|outbox|, i requires 0 <= i < |outbox| =>
      if i in ids then outbox[i].(status := Processing, attempts := outbox[i].attempts + 1) else outbox[i])
  }

  lemma ClaimOneMore(outbox: seq<OutboxRow>, ids: seq<nat>, i: nat)
    requires i < |outbox| && i !in ids
    ensures Claim(outbox, ids)[i] == outbox[i]
    ensures Claim(outbox, ids + [i])
         == Claim(outbox, ids)[i := outbox[i].(status := Processing, attempts := outbox[i].attempts + 1)]
  {
  }

  lemma ClaimableFirst(outbox: seq<OutboxRow>, ready: set<nat>, limit: nat, i: nat, ids: seq<nat>, all: seq<nat>)
    requires i < |outbox| && limit > 0 && ids + Claimable(outbox, ready, limit, i) == all
    ensures if outbox[i].status.Pending? && i in ready
      then (ids + [i]) + Claimable(outbox, ready, limit - 1, i + 1) == all
      else ids + Claimable(outbox, ready, limit, i + 1) == all
  {
    if outbox[i].status.Pending? && i in ready {
      assert ids + ([i] + Claimable(outbox, ready, limit - 1, i + 1))
        == (ids + [i]) + Claimable(outbox, ready, limit - 1, i + 1);
    }
  }

  /** Neither mark looks at the status that the row has. */
  function MarkPublished(outbox: seq<OutboxRow>, id: nat, position: StreamPosition): seq<OutboxRow> {
    if id < |outbox| then outbox[id := outbox[id].(status := Published, published := Some(position))] else outbox
  }

  function MarkPending(outbox: seq<OutboxRow>, id: nat): seq<OutboxRow> {
    if id < |outbox| then outbox[id := outbox[id].(status := Pending)] else outbox
  }

  function UnpublishedFrom(outbox: seq<OutboxRow>, from: nat): nat
    requires from <= |outbox|
    decreases |outbox| - from
  {
    if from == |outbox| then 0
    else (if outbox[from].status.Published? then 0 else 1) + UnpublishedFrom(outbox, from + 1)
  }

  function Unpublished(outbox: seq<OutboxRow>): nat {
    UnpublishedFrom(outbox, 0)
  }
}
