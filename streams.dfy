/**
  The two stream-level rewrites that replace explicit syncs:
  `_overlap_send_recv`, which gives every send and receive its own execution
  stream, and `_add_event_dependency`, which makes one operator wait for an
  event another records (possibly across programs).
 */
module Streams {
  import opened Ir

  // ---------------------------------------------------------------------
  // _overlap_send_recv

  /** The stream a send on ring `ring` runs on: `"send_stream_" + str(ring)`. */
  function SendStream(ring: int): string
  {
    "send_stream_" + IntToString(ring)
  }

  const RecvStream: string := "recv_stream"

  /**
    One operator retagged: a send or a receive gets `dynamic_shape` off,
    `use_calc_stream` on, its own execution stream and priority 0; anything
    else is left as it is.
   */
  function Overlapped(op: Op): (r: Op)
    ensures r.opType == op.opType && r.inputs == op.inputs && r.outputs == op.outputs
    ensures op.opType !in {"send_v2", "recv_v2"} ==> r == op
    ensures op.opType in {"send_v2", "recv_v2"} ==>
      r.attrs.Keys == op.attrs.Keys + {"dynamic_shape", "use_calc_stream"} &&
      r.attrs["dynamic_shape"] == ABool(false) && r.attrs["use_calc_stream"] == ABool(true) &&
      (forall a :: a in op.attrs && a !in {"dynamic_shape", "use_calc_stream"} ==> r.attrs[a] == op.attrs[a]) &&
      r.dist.streamPriority == 0 &&
      r.dist == op.dist.(executionStream := r.dist.executionStream, streamPriority := 0)
    ensures op.opType == "send_v2" ==> r.dist.executionStream == SendStream(RingId(op))
    ensures op.opType == "recv_v2" ==> r.dist.executionStream == RecvStream
  {
    if op.opType == "send_v2" then
      op.(attrs := op.attrs["dynamic_shape" := ABool(false)]["use_calc_stream" := ABool(true)],
          dist := op.dist.(executionStream := SendStream(RingId(op)), streamPriority := 0))
    else if op.opType == "recv_v2" then
      op.(attrs := op.attrs["dynamic_shape" := ABool(false)]["use_calc_stream" := ABool(true)],
          dist := op.dist.(executionStream := RecvStream, streamPriority := 0))
    else op
  }

  /** Retagging keeps the ring id, so it is a fixed point after one application. */
  lemma OverlappedIdempotent(op: Op)
    ensures Overlapped(Overlapped(op)) == Overlapped(op)
  {
    if op.opType in {"send_v2", "recv_v2"} {
      var once := Overlapped(op);
      assert RingId(once) == RingId(op);
      assert once.attrs["dynamic_shape" := ABool(false)]["use_calc_stream" := ABool(true)] == once.attrs;
    }
  }

  /** Sends on different rings get different streams, and no send shares the receive stream. */
  lemma SendStreamsDistinct(ring1: int, ring2: int)
    ensures SendStream(ring1) == SendStream(ring2) <==> ring1 == ring2
    ensures SendStream(ring1) != RecvStream
  {
    var p := "send_stream_";
    if SendStream(ring1) == SendStream(ring2) {
      assert SendStream(ring1)[|p|..] == IntToString(ring1);
      assert SendStream(ring2)[|p|..] == IntToString(ring2);
      IntToStringInjective(ring1, ring2);
    }
    assert SendStream(ring1)[0] == 's' && RecvStream[0] == 'r';
  }

  /** A block's operators, each retagged. */
  function OverlappedOps(ops: seq<Op>): (r: seq<Op>)
  {
    seq(|ops|, k requires 0 <= k < |ops| => Overlapped(ops[k]))
  }

  /** Every block with its operators retagged; everything else about a block stays. */
  function OverlappedBlocks(blocks: seq<Block>): (r: seq<Block>)
  {
    seq(|blocks|, b requires 0 <= b < |blocks| => blocks[b].(ops := OverlappedOps(blocks[b].ops)))
  }

  /**
    The retagged program has the same blocks with the same number of
    operators, of the same types, and applying the pass twice is applying it
    once.
   */
  lemma OverlappedBlocksShape(blocks: seq<Block>)
    ensures |OverlappedBlocks(blocks)| == |blocks|
    ensures forall b :: 0 <= b < |blocks| ==>
      OverlappedBlocks(blocks)[b].vars == blocks[b].vars &&
      OverlappedBlocks(blocks)[b].parent == blocks[b].parent &&
      |OverlappedBlocks(blocks)[b].ops| == |blocks[b].ops| &&
      forall k :: 0 <= k < |blocks[b].ops| ==> OverlappedBlocks(blocks)[b].ops[k].opType == blocks[b].ops[k].opType
    ensures Arena(blocks) ==> Arena(OverlappedBlocks(blocks))
  {
  }

  lemma OverlappedBlocksIdempotent(blocks: seq<Block>)
    ensures OverlappedBlocks(OverlappedBlocks(blocks)) == OverlappedBlocks(blocks)
  {
    var once := OverlappedBlocks(blocks);
    forall b | 0 <= b < |blocks| ensures OverlappedOps(once[b].ops) == once[b].ops {
      forall k | 0 <= k < |once[b].ops| ensures Overlapped(once[b].ops[k]) == once[b].ops[k] {
        OverlappedIdempotent(blocks[b].ops[k]);
      }
    }
  }

  /** `_overlap_send_recv(program)`: every operator of every block retagged in place. */
  method OverlapSendRecv(program: Program)
    requires program.Valid()
    modifies program
    ensures program.Valid()
    ensures program.blocks == OverlappedBlocks(old(program.blocks))
  {
    var blocks0 := program.blocks;
    for b := 0 to |blocks0|
      invariant |program.blocks| == |blocks0|
      invariant forall c :: 0 <= c < b ==> program.blocks[c] == OverlappedBlocks(blocks0)[c]
      invariant forall c :: b <= c < |blocks0| ==> program.blocks[c] == blocks0[c]
    {
      OverlapBlock(program, b);
    }
    assert program.blocks == OverlappedBlocks(blocks0);
    OverlappedBlocksShape(blocks0);
  }

  /** The inner loop: the operators of block `b`, one at a time. */
  method OverlapBlock(program: Program, b: nat)
    requires b < |program.blocks|
    modifies program
    ensures program.blocks == old(program.blocks)[b := old(program.blocks)[b].(ops := OverlappedOps(old(program.blocks)[b].ops))]
  {
    var ops0 := program.blocks[b].ops;
    ghost var blocks0 := program.blocks;
    assert Retagged(ops0, 0) == ops0;
    assert blocks0[b].(ops := ops0) == blocks0[b];
    for k := 0 to |ops0|
      invariant program.blocks == blocks0[b := blocks0[b].(ops := Retagged(ops0, k))]
    {
      RetaggedStep(ops0, k);
      OverlapAt(program, b, k);
    }
    assert Retagged(ops0, |ops0|) == OverlappedOps(ops0);
  }

  /** The operators of a block after the first `k` are retagged. */
  function Retagged(ops0: seq<Op>, k: nat): (r: seq<Op>)
    requires k <= |ops0|
  {
    OverlappedOps(ops0)[..k] + ops0[k..]
  }

  lemma RetaggedStep(ops0: seq<Op>, k: nat)
    requires k < |ops0|
    ensures |Retagged(ops0, k)| == |ops0| && Retagged(ops0, k)[k] == ops0[k]
    ensures Retagged(ops0, k)[k := Overlapped(ops0[k])] == Retagged(ops0, k + 1)
  {
    assert Retagged(ops0, k)[k := Overlapped(ops0[k])] == Retagged(ops0, k + 1);
  }

  /** One operator of the inner loop retagged in place. */
  method OverlapAt(program: Program, b: nat, k: nat)
    requires b < |program.blocks| && k < |program.blocks[b].ops|
    modifies program
    ensures program.blocks == UpdateOp(old(program.blocks), b, k, Overlapped(old(program.blocks)[b].ops[k]))
  {
    var op := program.blocks[b].ops[k];
    if op.opType == "send_v2" {
      var ring := RingId(op);
      var attrs := op.attrs["dynamic_shape" := ABool(false)]["use_calc_stream" := ABool(true)];
      var dist := op.dist.(executionStream := "send_stream_" + IntToString(ring), streamPriority := 0);
      program.blocks := UpdateOp(program.blocks, b, k, op.(attrs := attrs, dist := dist));
    } else if op.opType == "recv_v2" {
      var attrs := op.attrs["dynamic_shape" := ABool(false)]["use_calc_stream" := ABool(true)];
      var dist := op.dist.(executionStream := "recv_stream", streamPriority := 0);
      program.blocks := UpdateOp(program.blocks, b, k, op.(attrs := attrs, dist := dist));
    } else {
      UpdateOpSame(program.blocks, b, k);
    }
  }

  /** Writing back the operator that is there changes nothing. */
  lemma UpdateOpSame(blocks: seq<Block>, b: nat, k: nat)
    requires b < |blocks| && k < |blocks[b].ops|
    ensures UpdateOp(blocks, b, k, blocks[b].ops[k]) == blocks
  {
    assert blocks[b].ops[k := blocks[b].ops[k]] == blocks[b].ops;
  }

  // ---------------------------------------------------------------------
  // _add_event_dependency

  /** The recorder's side: it is made to record its event. */
  function Recording(d: DistAttr): (r: DistAttr)
    ensures r.forceRecordEvent
    ensures r.(forceRecordEvent := d.forceRecordEvent) == d
  {
    d.(forceRecordEvent := true)
  }

  /** The waiter's side: the event is appended to its wait list unless already there. */
  function Waiting(d: DistAttr, event: string): (r: DistAttr)
  {
    if event in d.eventsToWait then d else d.(eventsToWait := d.eventsToWait + [event])
  }

  predicate NoDuplicates(s: seq<string>)
  {
    forall i, j :: 0 <= i < j < |s| ==> s[i] != s[j]
  }

  /**
    After waiting the event is in the list, the old list is a prefix of the
    new one, the list grows by one exactly when the event was absent, and a
    list without duplicates stays without duplicates. Only the wait list changes.
   */
  lemma WaitingAppends(d: DistAttr, event: string)
    ensures event in Waiting(d, event).eventsToWait
    ensures Waiting(d, event).forceRecordEvent == d.forceRecordEvent && Waiting(d, event).eventToRecord == d.eventToRecord
    ensures Waiting(d, event).eventsToWait[..|d.eventsToWait|] == d.eventsToWait
    ensures event in d.eventsToWait <==> Waiting(d, event) == d
    ensures event !in d.eventsToWait <==> Waiting(d, event).eventsToWait == d.eventsToWait + [event]
    ensures Waiting(d, event).(eventsToWait := d.eventsToWait) == d
    ensures NoDuplicates(d.eventsToWait) ==> NoDuplicates(Waiting(d, event).eventsToWait)
  {
    var r := Waiting(d, event);
    if event !in d.eventsToWait {
      assert r.eventsToWait[|d.eventsToWait|] == event;
      assert r.eventsToWait[..|d.eventsToWait|] == d.eventsToWait;
    }
  }

  /** Waiting for the same event twice is waiting once. */
  lemma WaitingIdempotent(d: DistAttr, event: string)
    ensures Waiting(Waiting(d, event), event) == Waiting(d, event)
  {
    WaitingAppends(d, event);
  }

  /** The blocks after the recorder at `(b, k)` is made to record. */
  function RecordAt(blocks: seq<Block>, b: nat, k: nat): (r: seq<Block>)
    requires b < |blocks| && k < |blocks[b].ops|
  {
    var op := blocks[b].ops[k];
    UpdateOp(blocks, b, k, op.(dist := Recording(op.dist)))
  }

  /** The blocks after the waiter at `(b, k)` is made to wait for `event`. */
  function WaitAt(blocks: seq<Block>, b: nat, k: nat, event: string): (r: seq<Block>)
    requires b < |blocks| && k < |blocks[b].ops|
  {
    var op := blocks[b].ops[k];
    UpdateOp(blocks, b, k, op.(dist := Waiting(op.dist, event)))
  }

  /**
    Within one program, after the dependency is added the recorder records
    and the waiter waits for the recorder's event, also when the two are the
    same operator; no other operator changes.
   */
  lemma DependencyHolds(blocks: seq<Block>, rb: nat, rk: nat, wb: nat, wk: nat)
    requires rb < |blocks| && rk < |blocks[rb].ops| && wb < |blocks| && wk < |blocks[wb].ops|
    ensures var event := blocks[rb].ops[rk].dist.eventToRecord;
      var r := WaitAt(RecordAt(blocks, rb, rk), wb, wk, event);
      |r| == |blocks| && r[rb].ops[rk].dist.forceRecordEvent &&
      r[rb].ops[rk].dist.eventToRecord == event && event in r[wb].ops[wk].dist.eventsToWait &&
      (forall c :: 0 <= c < |blocks| ==> |r[c].ops| == |blocks[c].ops| && r[c].vars == blocks[c].vars && r[c].parent == blocks[c].parent) &&
      (forall c, j :: 0 <= c < |blocks| && 0 <= j < |blocks[c].ops| && (c, j) != (rb, rk) && (c, j) != (wb, wk) ==>
        r[c].ops[j] == blocks[c].ops[j])
  {
    var event := blocks[rb].ops[rk].dist.eventToRecord;
    var mid := RecordAt(blocks, rb, rk);
    WaitingAppends(mid[wb].ops[wk].dist, event);
    var r := WaitAt(mid, wb, wk, event);
    assert mid[rb].ops[rk].dist.forceRecordEvent && mid[rb].ops[rk].dist.eventToRecord == event;
    assert r[wb].ops[wk].dist == Waiting(mid[wb].ops[wk].dist, event);
    if (rb, rk) != (wb, wk) {
      assert r[rb].ops[rk] == mid[rb].ops[rk];
    }
  }

  /** Adding the same dependency twice is adding it once. */
  lemma DependencyIdempotent(blocks: seq<Block>, rb: nat, rk: nat, wb: nat, wk: nat)
    requires rb < |blocks| && rk < |blocks[rb].ops| && wb < |blocks| && wk < |blocks[wb].ops|
    ensures var event := blocks[rb].ops[rk].dist.eventToRecord;
      var once := WaitAt(RecordAt(blocks, rb, rk), wb, wk, event);
      WaitAt(RecordAt(once, rb, rk), wb, wk, once[rb].ops[rk].dist.eventToRecord) == once
  {
    var event := blocks[rb].ops[rk].dist.eventToRecord;
    var mid := RecordAt(blocks, rb, rk);
    var once := WaitAt(mid, wb, wk, event);
    WaitingAppends(mid[wb].ops[wk].dist, event);
    DependencyHolds(blocks, rb, rk, wb, wk);
    assert once[rb].ops[rk].dist.eventToRecord == event;
    assert once[rb].ops[rk].(dist := Recording(once[rb].ops[rk].dist)) == once[rb].ops[rk];
    UpdateOpSame(once, rb, rk);
    WaitingIdempotent(mid[wb].ops[wk].dist, event);
    assert once[wb].ops[wk].dist == Waiting(mid[wb].ops[wk].dist, event);
    assert once[wb].ops[wk].(dist := Waiting(once[wb].ops[wk].dist, event)) == once[wb].ops[wk];
    UpdateOpSame(once, wb, wk);
  }

  /**
    `_add_event_dependency(recorder_op, waiter_op)`, with each operator
    addressed by its program, block and position. The recorder is updated
    first, so a waiter that is the recorder itself sees that update.
   */
  method AddEventDependency(recorder: Program, rb: nat, rk: nat, waiter: Program, wb: nat, wk: nat)
    requires recorder.Valid() && rb < |recorder.blocks| && rk < |recorder.blocks[rb].ops|
    requires waiter.Valid() && wb < |waiter.blocks| && wk < |waiter.blocks[wb].ops|
    modifies recorder, waiter
    ensures recorder.Valid() && waiter.Valid()
    ensures recorder == waiter ==>
      recorder.blocks == WaitAt(RecordAt(old(recorder.blocks), rb, rk), wb, wk, old(recorder.blocks)[rb].ops[rk].dist.eventToRecord)
    ensures recorder != waiter ==>
      recorder.blocks == RecordAt(old(recorder.blocks), rb, rk) &&
      waiter.blocks == WaitAt(old(waiter.blocks), wb, wk, old(recorder.blocks)[rb].ops[rk].dist.eventToRecord)
  {
    var rop := recorder.blocks[rb].ops[rk];
    if !rop.dist.forceRecordEvent {
      recorder.blocks := UpdateOp(recorder.blocks, rb, rk, rop.(dist := rop.dist.(forceRecordEvent := true)));
    } else {
      assert rop.(dist := Recording(rop.dist)) == rop;
      assert recorder.blocks[rb].ops[rk := rop] == recorder.blocks[rb].ops;
      assert UpdateOp(recorder.blocks, rb, rk, rop) == recorder.blocks;
    }
    var event := rop.dist.eventToRecord;
    var wop := waiter.blocks[wb].ops[wk];
    var waitList := wop.dist.eventsToWait;
    if event !in waitList {
      waitList := waitList + [event];
      waiter.blocks := UpdateOp(waiter.blocks, wb, wk, wop.(dist := wop.dist.(eventsToWait := waitList)));
    } else {
      assert wop.(dist := Waiting(wop.dist, event)) == wop;
      assert waiter.blocks[wb].ops[wk := wop] == waiter.blocks[wb].ops;
      assert UpdateOp(waiter.blocks, wb, wk, wop) == waiter.blocks;
    }
  }
}
