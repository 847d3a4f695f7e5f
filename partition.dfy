/**
  `_program_for_fthenb_and_1f1b`: the communication rewrite chosen by
  `enable_send_recv_overlap`, then the cut of the program into a forward, a
  backward and an optimize program. Each part gets the operators of its role
  in order, re-materialised block by block; fetch operators follow the first
  part that can resolve what they fetch.
 */
module Partition {
  import opened Ir
  import opened Remat
  import opened Passes
  import opened Sync
  import opened Streams

  /** The three parts, in the order the function returns them. */
  const Forward: nat := 0
  const Backward: nat := 1
  const Optimize: nat := 2

  /** `_is_fetch_op`. */
  predicate IsFetch(op: Op)
  {
    op.opType in {"fetch", "fetch_v2"}
  }

  /** The part an operator belongs to: the first classifier that accepts it. */
  function RoleIndex(op: Op, cls: RoleClassifier): (r: Option<nat>)
    ensures r.Some? ==> r.value < 3
    ensures r.None? <==> !cls.isForward(op) && !cls.isBackward(op) && !cls.isOptimize(op)
  {
    if cls.isForward(op) then Some(Forward)
    else if cls.isBackward(op) then Some(Backward)
    else if cls.isOptimize(op) then Some(Optimize)
    else None
  }

  /** The error for an operator of no known role, naming its `op_role`. */
  function RoleError(op: Op): Error
  {
    ValueError("The op role: " + IntToString(Role(op)) + " isn't one of Forward, Backward or Optimizer.")
  }

  /** `_split_ops(block)` over `ops`: the three role lists, or the error of the first unclassified operator. */
  function SplitOps(ops: seq<Op>, cls: RoleClassifier): (r: Result<seq<seq<Op>>>)
    ensures r.Ok? ==> |r.value| == 3
    decreases |ops|
  {
    if ops == [] then Ok([[], [], []])
    else
      match SplitOps(ops[..|ops| - 1], cls)
      case Err(e) => Err(e)
      case Ok(parts) =>
        var op := ops[|ops| - 1];
        if IsFetch(op) then Ok(parts)
        else match RoleIndex(op, cls)
          case None => Err(RoleError(op))
          case Some(q) => Ok(parts[q := parts[q] + [op]])
  }

  /** The non-fetch operators of `ops` in part `q`, in order. */
  function RoleOps(ops: seq<Op>, cls: RoleClassifier, q: nat): seq<Op>
    decreases |ops|
  {
    if ops == [] then []
    else
      var op := ops[|ops| - 1];
      RoleOps(ops[..|ops| - 1], cls, q) + (if !IsFetch(op) && RoleIndex(op, cls) == Some(q) then [op] else [])
  }

  /** Whether every operator that is not a fetch has a role. */
  predicate Classified(ops: seq<Op>, cls: RoleClassifier)
  {
    forall k :: 0 <= k < |ops| && !IsFetch(ops[k]) ==> RoleIndex(ops[k], cls).Some?
  }

  /**
    The split succeeds exactly when every non-fetch operator has a role, and
    then each list is the operators of that role in their order.
   */
  lemma {:induction false} SplitOpsIsFilter(ops: seq<Op>, cls: RoleClassifier)
    ensures SplitOps(ops, cls).Ok? <==> Classified(ops, cls)
    ensures SplitOps(ops, cls).Ok? ==> forall q :: 0 <= q < 3 ==> SplitOps(ops, cls).value[q] == RoleOps(ops, cls, q)
    decreases |ops|
  {
    if ops != [] {
      var pre := ops[..|ops| - 1];
      var op := ops[|ops| - 1];
      SplitOpsIsFilter(pre, cls);
      assert forall k :: 0 <= k < |pre| ==> pre[k] == ops[k];
      if !Classified(pre, cls) {
        var k :| 0 <= k < |pre| && !IsFetch(pre[k]) && RoleIndex(pre[k], cls).None?;
        assert !IsFetch(ops[k]) && RoleIndex(ops[k], cls).None?;
      }
    }
  }

  /** When the split fails, it fails on the first operator with no role. */
  lemma {:induction false} SplitOpsError(ops: seq<Op>, cls: RoleClassifier)
    requires SplitOps(ops, cls).Err?
    ensures exists j :: (0 <= j < |ops| && !IsFetch(ops[j]) && RoleIndex(ops[j], cls).None? &&
      SplitOps(ops, cls).error == RoleError(ops[j]) && Classified(ops[..j], cls))
    decreases |ops|
  {
    var pre := ops[..|ops| - 1];
    if SplitOps(pre, cls).Err? {
      SplitOpsError(pre, cls);
      var j :| 0 <= j < |pre| && !IsFetch(pre[j]) && RoleIndex(pre[j], cls).None? &&
        SplitOps(pre, cls).error == RoleError(pre[j]) && Classified(pre[..j], cls);
      assert ops[j] == pre[j] && ops[..j] == pre[..j];
    } else {
      SplitOpsIsFilter(pre, cls);
      assert ops[..|ops| - 1] == pre;
    }
  }

  /** `_split_ops(src_block)`. */
  method SplitBlockOps(ops: seq<Op>, cls: RoleClassifier) returns (r: Result<seq<seq<Op>>>)
    ensures r == SplitOps(ops, cls)
  {
    var fwdOps: seq<Op> := [];
    var bwdOps: seq<Op> := [];
    var optOps: seq<Op> := [];
    for i := 0 to |ops|
      invariant SplitOps(ops[..i], cls) == Ok([fwdOps, bwdOps, optOps])
    {
      var op := ops[i];
      SplitOpsSnoc(ops, cls, i);
      if IsFetch(op) {
        continue;
      }
      if cls.isForward(op) {
        assert [fwdOps, bwdOps, optOps][Forward := fwdOps + [op]] == [fwdOps + [op], bwdOps, optOps];
        fwdOps := fwdOps + [op];
      } else if cls.isBackward(op) {
        assert [fwdOps, bwdOps, optOps][Backward := bwdOps + [op]] == [fwdOps, bwdOps + [op], optOps];
        bwdOps := bwdOps + [op];
      } else if cls.isOptimize(op) {
        assert [fwdOps, bwdOps, optOps][Optimize := optOps + [op]] == [fwdOps, bwdOps, optOps + [op]];
        optOps := optOps + [op];
      } else {
        SplitOpsErrorPersists(ops, cls, i + 1);
        return Err(RoleError(op));
      }
    }
    assert ops[..|ops|] == ops;
    return Ok([fwdOps, bwdOps, optOps]);
  }

  /** The split of one more operator, in terms of the split before it. */
  lemma SplitOpsSnoc(ops: seq<Op>, cls: RoleClassifier, i: nat)
    requires i < |ops|
    ensures SplitOps(ops[..i + 1], cls) ==
      match SplitOps(ops[..i], cls)
      case Err(e) => Err(e)
      case Ok(parts) =>
        if IsFetch(ops[i]) then Ok(parts)
        else match RoleIndex(ops[i], cls)
          case None => Err(RoleError(ops[i]))
          case Some(q) => Ok(parts[q := parts[q] + [ops[i]]])
  {
    assert ops[..i + 1][..i] == ops[..i];
  }

  /** Once a prefix fails to split, the whole list fails with the same error. */
  lemma {:induction false} SplitOpsErrorPersists(ops: seq<Op>, cls: RoleClassifier, i: nat)
    requires i <= |ops| && SplitOps(ops[..i], cls).Err?
    ensures SplitOps(ops, cls) == SplitOps(ops[..i], cls)
    decreases |ops| - i
  {
    if i < |ops| {
      SplitOpsSnoc(ops, cls, i);
      SplitOpsErrorPersists(ops, cls, i + 1);
    } else {
      assert ops[..i] == ops;
    }
  }

  // ---------------------------------------------------------------------
  // The destination programs

  /** A part under construction: its blocks and the block it currently fills. */
  datatype Dest = Dest(blocks: seq<Block>, cur: nat)

  /** The current block is always the last one created. */
  predicate DestValid(d: Dest)
  {
    Arena(d.blocks) && d.cur == |d.blocks| - 1
  }

  /** `_add_ops_into_block(src_block, dst_block, ops)`: each operator re-materialised in turn, without `force_create`. */
  function AddOps(blocks: seq<Block>, d: nat, srcBlocks: seq<Block>, s: nat, ops: seq<Op>): (r: seq<Block>)
    requires d < |blocks| && Arena(srcBlocks) && s < |srcBlocks|
    ensures |r| == |blocks| && r[d].ops == blocks[d].ops + ops && r[d].forwardBlock == blocks[d].forwardBlock
    ensures forall c :: 0 <= c < |blocks| ==> r[c].parent == blocks[c].parent
    ensures forall c :: 0 <= c < |blocks| && c != d ==> r[c] == blocks[c]
    decreases |ops|
  {
    if ops == [] then blocks
    else
      var r := Rematerialized(AddOps(blocks, d, srcBlocks, s, ops[..|ops| - 1]), d, srcBlocks, s, ops[|ops| - 1], false);
      assert ops == ops[..|ops| - 1] + [ops[|ops| - 1]];
      r
  }

  const RangeError: Error := IndexError("list index out of range")

  /**
    One part's operators of source block `idx` placed: block 0 goes into the
    part's global block; any other block gets a new block of the part, under
    the source block's parent, only when it has operators of that role.
   */
  function PlaceBlock(dest: Dest, srcBlocks: seq<Block>, idx: nat, ops: seq<Op>): (r: Result<Dest>)
    requires DestValid(dest) && Arena(srcBlocks) && idx < |srcBlocks|
    requires idx == 0 ==> dest.cur == 0
    ensures r.Ok? ==> DestValid(r.value)
  {
    if idx == 0 then Ok(Dest(AddOps(dest.blocks, 0, srcBlocks, 0, ops), 0))
    else if ops == [] then Ok(dest)
    else
      var parent := srcBlocks[idx].parent;
      if parent >= |dest.blocks| then Err(RangeError)
      else
        var n := |dest.blocks|;
        var grown := dest.blocks + [Block([], map[], parent, srcBlocks[idx].forwardBlock)];
        Ok(Dest(AddOps(grown, n, srcBlocks, idx, ops), n))
  }

  /**
    Placing fails exactly when a non-root block with operators of the role
    names a parent the part does not have. Otherwise block 0 and blocks
    without such operators add no block, and any other block adds one block
    at the end that holds exactly those operators, in order, under the
    source block's parent and forward block, leaving the earlier blocks as
    they were.
   */
  lemma PlaceBlockShape(dest: Dest, srcBlocks: seq<Block>, idx: nat, ops: seq<Op>)
    requires DestValid(dest) && Arena(srcBlocks) && idx < |srcBlocks|
    requires idx == 0 ==> dest.cur == 0
    ensures var r := PlaceBlock(dest, srcBlocks, idx, ops);
      (r.Err? <==> idx > 0 && ops != [] && srcBlocks[idx].parent >= |dest.blocks|) &&
      (r.Ok? && (idx == 0 || ops == []) ==> |r.value.blocks| == |dest.blocks|) &&
      (r.Ok? && idx == 0 ==> r.value.blocks[0].ops == dest.blocks[0].ops + ops) &&
      (r.Ok? && idx > 0 && ops != [] ==>
        |r.value.blocks| == |dest.blocks| + 1 && r.value.blocks[..|dest.blocks|] == dest.blocks &&
        r.value.blocks[r.value.cur].ops == ops && r.value.blocks[r.value.cur].parent == srcBlocks[idx].parent &&
        r.value.blocks[r.value.cur].forwardBlock == srcBlocks[idx].forwardBlock)
  {
    var r := PlaceBlock(dest, srcBlocks, idx, ops);
    if r.Ok? && idx > 0 && ops != [] {
      var n := |dest.blocks|;
      var grown := dest.blocks + [Block([], map[], srcBlocks[idx].parent, srcBlocks[idx].forwardBlock)];
      assert r.value.blocks == AddOps(grown, n, srcBlocks, idx, ops);
      assert r.value.blocks[..n] == dest.blocks by {
        assert forall c :: 0 <= c < n ==> r.value.blocks[c] == grown[c] == dest.blocks[c];
      }
    }
  }

  predicate DestsValid(dests: seq<Dest>)
  {
    |dests| == 3 && forall q :: 0 <= q < 3 ==> DestValid(dests[q])
  }

  /** The three parts placed in order; the first that raises stops the others. */
  function PlaceParts(dests: seq<Dest>, srcBlocks: seq<Block>, idx: nat, parts: seq<seq<Op>>, p: nat): (r: Result<seq<Dest>>)
    requires DestsValid(dests) && Arena(srcBlocks) && idx < |srcBlocks| && |parts| == 3 && p <= 3
    requires idx == 0 ==> forall q :: 0 <= q < 3 ==> dests[q].cur == 0
    ensures r.Ok? ==> DestsValid(r.value)
    ensures r.Ok? ==> forall q :: p <= q < 3 ==> r.value[q] == dests[q]
    decreases p
  {
    if p == 0 then Ok(dests)
    else
      match PlaceParts(dests, srcBlocks, idx, parts, p - 1)
      case Err(e) => Err(e)
      case Ok(ds) =>
        match PlaceBlock(ds[p - 1], srcBlocks, idx, parts[p - 1])
        case Err(e) => Err(e)
        case Ok(d) => Ok(ds[p - 1 := d])
  }

  /** The first part from `q` on whose current block resolves `name`. */
  function FirstResolving(dests: seq<Dest>, name: string, q: nat): (r: Option<nat>)
    requires DestsValid(dests) && q <= 3
    ensures r.Some? ==> q <= r.value < 3 && FindVar(dests[r.value].blocks, dests[r.value].cur, name).Some?
    ensures forall p :: q <= p < 3 && (r.None? || p < r.value) ==> FindVar(dests[p].blocks, dests[p].cur, name).None?
    decreases 3 - q
  {
    if q == 3 then None
    else if FindVar(dests[q].blocks, dests[q].cur, name).Some? then Some(q)
    else FirstResolving(dests, name, q + 1)
  }

  /**
    A fetch operator attached: to the current block of the first part that
    resolves its first input, or to none; one with no input raises.
   */
  function RouteFetch(dests: seq<Dest>, srcBlocks: seq<Block>, idx: nat, op: Op): (r: Result<seq<Dest>>)
    requires DestsValid(dests) && Arena(srcBlocks) && idx < |srcBlocks|
    ensures r.Ok? ==> DestsValid(r.value)
    ensures r.Err? <==> |InputArgNames(op)| == 0
  {
    if |InputArgNames(op)| == 0 then Err(RangeError)
    else match FirstResolving(dests, InputArgNames(op)[0], 0)
      case None => Ok(dests)
      case Some(q) =>
        var d := dests[q];
        var blocks := Rematerialized(d.blocks, d.cur, srcBlocks, idx, op, false);
        assert forall c :: 0 <= c < |blocks| ==> blocks[c].parent == d.blocks[c].parent;
        Ok(dests[q := Dest(blocks, d.cur)])
  }

  /** The fetch operators among the first `i` of `ops`, attached in order. */
  function RouteFetches(dests: seq<Dest>, srcBlocks: seq<Block>, idx: nat, ops: seq<Op>, i: nat): (r: Result<seq<Dest>>)
    requires DestsValid(dests) && Arena(srcBlocks) && idx < |srcBlocks| && i <= |ops|
    ensures r.Ok? ==> DestsValid(r.value)
    decreases i, 0
  {
    if i == 0 then Ok(dests)
    else
      match RouteFetches(dests, srcBlocks, idx, ops, i - 1)
      case Err(e) => Err(e)
      case Ok(ds) => if IsFetch(ops[i - 1]) then RouteFetch(ds, srcBlocks, idx, ops[i - 1]) else Ok(ds)
  }

  /** One source block: split, placed part by part, then its fetches attached. */
  function PartitionBlock(dests: seq<Dest>, srcBlocks: seq<Block>, cls: RoleClassifier, idx: nat): (r: Result<seq<Dest>>)
    requires DestsValid(dests) && Arena(srcBlocks) && idx < |srcBlocks|
    requires idx == 0 ==> forall q :: 0 <= q < 3 ==> dests[q].cur == 0
    ensures r.Ok? ==> DestsValid(r.value)
  {
    match SplitOps(srcBlocks[idx].ops, cls)
    case Err(e) => Err(e)
    case Ok(parts) =>
      match PlaceParts(dests, srcBlocks, idx, parts, 3)
      case Err(e) => Err(e)
      case Ok(ds) => RouteFetches(ds, srcBlocks, idx, srcBlocks[idx].ops, |srcBlocks[idx].ops|)
  }

  /** Three fresh `Program()`s. */
  const InitialDests: seq<Dest> := [Dest([EmptyGlobalBlock], 0), Dest([EmptyGlobalBlock], 0), Dest([EmptyGlobalBlock], 0)]

  /** The parts after the first `i` source blocks. */
  function PartitionUpTo(srcBlocks: seq<Block>, cls: RoleClassifier, i: nat): (r: Result<seq<Dest>>)
    requires Arena(srcBlocks) && i <= |srcBlocks|
    ensures r.Ok? ==> DestsValid(r.value)
    decreases i, 0
  {
    if i == 0 then
      assert DestsValid(InitialDests) by {
        assert forall q :: 0 <= q < 3 ==> InitialDests[q] == Dest([EmptyGlobalBlock], 0);
      }
      Ok(InitialDests)
    else
      PartitionThrough(srcBlocks, cls, i - 1)
  }

  /** The parts after source blocks `0` to `k`: block `k` cut into the parts of the blocks before it. */
  function PartitionThrough(srcBlocks: seq<Block>, cls: RoleClassifier, k: nat): (r: Result<seq<Dest>>)
    requires Arena(srcBlocks) && k < |srcBlocks|
    ensures r.Ok? ==> DestsValid(r.value)
    decreases k, 1
  {
    match PartitionUpTo(srcBlocks, cls, k)
    case Err(e) => Err(e)
    case Ok(ds) => PartitionBlock(ds, srcBlocks, cls, k)
  }

  // ---------------------------------------------------------------------
  // The whole function

  /** The source program after the communication rewrite `enable_send_recv_overlap` selects. */
  function SyncedProgram(blocks: seq<Block>, cls: RoleClassifier, useNewExecutor: bool, overlap: bool): (Option<Error>, seq<Block>)
  {
    if overlap then (None, OverlappedBlocks(blocks)) else Pass(blocks, SyncedBlockOf(cls, useNewExecutor), |blocks|)
  }

  /** `_program_for_fthenb_and_1f1b`: the blocks of `[fwd_prog, bwd_prog, opt_prog]`, or the error raised. */
  function Partitioned(blocks: seq<Block>, cls: RoleClassifier, useNewExecutor: bool, overlap: bool): (r: Result<seq<seq<Block>>>)
    requires Arena(blocks)
    ensures r.Ok? ==> |r.value| == 3 && forall q :: 0 <= q < 3 ==> Arena(r.value[q])
  {
    var synced := SyncedProgram(blocks, cls, useNewExecutor, overlap);
    if synced.0.Some? then Err(synced.0.value)
    else
      SyncedArena(blocks, cls, useNewExecutor, overlap);
      PartsOf(synced.1, cls)
  }

  /** The cut of an already rewritten program. */
  function PartsOf(blocks: seq<Block>, cls: RoleClassifier): (r: Result<seq<seq<Block>>>)
    requires Arena(blocks)
    ensures r.Ok? ==> |r.value| == 3 && forall q :: 0 <= q < 3 ==> Arena(r.value[q])
  {
    match PartitionUpTo(blocks, cls, |blocks|)
    case Err(e) => Err(e)
    case Ok(ds) => Ok([ds[0].blocks, ds[1].blocks, ds[2].blocks])
  }

  lemma SyncedArena(blocks: seq<Block>, cls: RoleClassifier, useNewExecutor: bool, overlap: bool)
    requires Arena(blocks)
    ensures Arena(SyncedProgram(blocks, cls, useNewExecutor, overlap).1)
  {
    if overlap {
      OverlappedBlocksShape(blocks);
    } else {
      SyncPassArena(blocks, cls, useNewExecutor);
    }
  }

  /** The three programs' blocks are the parts, and the cursors are the parts' current blocks. */
  predicate Holds(bs: seq<seq<Block>>, curs: seq<nat>, dests: seq<Dest>)
  {
    |bs| == 3 && |curs| == 3 && |dests| == 3 &&
    forall q :: 0 <= q < 3 ==> bs[q] == dests[q].blocks && curs[q] == dests[q].cur
  }

  predicate Distinct(progs: seq<Program>)
  {
    forall p, q :: 0 <= p < q < |progs| ==> progs[p] != progs[q]
  }

  method ProgramForFthenbAnd1f1b(program: Program, cls: RoleClassifier, useNewExecutor: bool, enableSendRecvOverlap: bool)
    returns (r: Result<seq<Program>>)
    requires program.Valid()
    modifies program
    ensures program.Valid()
    ensures program.blocks == SyncedProgram(old(program.blocks), cls, useNewExecutor, enableSendRecvOverlap).1
    ensures var spec := Partitioned(old(program.blocks), cls, useNewExecutor, enableSendRecvOverlap);
      (spec.Err? ==> r == Err(spec.error)) &&
      (spec.Ok? ==> r.Ok? && |r.value| == 3 && forall q :: 0 <= q < 3 ==> fresh(r.value[q]) && r.value[q].blocks == spec.value[q])
  {
    var err := SyncSource(program, cls, useNewExecutor, enableSendRecvOverlap);
    if err.Some? {
      return Err(err.value);
    }
    r := PartitionProgram(program.blocks, cls);
  }

  /** The rewrite `enable_send_recv_overlap` selects, applied in place. */
  method SyncSource(program: Program, cls: RoleClassifier, useNewExecutor: bool, overlap: bool) returns (err: Option<Error>)
    requires program.Valid()
    modifies program
    ensures program.Valid()
    ensures (err, program.blocks) == SyncedProgram(old(program.blocks), cls, useNewExecutor, overlap)
  {
    if overlap {
      OverlapSendRecv(program);
      err := None;
    } else {
      err := InsertSyncForFthenb1f1b(program, cls, useNewExecutor);
    }
  }

  /** The cut: three fresh programs, then every source block in order. */
  method PartitionProgram(srcBlocks: seq<Block>, cls: RoleClassifier) returns (r: Result<seq<Program>>)
    requires Arena(srcBlocks)
    ensures var spec := PartsOf(srcBlocks, cls);
      (spec.Err? ==> r == Err(spec.error)) &&
      (spec.Ok? ==> r.Ok? && |r.value| == 3 && forall q :: 0 <= q < 3 ==> fresh(r.value[q]) && r.value[q].blocks == spec.value[q])
  {
    var progs := NewPrograms();
    var err := PartitionBlocksInto(progs, srcBlocks, cls);
    PartsOfDests(srcBlocks, cls);
    if err.Some? {
      return Err(err.value);
    }
    return Ok(progs);
  }

  /** `fwd_prog`, `bwd_prog` and `opt_prog`: three fresh `Program()`s. */
  method NewPrograms() returns (progs: seq<Program>)
    ensures |progs| == 3 && Holds([progs[0].blocks, progs[1].blocks, progs[2].blocks], [0, 0, 0], InitialDests) && Distinct(progs)
    ensures forall q :: 0 <= q < 3 ==> fresh(progs[q])
  {
    var fwdProg := new Program.Empty();
    var bwdProg := new Program.Empty();
    var optProg := new Program.Empty();
    progs := [fwdProg, bwdProg, optProg];
    assert forall q :: 0 <= q < 3 ==> InitialDests[q] == Dest([EmptyGlobalBlock], 0);
  }

  /** The result of the cut read off the final parts. */
  lemma PartsOfDests(srcBlocks: seq<Block>, cls: RoleClassifier)
    requires Arena(srcBlocks)
    ensures var spec := PartitionUpTo(srcBlocks, cls, |srcBlocks|);
      (spec.Err? ==> PartsOf(srcBlocks, cls) == Err(spec.error)) &&
      (spec.Ok? ==> PartsOf(srcBlocks, cls).Ok? &&
                    forall q :: 0 <= q < 3 ==> PartsOf(srcBlocks, cls).value[q] == spec.value[q].blocks)
  {
  }

  /** The loop over source blocks, filling the three programs. */
  method PartitionBlocksInto(progs: seq<Program>, srcBlocks: seq<Block>, cls: RoleClassifier) returns (err: Option<Error>)
    requires Arena(srcBlocks) && |progs| == 3 && Holds([progs[0].blocks, progs[1].blocks, progs[2].blocks], [0, 0, 0], InitialDests) && Distinct(progs)
    modifies progs
    ensures var spec := PartitionUpTo(srcBlocks, cls, |srcBlocks|);
      (spec.Err? ==> err == Some(spec.error)) &&
      (spec.Ok? ==> err.None? && forall q :: 0 <= q < 3 ==> progs[q].blocks == spec.value[q].blocks)
  {
    var curs: seq<nat> := [0, 0, 0];
    ghost var dests := InitialDests;
    for idx := 0 to |srcBlocks|
      invariant PartitionUpTo(srcBlocks, cls, idx) == Ok(dests) && |progs| == 3 && Holds([progs[0].blocks, progs[1].blocks, progs[2].blocks], curs, dests)
    {
      var next;
      next, dests := PartitionStep(progs, curs, dests, srcBlocks, cls, idx, idx + 1);
      if next.Err? {
        return Some(next.error);
      }
      curs := next.value;
    }
    return None;
  }

  /** One iteration of the loop: source block `idx` cut into the programs. */
  method PartitionStep(progs: seq<Program>, curs: seq<nat>, ghost dests: seq<Dest>, srcBlocks: seq<Block>,
                       cls: RoleClassifier, idx: nat, j: nat)
    returns (next: Result<seq<nat>>, ghost nd: seq<Dest>)
    requires Arena(srcBlocks) && idx < |srcBlocks| && j == idx + 1
    requires PartitionUpTo(srcBlocks, cls, idx) == Ok(dests) && |progs| == 3 && Holds([progs[0].blocks, progs[1].blocks, progs[2].blocks], curs, dests) && Distinct(progs)
    modifies progs
    ensures next.Err? ==> PartitionUpTo(srcBlocks, cls, |srcBlocks|) == Err(next.error)
    ensures next.Ok? ==> PartitionUpTo(srcBlocks, cls, j) == Ok(nd) && Holds([progs[0].blocks, progs[1].blocks, progs[2].blocks], next.value, nd)
  {
    PartitionUpToStep(srcBlocks, cls, idx, j, dests);
    next := PartitionBlockInto(progs, curs, dests, srcBlocks, cls, idx);
    if next.Err? {
      PartitionErrorPersists(srcBlocks, cls, j, |srcBlocks|);
      nd := dests;
    } else {
      nd := PartitionBlock(dests, srcBlocks, cls, idx).value;
    }
  }

  lemma PartitionUpToStep(srcBlocks: seq<Block>, cls: RoleClassifier, idx: nat, j: nat, ds: seq<Dest>)
    requires Arena(srcBlocks) && idx < |srcBlocks| && j == idx + 1 && PartitionUpTo(srcBlocks, cls, idx) == Ok(ds)
    ensures DestsValid(ds) && (idx == 0 ==> forall q :: 0 <= q < 3 ==> ds[q].cur == 0)
    ensures PartitionUpTo(srcBlocks, cls, j) == PartitionBlock(ds, srcBlocks, cls, idx)
  {
  }

  lemma {:induction false} PartitionErrorPersists(srcBlocks: seq<Block>, cls: RoleClassifier, i: nat, k: nat)
    requires Arena(srcBlocks) && i <= k <= |srcBlocks| && PartitionUpTo(srcBlocks, cls, i).Err?
    ensures PartitionUpTo(srcBlocks, cls, k) == PartitionUpTo(srcBlocks, cls, i)
    decreases k - i
  {
    if i < k {
      PartitionErrorPersists(srcBlocks, cls, i, k - 1);
    }
  }

  /** One iteration of the loop over source blocks. */
  method PartitionBlockInto(progs: seq<Program>, curs: seq<nat>, ghost dests: seq<Dest>, srcBlocks: seq<Block>,
                            cls: RoleClassifier, idx: nat)
    returns (r: Result<seq<nat>>)
    requires Arena(srcBlocks) && idx < |srcBlocks| && DestsValid(dests) && |progs| == 3 && Holds([progs[0].blocks, progs[1].blocks, progs[2].blocks], curs, dests) && Distinct(progs)
    requires idx == 0 ==> forall q :: 0 <= q < 3 ==> dests[q].cur == 0
    modifies progs
    ensures var spec := PartitionBlock(dests, srcBlocks, cls, idx);
      (spec.Err? ==> r == Err(spec.error)) && (spec.Ok? ==> r.Ok? && Holds([progs[0].blocks, progs[1].blocks, progs[2].blocks], r.value, spec.value))
  {
    var parts := SplitBlockOps(srcBlocks[idx].ops, cls);
    if parts.Err? {
      return Err(parts.error);
    }
    var placed := PlacePartsInto(progs, curs, dests, srcBlocks, idx, parts.value);
    if placed.Err? {
      return Err(placed.error);
    }
    ghost var ds := PlaceParts(dests, srcBlocks, idx, parts.value, 3).value;
    var err := RouteFetchesInto(progs, placed.value, ds, srcBlocks, idx);
    if err.Some? {
      return Err(err.value);
    }
    return Ok(placed.value);
  }

  /**
    The three parts of one source block placed in order: forward, backward,
    optimize, each in its own program; a part that raises stops the others.
   */
  method PlacePartsInto(progs: seq<Program>, curs: seq<nat>, ghost dests: seq<Dest>, srcBlocks: seq<Block>, idx: nat,
                        parts: seq<seq<Op>>)
    returns (r: Result<seq<nat>>)
    requires Arena(srcBlocks) && idx < |srcBlocks| && DestsValid(dests) && |parts| == 3 && Distinct(progs)
    requires |progs| == 3 && Holds([progs[0].blocks, progs[1].blocks, progs[2].blocks], curs, dests)
    requires idx == 0 ==> forall q :: 0 <= q < 3 ==> dests[q].cur == 0
    modifies progs
    ensures var spec := PlaceParts(dests, srcBlocks, idx, parts, 3);
      (spec.Err? ==> r == Err(spec.error)) &&
      (spec.Ok? ==> r.Ok? && Holds([progs[0].blocks, progs[1].blocks, progs[2].blocks], r.value, spec.value))
  {
    var cs, ds := PlacePartInto(progs, curs, dests, srcBlocks, idx, parts, Forward, dests);
    if cs.Err? {
      PlacePartsErrorPersists(dests, srcBlocks, idx, parts, 1, 3);
      return cs;
    }
    cs, ds := PlacePartInto(progs, cs.value, dests, srcBlocks, idx, parts, Backward, ds);
    if cs.Err? {
      PlacePartsErrorPersists(dests, srcBlocks, idx, parts, 2, 3);
      return cs;
    }
    cs, ds := PlacePartInto(progs, cs.value, dests, srcBlocks, idx, parts, Optimize, ds);
    return cs;
  }

  /** Part `p` placed in program `p`, once parts `0` to `p - 1` are placed. */
  method PlacePartInto(progs: seq<Program>, curs: seq<nat>, ghost dests: seq<Dest>, srcBlocks: seq<Block>, idx: nat,
                       parts: seq<seq<Op>>, p: nat, ghost ds: seq<Dest>)
    returns (r: Result<seq<nat>>, ghost next: seq<Dest>)
    requires Arena(srcBlocks) && idx < |srcBlocks| && DestsValid(dests) && |parts| == 3 && p < 3 && Distinct(progs)
    requires idx == 0 ==> forall q :: 0 <= q < 3 ==> dests[q].cur == 0
    requires PlaceParts(dests, srcBlocks, idx, parts, p) == Ok(ds)
    requires |progs| == 3 && Holds([progs[0].blocks, progs[1].blocks, progs[2].blocks], curs, ds)
    modifies progs[p]
    ensures var spec := PlaceParts(dests, srcBlocks, idx, parts, p + 1);
      (spec.Err? ==> r == Err(spec.error)) &&
      (spec.Ok? ==> r.Ok? && next == spec.value && Holds([progs[0].blocks, progs[1].blocks, progs[2].blocks], r.value, next))
  {
    next := PlacePartStep(dests, srcBlocks, idx, parts, p, ds);
    var placed := PlaceInto(progs[p], curs[p], srcBlocks, idx, parts[p]);
    if placed.Err? {
      return Err(placed.error), next;
    }
    return Ok(curs[p := placed.value]), next;
  }

  /** Placing part `p` once parts `0` to `p - 1` are placed; returns the parts after it. */
  lemma PlacePartStep(dests: seq<Dest>, srcBlocks: seq<Block>, idx: nat, parts: seq<seq<Op>>, p: nat, ds: seq<Dest>)
    returns (next: seq<Dest>)
    requires DestsValid(dests) && Arena(srcBlocks) && idx < |srcBlocks| && |parts| == 3 && p < 3
    requires idx == 0 ==> forall q :: 0 <= q < 3 ==> dests[q].cur == 0
    requires PlaceParts(dests, srcBlocks, idx, parts, p) == Ok(ds)
    ensures DestValid(ds[p]) && ds[p] == dests[p]
    ensures PlaceBlock(ds[p], srcBlocks, idx, parts[p]).Err? ==>
      PlaceParts(dests, srcBlocks, idx, parts, p + 1) == Err(PlaceBlock(ds[p], srcBlocks, idx, parts[p]).error)
    ensures PlaceBlock(ds[p], srcBlocks, idx, parts[p]).Ok? ==>
      next == ds[p := PlaceBlock(ds[p], srcBlocks, idx, parts[p]).value] &&
      PlaceParts(dests, srcBlocks, idx, parts, p + 1) == Ok(next)
  {
    var r := PlaceBlock(ds[p], srcBlocks, idx, parts[p]);
    next := if r.Ok? then ds[p := r.value] else ds;
  }

  lemma {:induction false} PlacePartsErrorPersists(dests: seq<Dest>, srcBlocks: seq<Block>, idx: nat, parts: seq<seq<Op>>, p: nat, k: nat)
    requires DestsValid(dests) && Arena(srcBlocks) && idx < |srcBlocks| && |parts| == 3 && p <= k <= 3
    requires idx == 0 ==> forall q :: 0 <= q < 3 ==> dests[q].cur == 0
    requires PlaceParts(dests, srcBlocks, idx, parts, p).Err?
    ensures PlaceParts(dests, srcBlocks, idx, parts, k) == PlaceParts(dests, srcBlocks, idx, parts, p)
    decreases k - p
  {
    if p < k {
      PlacePartsErrorPersists(dests, srcBlocks, idx, parts, p, k - 1);
    }
  }

  /** One part's operators of a source block placed in its destination program. */
  method PlaceInto(dst: Program, cur: nat, srcBlocks: seq<Block>, idx: nat, ops: seq<Op>) returns (r: Result<nat>)
    requires DestValid(Dest(dst.blocks, cur)) && Arena(srcBlocks) && idx < |srcBlocks| && (idx == 0 ==> cur == 0)
    modifies dst
    ensures var spec := PlaceBlock(Dest(old(dst.blocks), cur), srcBlocks, idx, ops);
      (spec.Err? ==> r == Err(spec.error)) && (spec.Ok? ==> r == Ok(spec.value.cur) && dst.blocks == spec.value.blocks)
  {
    if idx == 0 {
      AddOpsInto(srcBlocks, 0, dst, 0, ops);
      return Ok(0);
    }
    if |ops| > 0 {
      var created := CreateBlock(dst, srcBlocks[idx].parent, srcBlocks[idx].forwardBlock);
      if created.Err? {
        return created;
      }
      AddOpsInto(srcBlocks, idx, dst, created.value, ops);
      return created;
    }
    return Ok(cur);
  }

  /**
    `prog._create_block(parent_idx)` followed by `_set_forward_block_idx`: a
    new empty block at the end, or the `IndexError` of looking up a parent
    the program does not have.
   */
  method CreateBlock(dst: Program, parent: int, forwardBlock: int) returns (r: Result<nat>)
    requires dst.Valid() && parent >= 0
    modifies dst
    ensures dst.Valid()
    ensures parent >= |old(dst.blocks)| ==> r == Err(RangeError) && dst.blocks == old(dst.blocks)
    ensures parent < |old(dst.blocks)| ==>
      r == Ok(|old(dst.blocks)|) && dst.blocks == old(dst.blocks) + [Block([], map[], parent, forwardBlock)]
  {
    if parent >= |dst.blocks| {
      return Err(RangeError);
    }
    var n := |dst.blocks|;
    dst.blocks := dst.blocks + [Block([], map[], parent, forwardBlock)];
    return Ok(n);
  }

  /** `_add_ops_into_block`. */
  method AddOpsInto(srcBlocks: seq<Block>, s: nat, dst: Program, d: nat, ops: seq<Op>)
    requires Arena(srcBlocks) && s < |srcBlocks| && dst.Valid() && d < |dst.blocks|
    modifies dst
    ensures dst.Valid() && dst.blocks == AddOps(old(dst.blocks), d, srcBlocks, s, ops)
  {
    ghost var blocks0 := dst.blocks;
    for i := 0 to |ops|
      invariant dst.Valid() && dst.blocks == AddOps(blocks0, d, srcBlocks, s, ops[..i])
    {
      assert ops[..i + 1][..i] == ops[..i] && ops[..i + 1][i] == ops[i];
      CreateProgram(srcBlocks, s, dst, d, ops[i], false);
    }
    assert ops[..|ops|] == ops;
  }

  /** The fetch loop of one source block. */
  method RouteFetchesInto(progs: seq<Program>, curs: seq<nat>, ghost dests: seq<Dest>, srcBlocks: seq<Block>, idx: nat)
    returns (err: Option<Error>)
    requires Arena(srcBlocks) && idx < |srcBlocks| && DestsValid(dests) && |progs| == 3 && Holds([progs[0].blocks, progs[1].blocks, progs[2].blocks], curs, dests) && Distinct(progs)
    modifies progs
    ensures var spec := RouteFetches(dests, srcBlocks, idx, srcBlocks[idx].ops, |srcBlocks[idx].ops|);
      (spec.Err? ==> err == Some(spec.error)) && (spec.Ok? ==> err.None? && Holds([progs[0].blocks, progs[1].blocks, progs[2].blocks], curs, spec.value))
  {
    var ops := srcBlocks[idx].ops;
    ghost var ds := dests;
    for i := 0 to |ops|
      invariant RouteFetches(dests, srcBlocks, idx, ops, i) == Ok(ds) && Holds([progs[0].blocks, progs[1].blocks, progs[2].blocks], curs, ds)
    {
      if IsFetch(ops[i]) {
        var e := RouteFetchInto(progs, curs, ds, srcBlocks, idx, ops[i]);
        if e.Some? {
          RouteFetchesErrorPersists(dests, srcBlocks, idx, ops, i + 1, |ops|);
          return e;
        }
        ds := RouteFetch(ds, srcBlocks, idx, ops[i]).value;
      }
    }
    return None;
  }

  lemma {:induction false} RouteFetchesErrorPersists(dests: seq<Dest>, srcBlocks: seq<Block>, idx: nat, ops: seq<Op>, i: nat, k: nat)
    requires DestsValid(dests) && Arena(srcBlocks) && idx < |srcBlocks| && i <= k <= |ops|
    requires RouteFetches(dests, srcBlocks, idx, ops, i).Err?
    ensures RouteFetches(dests, srcBlocks, idx, ops, k) == RouteFetches(dests, srcBlocks, idx, ops, i)
    decreases k - i
  {
    if i < k {
      RouteFetchesErrorPersists(dests, srcBlocks, idx, ops, i, k - 1);
    }
  }

  /** One fetch operator: the first destination block that resolves its input gets a copy. */
  method RouteFetchInto(progs: seq<Program>, curs: seq<nat>, ghost dests: seq<Dest>, srcBlocks: seq<Block>, idx: nat, op: Op)
    returns (err: Option<Error>)
    requires Arena(srcBlocks) && idx < |srcBlocks| && DestsValid(dests) && |progs| == 3 && Holds([progs[0].blocks, progs[1].blocks, progs[2].blocks], curs, dests) && Distinct(progs)
    modifies progs
    ensures var spec := RouteFetch(dests, srcBlocks, idx, op);
      (spec.Err? ==> err == Some(spec.error)) && (spec.Ok? ==> err.None? && Holds([progs[0].blocks, progs[1].blocks, progs[2].blocks], curs, spec.value))
  {
    if |InputArgNames(op)| == 0 {
      return Some(RangeError);
    }
    var inName := InputArgNames(op)[0];
    var q := 0;
    while q < 3 && FindVar(progs[q].blocks, curs[q], inName).None?
      invariant q <= 3 && FirstResolving(dests, inName, q) == FirstResolving(dests, inName, 0)
    {
      q := q + 1;
    }
    if q < 3 {
      CreateProgram(srcBlocks, idx, progs[q], curs[q], op, false);
    }
    return None;
  }

  // ---------------------------------------------------------------------
  // Properties of the cut

  /** Whether `ops` holds no fetch operator. */
  predicate NoFetch(ops: seq<Op>)
  {
    forall k :: 0 <= k < |ops| ==> !IsFetch(ops[k])
  }

  /**
    A fetch goes to the current block of the first part, in the order
    forward, backward, optimize, whose current block resolves its first
    input, at the end of that block, and nothing else changes; when no part
    resolves it, it is dropped.
   */
  lemma RouteFetchTarget(dests: seq<Dest>, srcBlocks: seq<Block>, idx: nat, op: Op)
    requires DestsValid(dests) && Arena(srcBlocks) && idx < |srcBlocks| && |InputArgNames(op)| > 0
    ensures var r := RouteFetch(dests, srcBlocks, idx, op);
      var q := FirstResolving(dests, InputArgNames(op)[0], 0);
      r.Ok? &&
      (q.None? ==> r.value == dests) &&
      (q.Some? ==>
        (forall p :: 0 <= p < 3 && p != q.value ==> r.value[p] == dests[p]) &&
        r.value[q.value].cur == dests[q.value].cur && |r.value[q.value].blocks| == |dests[q.value].blocks| &&
        r.value[q.value].blocks[dests[q.value].cur].ops == dests[q.value].blocks[dests[q.value].cur].ops + [op])
  {
  }

  /** Without fetch operators, attaching the fetches changes nothing. */
  lemma {:induction false} RouteFetchesNone(dests: seq<Dest>, srcBlocks: seq<Block>, idx: nat, ops: seq<Op>, i: nat)
    requires DestsValid(dests) && Arena(srcBlocks) && idx < |srcBlocks| && i <= |ops| && NoFetch(ops)
    ensures RouteFetches(dests, srcBlocks, idx, ops, i) == Ok(dests)
    decreases i
  {
    if i > 0 {
      RouteFetchesNone(dests, srcBlocks, idx, ops, i - 1);
      assert !IsFetch(ops[i - 1]);
    }
  }

  /** Source block 0 goes into every part's global block: each part gets its operators appended there. */
  lemma {:induction false} PlacePartsGlobal(dests: seq<Dest>, srcBlocks: seq<Block>, parts: seq<seq<Op>>, p: nat)
    requires DestsValid(dests) && Arena(srcBlocks) && |parts| == 3 && p <= 3
    requires forall q :: 0 <= q < 3 ==> dests[q].cur == 0
    ensures PlaceParts(dests, srcBlocks, 0, parts, p).Ok?
    ensures forall q :: 0 <= q < p ==>
      |PlaceParts(dests, srcBlocks, 0, parts, p).value[q].blocks| == |dests[q].blocks| &&
      PlaceParts(dests, srcBlocks, 0, parts, p).value[q].blocks[0].ops == dests[q].blocks[0].ops + parts[q]
    decreases p
  {
    if p > 0 {
      PlacePartsGlobal(dests, srcBlocks, parts, p - 1);
      var ds := PlaceParts(dests, srcBlocks, 0, parts, p - 1).value;
      assert ds[p - 1] == dests[p - 1];
      PlaceBlockShape(ds[p - 1], srcBlocks, 0, parts[p - 1]);
    }
  }

  /** The cut after the first source block is that block's cut into three fresh programs. */
  lemma PartitionFirst(blocks: seq<Block>, cls: RoleClassifier)
    requires Arena(blocks)
    ensures PartitionUpTo(blocks, cls, 1) == PartitionBlock(InitialDests, blocks, cls, 0)
  {
    assert PartitionUpTo(blocks, cls, 0) == Ok(InitialDests);
  }

  /**
    A one-block program without fetch operators is cut exactly when every
    operator has a role, and then each part is one block holding the
    operators of its role in their original order.
   */
  lemma SingleBlockParts(blocks: seq<Block>, cls: RoleClassifier)
    requires Arena(blocks) && |blocks| == 1 && NoFetch(blocks[0].ops)
    ensures PartsOf(blocks, cls).Ok? <==> Classified(blocks[0].ops, cls)
    ensures PartsOf(blocks, cls).Ok? ==> forall q :: 0 <= q < 3 ==>
      |PartsOf(blocks, cls).value[q]| == 1 && PartsOf(blocks, cls).value[q][0].ops == RoleOps(blocks[0].ops, cls, q)
  {
    if Classified(blocks[0].ops, cls) {
      var ds := ClassifiedGlobalCut(blocks, cls);
    } else {
      GlobalBlockRoleError(blocks, cls);
    }
  }

  lemma ClassifiedGlobalCut(blocks: seq<Block>, cls: RoleClassifier) returns (ds: seq<Dest>)
    requires Arena(blocks) && |blocks| == 1 && NoFetch(blocks[0].ops) && Classified(blocks[0].ops, cls)
    ensures PartitionUpTo(blocks, cls, 1) == Ok(ds)
    ensures forall q :: 0 <= q < 3 ==> |ds[q].blocks| == 1 && ds[q].blocks[0].ops == RoleOps(blocks[0].ops, cls, q)
  {
    var ops := blocks[0].ops;
    SplitOpsIsFilter(ops, cls);
    PartitionFirst(blocks, cls);
    var parts := SplitOps(ops, cls).value;
    assert forall q :: 0 <= q < 3 ==> InitialDests[q] == Dest([EmptyGlobalBlock], 0);
    PlacePartsGlobal(InitialDests, blocks, parts, 3);
    ds := PlaceParts(InitialDests, blocks, 0, parts, 3).value;
    RouteFetchesNone(ds, blocks, 0, ops, |ops|);
    forall q | 0 <= q < 3
      ensures |ds[q].blocks| == 1 && ds[q].blocks[0].ops == RoleOps(ops, cls, q)
    {
      assert InitialDests[q].blocks[0].ops == [];
    }
  }

  /**
    An operator of the global block with no role fails the whole cut with its
    `ValueError`: the first such operator, every one before it having a role.
   */
  lemma GlobalBlockRoleError(blocks: seq<Block>, cls: RoleClassifier)
    requires Arena(blocks) && !Classified(blocks[0].ops, cls)
    ensures exists j :: (0 <= j < |blocks[0].ops| && !IsFetch(blocks[0].ops[j]) && RoleIndex(blocks[0].ops[j], cls).None? &&
      Classified(blocks[0].ops[..j], cls) && PartsOf(blocks, cls) == Err(RoleError(blocks[0].ops[j])))
  {
    var ops := blocks[0].ops;
    SplitOpsIsFilter(ops, cls);
    SplitOpsError(ops, cls);
    PartitionFirst(blocks, cls);
    PartitionErrorPersists(blocks, cls, 1, |blocks|);
  }
}
