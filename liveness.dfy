/**
  Which names an operator really needs (`OpInOutInfo`), whether a name may be
  garbage-collected (`var_can_be_deleted`), and the required-variable set of a
  sub-program (step 1 of `set_skip_gc_vars`).
 */
module Liveness {
  import opened Ir
  import opened Dataflow

  /** The names bound to the slots of `slots` whose slot name is not in `noNeed`. */
  function SlotNames(slots: seq<Slot>, noNeed: set<string>): set<string>
    decreases |slots|
  {
    if slots == [] then {}
    else
      var last := slots[|slots| - 1];
      SlotNames(slots[..|slots| - 1], noNeed) + (if last.name in noNeed then {} else Elems(last.args))
  }

  lemma {:induction false} SlotNamesMember(slots: seq<Slot>, noNeed: set<string>, x: string)
    ensures x in SlotNames(slots, noNeed) <==>
      exists i :: 0 <= i < |slots| && slots[i].name !in noNeed && x in slots[i].args
    decreases |slots|
  {
    if slots != [] {
      var pre := slots[..|slots| - 1];
      SlotNamesMember(pre, noNeed, x);
      if exists i :: 0 <= i < |slots| && slots[i].name !in noNeed && x in slots[i].args {
        var i :| 0 <= i < |slots| && slots[i].name !in noNeed && x in slots[i].args;
        if i < |pre| { assert pre[i] == slots[i]; }
      }
      if x in SlotNames(pre, noNeed) {
        var i :| 0 <= i < |pre| && pre[i].name !in noNeed && x in pre[i].args;
        assert slots[i] == pre[i];
      }
    }
  }

  /** The names an operator binds outside its no-need-buffer slots. */
  function KeptNames(op: Op, noNeed: set<string>): set<string>
  {
    SlotNames(op.inputs, noNeed) + SlotNames(op.outputs, noNeed)
  }

  /** `is_needed` after `build_info(op)` on a fresh record, when the registry says `noNeed`. */
  predicate Needed(op: Op, noNeed: set<string>, x: string)
  {
    noNeed == {} || x in KeptNames(op, noNeed)
  }

  /**
    With no no-need-buffer slots every name is needed; otherwise exactly the
    names bound to some slot outside the no-need set, also when they are bound
    to a no-need slot as well.
   */
  lemma NeededMember(op: Op, noNeed: set<string>, x: string)
    ensures Needed(op, noNeed, x) <==> (noNeed == {} ||
      (exists i :: 0 <= i < |op.inputs| && op.inputs[i].name !in noNeed && x in op.inputs[i].args) ||
      (exists i :: 0 <= i < |op.outputs| && op.outputs[i].name !in noNeed && x in op.outputs[i].args))
  {
    SlotNamesMember(op.inputs, noNeed, x);
    SlotNamesMember(op.outputs, noNeed, x);
  }

  /** A name in a no-need slot only is not needed. */
  lemma NoNeedOnlyNotNeeded(op: Op, noNeed: set<string>, x: string)
    requires noNeed != {}
    requires forall i :: 0 <= i < |op.inputs| && x in op.inputs[i].args ==> op.inputs[i].name in noNeed
    requires forall i :: 0 <= i < |op.outputs| && x in op.outputs[i].args ==> op.outputs[i].name in noNeed
    ensures !Needed(op, noNeed, x)
  {
    NeededMember(op, noNeed, x);
  }

  /** `OpInOutInfo`: the no-need-buffer slots of one operator and the names it binds elsewhere. */
  class OpInOutInfo {
    var isBuild: bool
    var noNeedBufferSlots: set<string>
    var otherArgNamesSet: set<string>

    constructor ()
      ensures !isBuild && noNeedBufferSlots == {} && otherArgNamesSet == {}
    {
      isBuild := false;
      noNeedBufferSlots := {};
      otherArgNamesSet := {};
    }

    /** `build_info(op)`; `registry` stands for `core.infer_no_need_buffer_slots`. */
    method BuildInfo(op: Op, registry: Op -> set<string>)
      modifies this
      ensures noNeedBufferSlots == registry(op)
      ensures registry(op) == {} ==> isBuild == old(isBuild) && otherArgNamesSet == old(otherArgNamesSet)
      ensures registry(op) != {} ==> isBuild && otherArgNamesSet == old(otherArgNamesSet) + KeptNames(op, registry(op))
    {
      noNeedBufferSlots := registry(op);
      if |noNeedBufferSlots| == 0 {
        return;
      }
      AddSlotNames(op.inputs);
      ghost var mid := otherArgNamesSet;
      AddSlotNames(op.outputs);
      isBuild := true;
    }

    /** One of the two slot loops of `build_info`. */
    method AddSlotNames(slots: seq<Slot>)
      modifies this
      ensures otherArgNamesSet == old(otherArgNamesSet) + SlotNames(slots, noNeedBufferSlots)
      ensures isBuild == old(isBuild) && noNeedBufferSlots == old(noNeedBufferSlots)
    {
      for s := 0 to |slots|
        invariant otherArgNamesSet == old(otherArgNamesSet) + SlotNames(slots[..s], noNeedBufferSlots)
        invariant isBuild == old(isBuild) && noNeedBufferSlots == old(noNeedBufferSlots)
      {
        var slot := slots[s];
        assert slots[..s + 1][..s] == slots[..s];
        if slot.name !in noNeedBufferSlots {
          for a := 0 to |slot.args|
            invariant otherArgNamesSet == old(otherArgNamesSet) + SlotNames(slots[..s], noNeedBufferSlots) + Elems(slot.args[..a])
            invariant isBuild == old(isBuild) && noNeedBufferSlots == old(noNeedBufferSlots)
          {
            ElemsSnoc(slot.args, a);
            otherArgNamesSet := otherArgNamesSet + {slot.args[a]};
          }
          assert slot.args[..|slot.args|] == slot.args;
        }
      }
      assert slots[..|slots|] == slots;
    }

    /** `is_needed(arg_name)`. */
    predicate IsNeeded(argName: string)
      reads this
    {
      |noNeedBufferSlots| == 0 || argName in otherArgNamesSet
    }
  }

  /**
    `var_can_be_deleted(name, block)`: the nearest declaration of `name` on the
    block's parent chain exists and is not persistable.
   */
  predicate VarCanBeDeleted(blocks: seq<Block>, b: nat, name: string)
    requires Arena(blocks) && b < |blocks|
  {
    var v := FindVar(blocks, b, name);
    v.Some? && !v.value.persistable
  }

  /** A local declaration shadows the outer ones; an undeclared name is never deletable. */
  lemma VarCanBeDeletedCases(blocks: seq<Block>, b: nat, name: string)
    requires Arena(blocks) && b < |blocks|
    ensures name in blocks[b].vars ==> (VarCanBeDeleted(blocks, b, name) <==> !blocks[b].vars[name].persistable)
    ensures (forall k :: 0 <= k < |Ancestors(blocks, b)| ==> name !in blocks[Ancestors(blocks, b)[k]].vars) ==>
      !VarCanBeDeleted(blocks, b, name)
    ensures VarCanBeDeleted(blocks, b, name) ==> exists k :: (0 <= k < |Ancestors(blocks, b)| &&
      name in blocks[Ancestors(blocks, b)[k]].vars && !blocks[Ancestors(blocks, b)[k]].vars[name].persistable)
  {
    FindVarChain(blocks, b, name);
  }

  /** The operator kinds step 1 of `set_skip_gc_vars` passes over. */
  predicate SkippedOpType(t: string)
  {
    t in ["c_sync_comm_stream", "conditional_block", "nop", "while"]
  }

  /** The names one operator of block `b` contributes to the required set. */
  ghost function OpRequired(blocks: seq<Block>, b: nat, registry: Op -> set<string>, op: Op): set<string>
  {
    if !(Arena(blocks) && b < |blocks|) || SkippedOpType(op.opType) then {}
    else DeletableNeeded(blocks, b, op, registry(op), InputArgNames(op) + OutputArgNames(op))
  }

  /** The names of `names` that may be deleted in block `b` and that `op` needs. */
  ghost function DeletableNeeded(blocks: seq<Block>, b: nat, op: Op, noNeed: set<string>, names: seq<string>): set<string>
    requires Arena(blocks) && b < |blocks|
    decreases |names|
  {
    if names == [] then {}
    else
      var x := names[|names| - 1];
      DeletableNeeded(blocks, b, op, noNeed, names[..|names| - 1]) +
      (if VarCanBeDeleted(blocks, b, x) && Needed(op, noNeed, x) then {x} else {})
  }

  lemma {:induction false} DeletableNeededMember(blocks: seq<Block>, b: nat, op: Op, noNeed: set<string>, names: seq<string>, x: string)
    requires Arena(blocks) && b < |blocks|
    ensures x in DeletableNeeded(blocks, b, op, noNeed, names) <==>
      x in names && VarCanBeDeleted(blocks, b, x) && Needed(op, noNeed, x)
    decreases |names|
  {
    if names != [] {
      DeletableNeededMember(blocks, b, op, noNeed, names[..|names| - 1], x);
      assert names == names[..|names| - 1] + [names[|names| - 1]];
    }
  }

  ghost function OpContribution(blocks: seq<Block>, b: nat, registry: Op -> set<string>): Op -> set<string>
  {
    op => OpRequired(blocks, b, registry, op)
  }

  /** The union of `f` over a list of operators. */
  ghost function OpsUnion(ops: seq<Op>, f: Op -> set<string>): set<string>
    decreases |ops|
  {
    if ops == [] then {} else OpsUnion(ops[..|ops| - 1], f) + f(ops[|ops| - 1])
  }

  /** The union of `g` over the indices `0 .. upto - 1`. */
  ghost function IndexUnion(upto: nat, g: nat -> set<string>): set<string>
    decreases upto
  {
    if upto == 0 then {} else IndexUnion(upto - 1, g) + g(upto - 1)
  }

  lemma {:induction false} OpsUnionMember(ops: seq<Op>, f: Op -> set<string>, m: nat, x: string)
    requires m <= |ops|
    ensures x in OpsUnion(ops[..m], f) <==> exists k :: 0 <= k < m && x in f(ops[k])
    decreases m
  {
    if m > 0 {
      assert ops[..m][..m - 1] == ops[..m - 1];
      OpsUnionMember(ops, f, m - 1, x);
    }
  }

  lemma {:induction false} IndexUnionMember(upto: nat, g: nat -> set<string>, x: string)
    ensures x in IndexUnion(upto, g) <==> exists b :: 0 <= b < upto && x in g(b)
    decreases upto
  {
    if upto > 0 {
      IndexUnionMember(upto - 1, g, x);
    }
  }

  /** The names block `b` contributes. */
  ghost function BlockRequired(blocks: seq<Block>, registry: Op -> set<string>, b: nat): set<string>
  {
    if b < |blocks| then OpsUnion(blocks[b].ops, OpContribution(blocks, b, registry)) else {}
  }

  ghost function BlockContribution(blocks: seq<Block>, registry: Op -> set<string>): nat -> set<string>
  {
    (b: nat) => BlockRequired(blocks, registry, b)
  }

  /** The required set of a sub-program: the union over its blocks and their operators. */
  ghost function ProgramRequired(blocks: seq<Block>, registry: Op -> set<string>): set<string>
  {
    IndexUnion(|blocks|, BlockContribution(blocks, registry))
  }

  /** An operator contributes exactly the deletable, needed names it binds, unless its kind is skipped. */
  lemma OpRequiredMember(blocks: seq<Block>, b: nat, op: Op, registry: Op -> set<string>, x: string)
    requires Arena(blocks) && b < |blocks|
    ensures x in OpRequired(blocks, b, registry, op) <==>
      !SkippedOpType(op.opType) && (x in InputArgNames(op) || x in OutputArgNames(op)) &&
      VarCanBeDeleted(blocks, b, x) && Needed(op, registry(op), x)
  {
    if !SkippedOpType(op.opType) {
      DeletableNeededMember(blocks, b, op, registry(op), InputArgNames(op) + OutputArgNames(op), x);
    }
  }

  /** Operator `k` of block `b` contributes `x` (see `OpRequiredMember`). */
  ghost predicate RequiredAt(blocks: seq<Block>, b: nat, k: nat, registry: Op -> set<string>, x: string)
    requires b < |blocks| && k < |blocks[b].ops|
  {
    x in OpContribution(blocks, b, registry)(blocks[b].ops[k])
  }

  /** A name is required iff some operator of some block contributes it. */
  lemma ProgramRequiredMember(blocks: seq<Block>, registry: Op -> set<string>, x: string)
    ensures x in ProgramRequired(blocks, registry) <==>
      exists b, k :: 0 <= b < |blocks| && 0 <= k < |blocks[b].ops| && RequiredAt(blocks, b, k, registry, x)
  {
    IndexUnionMember(|blocks|, BlockContribution(blocks, registry), x);
    forall b | 0 <= b < |blocks|
      ensures x in BlockContribution(blocks, registry)(b) <==>
        exists k :: 0 <= k < |blocks[b].ops| && RequiredAt(blocks, b, k, registry, x)
    {
      OpsUnionMember(blocks[b].ops, OpContribution(blocks, b, registry), |blocks[b].ops|, x);
      assert blocks[b].ops[..|blocks[b].ops|] == blocks[b].ops;
      assert forall k :: 0 <= k < |blocks[b].ops| ==>
        (RequiredAt(blocks, b, k, registry, x) <==> x in OpContribution(blocks, b, registry)(blocks[b].ops[k]));
    }
  }

  /** The per-operator body of step 1: build a fresh `OpInOutInfo` and keep the deletable, needed names. */
  method OpRequiredVars(blocks: seq<Block>, b: nat, op: Op, registry: Op -> set<string>) returns (req: set<string>)
    requires Arena(blocks) && b < |blocks| && !SkippedOpType(op.opType)
    ensures req == OpRequired(blocks, b, registry, op)
  {
    var opInfo := new OpInOutInfo();
    opInfo.BuildInfo(op, registry);
    ghost var noNeed := registry(op);
    assert opInfo.noNeedBufferSlots == noNeed;
    assert noNeed != {} ==> opInfo.otherArgNamesSet == KeptNames(op, noNeed);
    var names := InputArgNames(op) + OutputArgNames(op);
    req := {};
    for a := 0 to |names|
      invariant req == DeletableNeeded(blocks, b, op, noNeed, names[..a])
    {
      var argName := names[a];
      assert names[..a + 1][..a] == names[..a];
      assert opInfo.IsNeeded(argName) == Needed(op, noNeed, argName);
      if VarCanBeDeleted(blocks, b, argName) && opInfo.IsNeeded(argName) {
        req := req + {argName};
      }
    }
    assert names[..|names|] == names;
  }

  /** The operator loop of step 1 for one block. */
  method BlockRequiredVars(blocks: seq<Block>, b: nat, registry: Op -> set<string>) returns (req: set<string>)
    requires Arena(blocks) && b < |blocks|
    ensures req == BlockRequired(blocks, registry, b)
  {
    var ops := blocks[b].ops;
    ghost var f := OpContribution(blocks, b, registry);
    req := {};
    for k := 0 to |ops|
      invariant req == OpsUnion(ops[..k], f)
    {
      var op := ops[k];
      assert ops[..k + 1][..k] == ops[..k];
      if !SkippedOpType(op.opType) {
        var opReq := OpRequiredVars(blocks, b, op, registry);
        req := req + opReq;
      }
    }
    assert ops[..|ops|] == ops;
  }

  /** Step 1 of `set_skip_gc_vars` for one sub-program. */
  method RequiredVars(program: Program, registry: Op -> set<string>) returns (req: set<string>)
    requires program.Valid()
    ensures req == ProgramRequired(program.blocks, registry)
    ensures forall x :: x in req <==> exists b, k :: (0 <= b < |program.blocks| && 0 <= k < |program.blocks[b].ops| &&
      RequiredAt(program.blocks, b, k, registry, x))
  {
    var blocks := program.blocks;
    req := {};
    for b := 0 to |blocks|
      invariant req == IndexUnion(b, BlockContribution(blocks, registry))
    {
      var blockReq := BlockRequiredVars(blocks, b, registry);
      req := req + blockReq;
    }
    forall x ensures x in req <==> exists b, k :: (0 <= b < |blocks| && 0 <= k < |blocks[b].ops| &&
      RequiredAt(blocks, b, k, registry, x)) {
      ProgramRequiredMember(blocks, registry, x);
    }
  }
}
