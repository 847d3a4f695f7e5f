/**
  `prepare_ir_program`: at the boundary between two consecutive sub-programs,
  every name the first one writes and the second one reads, and that both may
  garbage-collect, is handed over through a `shadow_output` operator at the
  end of the first and a `data` operator at the front of the second.
 */
module Shadowing {
  import opened Ir
  import opened Names
  import opened Dataflow
  import opened Liveness

  /** The `shadow_output` operator appended for `v`. */
  function ShadowOutputOp(v: string): Op
  {
    Op("shadow_output", [Slot("x", [v])], [Slot("out", ["@EMPTY@"])], map["name" := AStr(v)], DefaultDistAttr)
  }

  /** The `data` operator prepended for `v`: empty shape, dtype 0, place 2 (a GPU place). */
  function DataOp(v: string): Op
  {
    Op("data", [], [Slot("out", [v])],
      map["shape" := AInts([]), "dtype" := AInt(0), "place" := AInt(2), "name" := AStr(v)], DefaultDistAttr)
  }

  /** The names some operator of the global block writes and the global block may delete. */
  ghost function DeletableOutputs(blocks: seq<Block>): set<string>
    requires Arena(blocks)
  {
    set x | x in WriteSet(blocks[0].ops) && VarCanBeDeleted(blocks, 0, x)
  }

  /** The names some operator of the global block reads and the global block may delete. */
  ghost function DeletableInputs(blocks: seq<Block>): set<string>
    requires Arena(blocks)
  {
    set x | x in ReadSet(blocks[0].ops) && VarCanBeDeleted(blocks, 0, x)
  }

  /** The handed-over names: deletable outputs of the first program that are deletable inputs of the second, ascending. */
  ghost function ShadowNames(cur: seq<Block>, next: seq<Block>): (r: seq<string>)
    requires Arena(cur) && Arena(next)
    ensures StrictlySorted(r)
    ensures forall x :: x in r <==> x in DeletableOutputs(cur) && x in DeletableInputs(next)
  {
    SortedOf(DeletableOutputs(cur) * DeletableInputs(next))
  }

  lemma ShadowNamesMember(cur: seq<Block>, next: seq<Block>, x: string)
    requires Arena(cur) && Arena(next)
    ensures x in ShadowNames(cur, next) <==>
      (exists k :: 0 <= k < |cur[0].ops| && x in OutputArgNames(cur[0].ops[k])) && VarCanBeDeleted(cur, 0, x) &&
      (exists k :: 0 <= k < |next[0].ops| && x in InputArgNames(next[0].ops[k])) && VarCanBeDeleted(next, 0, x)
  {
    WriteSetMember(cur[0].ops, x);
    ReadSetMember(next[0].ops, x);
  }

  /** The operators appended to the first program, in ascending name order. */
  function ShadowOps(names: seq<string>): seq<Op>
    decreases |names|
  {
    if names == [] then [] else ShadowOps(names[..|names| - 1]) + [ShadowOutputOp(names[|names| - 1])]
  }

  /** The operators in front of the second program: each `data` operator went to index 0. */
  function DataPrefix(names: seq<string>): seq<Op>
    decreases |names|
  {
    if names == [] then [] else [DataOp(names[|names| - 1])] + DataPrefix(names[..|names| - 1])
  }

  /** One `shadow_output` operator per name, in the order of the names. */
  lemma {:induction false} ShadowOpsAt(names: seq<string>)
    ensures |ShadowOps(names)| == |names|
    ensures forall k :: 0 <= k < |names| ==> ShadowOps(names)[k] == ShadowOutputOp(names[k])
    decreases |names|
  {
    if names != [] {
      ShadowOpsAt(names[..|names| - 1]);
    }
  }

  /** One `data` operator per name, in the reverse order of the names. */
  lemma {:induction false} DataPrefixAt(names: seq<string>)
    ensures |DataPrefix(names)| == |names|
    ensures forall k :: 0 <= k < |names| ==> DataPrefix(names)[k] == DataOp(names[|names| - 1 - k])
    decreases |names|
  {
    if names != [] {
      var pre := names[..|names| - 1];
      DataPrefixAt(pre);
      assert forall k :: 0 <= k < |pre| ==> DataPrefix(pre)[k] == DataOp(names[|names| - 2 - k]);
    }
  }

  /** So the second program starts with the `data` operator of the greatest handed-over name. */
  lemma DataPrefixStartsWithGreatest(names: seq<string>)
    requires StrictlySorted(names) && names != []
    ensures DataPrefix(names)[0] == DataOp(names[|names| - 1])
    ensures forall k :: 0 <= k < |names| ==> !StrLess(names[|names| - 1], names[k])
  {
    DataPrefixAt(names);
    forall k | 0 <= k < |names| ensures !StrLess(names[|names| - 1], names[k]) {
      if k < |names| - 1 {
        if StrLess(names[|names| - 1], names[k]) {
          StrLessTransitive(names[k], names[|names| - 1], names[k]);
          StrLessIrreflexive(names[k]);
        }
      } else {
        StrLessIrreflexive(names[k]);
      }
    }
  }

  /** Replace the global block's operators. */
  function WithGlobalOps(blocks: seq<Block>, ops: seq<Op>): (r: seq<Block>)
    requires Arena(blocks)
    ensures Arena(r) && |r| == |blocks| && r[0].ops == ops && r[1..] == blocks[1..]
    ensures r[0].vars == blocks[0].vars && r[0].parent == blocks[0].parent && r[0].forwardBlock == blocks[0].forwardBlock
  {
    var r := blocks[0 := blocks[0].(ops := ops)];
    assert forall i :: 0 < i < |r| ==> r[i] == blocks[i];
    r
  }

  lemma WithGlobalOpsSame(blocks: seq<Block>)
    requires Arena(blocks)
    ensures WithGlobalOps(blocks, blocks[0].ops) == blocks
  {
    var r := WithGlobalOps(blocks, blocks[0].ops);
    assert r[0] == blocks[0];
    assert forall i :: 0 < i < |r| ==> r[i] == r[1..][i - 1] == blocks[i];
  }

  lemma WithGlobalOpsTwice(blocks: seq<Block>, o1: seq<Op>, o2: seq<Op>)
    requires Arena(blocks)
    ensures WithGlobalOps(WithGlobalOps(blocks, o1), o2) == WithGlobalOps(blocks, o2)
  {
    var r1 := WithGlobalOps(WithGlobalOps(blocks, o1), o2);
    var r2 := WithGlobalOps(blocks, o2);
    assert r1[0] == r2[0];
    assert forall i :: 0 < i < |r1| ==> r1[i] == r1[1..][i - 1] == r2[1..][i - 1] == r2[i];
  }

  /** The deletable-output loop over the current program's global block. */
  method CollectDeletableOutputs(program: Program) returns (names: set<string>)
    requires program.Valid()
    ensures names == DeletableOutputs(program.blocks)
  {
    var blocks := program.blocks;
    var ops := blocks[0].ops;
    names := {};
    for k := 0 to |ops|
      invariant names == set x | x in WriteSet(ops[..k]) && VarCanBeDeleted(blocks, 0, x)
    {
      assert ops[..k + 1][..k] == ops[..k];
      var outs := OutputArgNames(ops[k]);
      ghost var before := names;
      for a := 0 to |outs|
        invariant names == before + set x | x in outs[..a] && VarCanBeDeleted(blocks, 0, x)
      {
        assert outs[..a + 1] == outs[..a] + [outs[a]];
        if VarCanBeDeleted(blocks, 0, outs[a]) {
          names := names + {outs[a]};
        }
      }
      assert outs[..|outs|] == outs;
    }
    assert ops[..|ops|] == ops;
  }

  /** The deletable-input loop over the next program's global block. */
  method CollectDeletableInputs(program: Program) returns (names: set<string>)
    requires program.Valid()
    ensures names == DeletableInputs(program.blocks)
  {
    var blocks := program.blocks;
    var ops := blocks[0].ops;
    names := {};
    for k := 0 to |ops|
      invariant names == set x | x in ReadSet(ops[..k]) && VarCanBeDeleted(blocks, 0, x)
    {
      assert ops[..k + 1][..k] == ops[..k];
      var ins := InputArgNames(ops[k]);
      ghost var before := names;
      for a := 0 to |ins|
        invariant names == before + set x | x in ins[..a] && VarCanBeDeleted(blocks, 0, x)
      {
        assert ins[..a + 1] == ins[..a] + [ins[a]];
        if VarCanBeDeleted(blocks, 0, ins[a]) {
          names := names + {ins[a]};
        }
      }
      assert ins[..|ins|] == ins;
    }
    assert ops[..|ops|] == ops;
  }

  /** The new global operators of the first program. */
  ghost function CurAfter(cur: seq<Block>, next: seq<Block>): seq<Block>
    requires Arena(cur) && Arena(next)
  {
    WithGlobalOps(cur, cur[0].ops + ShadowOps(ShadowNames(cur, next)))
  }

  /** The new global operators of the second program. */
  ghost function NextAfter(cur: seq<Block>, next: seq<Block>): seq<Block>
    requires Arena(cur) && Arena(next)
  {
    WithGlobalOps(next, DataPrefix(ShadowNames(cur, next)) + next[0].ops)
  }

  /** Both roles played by one program: `data` operators in front, `shadow_output` operators at the end. */
  ghost function SelfAfter(p: seq<Block>): seq<Block>
    requires Arena(p)
  {
    WithGlobalOps(p, DataPrefix(ShadowNames(p, p)) + p[0].ops + ShadowOps(ShadowNames(p, p)))
  }

  /** Equal components make equal block lists. */
  lemma WithGlobalOpsChar(blocks: seq<Block>, ops: seq<Op>, r: seq<Block>)
    requires Arena(blocks) && |r| == |blocks| && r[1..] == blocks[1..] && r[0] == blocks[0].(ops := ops)
    ensures r == WithGlobalOps(blocks, ops)
  {
    var w := WithGlobalOps(blocks, ops);
    assert forall i :: 0 < i < |r| ==> r[i] == r[1..][i - 1] == w[1..][i - 1] == w[i];
  }

  /** The global blocks of both programs after handing over `v`; `alias` when they are one program. */
  ghost function HandOverStep(c: seq<Block>, n: seq<Block>, alias: bool, v: string): (r: (seq<Block>, seq<Block>))
    requires Arena(c) && Arena(n)
    ensures Arena(r.0) && Arena(r.1)
  {
    if alias then
      var c' := WithGlobalOps(c, [DataOp(v)] + c[0].ops + [ShadowOutputOp(v)]);
      (c', c')
    else (WithGlobalOps(c, c[0].ops + [ShadowOutputOp(v)]), WithGlobalOps(n, [DataOp(v)] + n[0].ops))
  }

  /** The global blocks of both programs after handing over every name of `names`, in order. */
  ghost function HandOverAll(c: seq<Block>, n: seq<Block>, alias: bool, names: seq<string>): (r: (seq<Block>, seq<Block>))
    requires Arena(c) && Arena(n)
    ensures Arena(r.0) && Arena(r.1)
    decreases |names|
  {
    if names == [] then (c, n)
    else
      var mid := HandOverAll(c, n, alias, names[..|names| - 1]);
      HandOverStep(mid.0, mid.1, alias, names[|names| - 1])
  }

  /** Two programs: the first gains the `shadow_output` operators at its end, the second the `data` operators in front. */
  lemma {:induction false} HandOverAllSeparate(c: seq<Block>, n: seq<Block>, names: seq<string>)
    requires Arena(c) && Arena(n)
    ensures HandOverAll(c, n, false, names) ==
      (WithGlobalOps(c, c[0].ops + ShadowOps(names)), WithGlobalOps(n, DataPrefix(names) + n[0].ops))
    decreases |names|
  {
    if names == [] {
      WithGlobalOpsSame(c);
      WithGlobalOpsSame(n);
      assert c[0].ops + [] == c[0].ops && [] + n[0].ops == n[0].ops;
    } else {
      var pre := names[..|names| - 1];
      var v := names[|names| - 1];
      HandOverAllSeparate(c, n, pre);
      WithGlobalOpsTwice(c, c[0].ops + ShadowOps(pre), c[0].ops + ShadowOps(pre) + [ShadowOutputOp(v)]);
      WithGlobalOpsTwice(n, DataPrefix(pre) + n[0].ops, [DataOp(v)] + (DataPrefix(pre) + n[0].ops));
      assert c[0].ops + ShadowOps(pre) + [ShadowOutputOp(v)] == c[0].ops + ShadowOps(names);
      assert [DataOp(v)] + (DataPrefix(pre) + n[0].ops) == DataPrefix(names) + n[0].ops;
    }
  }

  /** One program: both kinds of operator go into its global block. */
  lemma {:induction false} HandOverAllAliased(c: seq<Block>, names: seq<string>)
    requires Arena(c)
    ensures HandOverAll(c, c, true, names).0 == HandOverAll(c, c, true, names).1
    ensures HandOverAll(c, c, true, names).0 == WithGlobalOps(c, DataPrefix(names) + c[0].ops + ShadowOps(names))
    decreases |names|
  {
    if names == [] {
      WithGlobalOpsSame(c);
      assert [] + c[0].ops + [] == c[0].ops;
    } else {
      var pre := names[..|names| - 1];
      var v := names[|names| - 1];
      HandOverAllAliased(c, pre);
      var mid := DataPrefix(pre) + c[0].ops + ShadowOps(pre);
      WithGlobalOpsTwice(c, mid, [DataOp(v)] + mid + [ShadowOutputOp(v)]);
      assert [DataOp(v)] + mid + [ShadowOutputOp(v)] == DataPrefix(names) + c[0].ops + ShadowOps(names);
    }
  }

  /** One iteration of the loop of `prepare_ir_program`, for the name `v`. */
  method HandOverOne(cur: Program, next: Program, v: string)
    requires cur.Valid() && next.Valid()
    modifies cur, next
    ensures cur.Valid() && next.Valid()
    ensures (cur.blocks, next.blocks) == HandOverStep(old(cur.blocks), old(next.blocks), cur == next, v)
  {
    ghost var c0 := cur.blocks;
    cur.blocks := WithGlobalOps(cur.blocks, cur.blocks[0].ops + [ShadowOutputOp(v)]);
    next.blocks := WithGlobalOps(next.blocks, [DataOp(v)] + next.blocks[0].ops);
    if cur == next {
      WithGlobalOpsTwice(c0, c0[0].ops + [ShadowOutputOp(v)], [DataOp(v)] + (c0[0].ops + [ShadowOutputOp(v)]));
      assert [DataOp(v)] + (c0[0].ops + [ShadowOutputOp(v)]) == [DataOp(v)] + c0[0].ops + [ShadowOutputOp(v)];
    }
  }

  /** The loop of `prepare_ir_program`: one `shadow_output` appended and one `data` prepended per name. */
  method HandOver(cur: Program, next: Program, names: seq<string>)
    requires cur.Valid() && next.Valid()
    modifies cur, next
    ensures cur.Valid() && next.Valid()
    ensures (cur.blocks, next.blocks) == HandOverAll(old(cur.blocks), old(next.blocks), cur == next, names)
  {
    ghost var cur0, next0 := cur.blocks, next.blocks;
    for i := 0 to |names|
      invariant cur.Valid() && next.Valid()
      invariant (cur.blocks, next.blocks) == HandOverAll(cur0, next0, cur == next, names[..i])
    {
      assert names[..i + 1][..i] == names[..i];
      HandOverOne(cur, next, names[i]);
    }
    assert names[..|names|] == names;
  }

  /** `prepare_ir_program(cur_prog, next_prog)`. */
  method PrepareIrProgram(cur: Program, next: Program)
    requires cur.Valid() && next.Valid()
    modifies cur, next
    ensures cur.Valid() && next.Valid()
    ensures cur != next ==> (cur.blocks == CurAfter(old(cur.blocks), old(next.blocks)) &&
      next.blocks == NextAfter(old(cur.blocks), old(next.blocks)))
    ensures cur == next ==> cur.blocks == SelfAfter(old(cur.blocks))
  {
    var setOutputNames := CollectDeletableOutputs(cur);
    var setInputNames := CollectDeletableInputs(next);
    var shadowVarNames := SortedNames(setOutputNames * setInputNames);
    SortedUnique(shadowVarNames, ShadowNames(cur.blocks, next.blocks));
    ghost var cur0, next0 := cur.blocks, next.blocks;
    HandOver(cur, next, shadowVarNames);
    if cur != next {
      HandOverAllSeparate(cur0, next0, shadowVarNames);
    } else {
      HandOverAllAliased(cur0, shadowVarNames);
    }
  }
}
