/**
  The intermediate representation the pipeline passes work on: operators with
  named input/output slots and an attribute map, blocks that hold operators and
  variable declarations, and programs that are arenas of blocks linked by a
  parent index.
 */
module Ir {

  datatype Option<T> = None | Some(value: T)

  /** The Python exceptions the passes raise, by class. */
  datatype Error =
    | AssertionFailed(what: string)
    | IndexError(what: string)
    | KeyError(key: string)
    | ValueError(what: string)
    | TypeError(what: string)

  datatype Result<T> = Ok(value: T) | Err(error: Error)

  /** Variable kinds (`core.VarDesc.VarType`). */
  datatype VarType =
    | LodTensor
    | SelectedRows
    | LodTensorArray
    | Reader
    | StepScopes
    | FeedMinibatch
    | FetchList
    | OtherType(code: int)

  /** The kinds that carry no shape or dtype (`__not_shape_var_type__`). */
  predicate IsNotShapeType(t: VarType)
  {
    t in {Reader, StepScopes, LodTensorArray, FeedMinibatch, FetchList}
  }

  /** Shape, dtype and LoD level of a tensor declaration. */
  datatype TensorMeta = TensorMeta(shape: seq<int>, dtype: int, lodLevel: int)

  /** A variable declaration; `meta` is None for a kind-only declaration. */
  datatype VarDesc = VarDesc(vtype: VarType, persistable: bool, isParameter: bool, meta: Option<TensorMeta>)

  /** Operator attribute values. */
  datatype Attr = AInt(i: int) | ABool(b: bool) | AStr(s: string) | AInts(ints: seq<int>)

  /** The distributed attributes the executor reads (`op.dist_attr`). */
  datatype DistAttr = DistAttr(
    executionStream: string,
    streamPriority: int,
    forceRecordEvent: bool,
    eventToRecord: string,
    eventsToWait: seq<string>)

  const DefaultDistAttr := DistAttr("default", 0, false, "", [])

  /** A named argument slot and the variable names bound to it, in order. */
  datatype Slot = Slot(name: string, args: seq<string>)

  datatype Op = Op(
    opType: string,
    inputs: seq<Slot>,
    outputs: seq<Slot>,
    attrs: map<string, Attr>,
    dist: DistAttr)

  /** `OpRole` values. */
  const RoleForward: int := 0
  const RoleBackward: int := 1
  const RoleOptimize: int := 2

  /** The names of a slot list, slot by slot, in order. */
  function ArgNames(slots: seq<Slot>): (r: seq<string>)
    ensures |slots| == 0 ==> r == []
  {
    if slots == [] then [] else slots[0].args + ArgNames(slots[1..])
  }

  lemma {:induction false} ArgNamesMember(slots: seq<Slot>, x: string)
    ensures x in ArgNames(slots) <==> exists i :: 0 <= i < |slots| && x in slots[i].args
  {
    if slots != [] {
      ArgNamesMember(slots[1..], x);
      if x in ArgNames(slots) && x !in slots[0].args {
        var i :| 0 <= i < |slots[1..]| && x in slots[1..][i].args;
        assert x in slots[i + 1].args;
      }
      if exists i :: 0 <= i < |slots| && x in slots[i].args {
        var i :| 0 <= i < |slots| && x in slots[i].args;
        if i > 0 {
          assert x in slots[1..][i - 1].args;
        }
      }
    }
  }

  /** `op.input_arg_names`: all input names, slot by slot. */
  function InputArgNames(op: Op): seq<string>
  {
    ArgNames(op.inputs)
  }

  /** `op.output_arg_names`: all output names, slot by slot. */
  function OutputArgNames(op: Op): seq<string>
  {
    ArgNames(op.outputs)
  }

  /** `op.attr('op_role')`; the attribute's registered default is Forward. */
  function Role(op: Op): int
  {
    if "op_role" in op.attrs && op.attrs["op_role"].AInt? then op.attrs["op_role"].i else RoleForward
  }

  /** `op.attr('ring_id')`; the attribute's registered default is 0. */
  function RingId(op: Op): int
  {
    if "ring_id" in op.attrs && op.attrs["ring_id"].AInt? then op.attrs["ring_id"].i else 0
  }

  /** An operator with one input slot `X` and one output slot `Out`, both bound to `v`. */
  function XToOutOp(opType: string, v: string, attrs: map<string, Attr>): Op
  {
    Op(opType, [Slot("X", [v])], [Slot("Out", [v])], attrs, DefaultDistAttr)
  }

  /** `is_forward_op`, `is_backward_op`, `is_optimize_op`: given, not computed here. */
  datatype RoleClassifier = RoleClassifier(
    isForward: Op -> bool,
    isBackward: Op -> bool,
    isOptimize: Op -> bool)

  /** A block: operators in execution order, declarations, parent and forward block indices. */
  datatype Block = Block(ops: seq<Op>, vars: map<string, VarDesc>, parent: int, forwardBlock: int)

  const EmptyGlobalBlock := Block([], map[], -1, -1)

  /** A well-formed block arena: block 0 is the root and every other block's parent comes before it. */
  predicate Arena(blocks: seq<Block>)
  {
    |blocks| > 0 && blocks[0].parent == -1 &&
    forall i :: 0 < i < |blocks| ==> 0 <= blocks[i].parent < i
  }

  /** The blocks searched by a recursive lookup from block `i`: `i`, its parent, and so on up to the root. */
  function Ancestors(blocks: seq<Block>, i: nat): (r: seq<nat>)
    requires Arena(blocks) && i < |blocks|
    ensures |r| > 0 && r[0] == i
    ensures forall k :: 0 <= k < |r| ==> r[k] < |blocks|
    decreases i
  {
    if i == 0 then [0] else [i] + Ancestors(blocks, blocks[i].parent)
  }

  /** `block._find_var_recursive(name)` along the parent chain. */
  function FindVar(blocks: seq<Block>, i: nat, name: string): (r: Option<VarDesc>)
    requires Arena(blocks) && i < |blocks|
    ensures name in blocks[i].vars ==> r == Some(blocks[i].vars[name])
    decreases i
  {
    if name in blocks[i].vars then Some(blocks[i].vars[name])
    else if i == 0 then None
    else FindVar(blocks, blocks[i].parent, name)
  }

  /**
    The lookup finds nothing iff no block on the chain declares the name, and
    what it finds is the declaration of some block on the chain.
   */
  lemma {:induction false} FindVarChain(blocks: seq<Block>, i: nat, name: string)
    requires Arena(blocks) && i < |blocks|
    ensures FindVar(blocks, i, name).None? ==>
      forall k :: 0 <= k < |Ancestors(blocks, i)| ==> name !in blocks[Ancestors(blocks, i)[k]].vars
    ensures (forall k :: 0 <= k < |Ancestors(blocks, i)| ==> name !in blocks[Ancestors(blocks, i)[k]].vars) ==> FindVar(blocks, i, name).None?
    ensures FindVar(blocks, i, name).Some? ==> exists k :: (0 <= k < |Ancestors(blocks, i)| &&
      name in blocks[Ancestors(blocks, i)[k]].vars && FindVar(blocks, i, name).value == blocks[Ancestors(blocks, i)[k]].vars[name])
    decreases i
  {
    var chain := Ancestors(blocks, i);
    if name in blocks[i].vars {
      assert FindVar(blocks, i, name) == Some(blocks[i].vars[name]);
      assert chain[0] == i && name in blocks[chain[0]].vars;
      assert !(forall k :: 0 <= k < |chain| ==> name !in blocks[chain[k]].vars);
    } else if i == 0 {
      assert chain == [0];
    } else {
      var p := blocks[i].parent;
      FindVarChain(blocks, p, name);
      var up := Ancestors(blocks, p);
      assert chain == [i] + up;
      assert forall k :: 0 <= k < |up| ==> chain[k + 1] == up[k];
      var r := FindVar(blocks, p, name);
      assert FindVar(blocks, i, name) == r;
      if r.Some? {
        var k :| 0 <= k < |up| && name in blocks[up[k]].vars && r.value == blocks[up[k]].vars[name];
        assert chain[k + 1] == up[k];
      } else {
        forall k | 0 <= k < |chain| ensures name !in blocks[chain[k]].vars {
          if k > 0 {
            assert chain[k] == up[k - 1];
          }
        }
      }
    }
  }

  /** Replace one operator of one block. */
  function UpdateOp(blocks: seq<Block>, b: nat, k: nat, op: Op): (r: seq<Block>)
    requires b < |blocks| && k < |blocks[b].ops|
    ensures |r| == |blocks| && r[b].ops == blocks[b].ops[k := op]
    ensures r[b].vars == blocks[b].vars && r[b].parent == blocks[b].parent
    ensures forall c :: 0 <= c < |blocks| && c != b ==> r[c] == blocks[c]
  {
    blocks[b := blocks[b].(ops := blocks[b].ops[k := op])]
  }

  /** A program: an arena of blocks whose list every pass updates in place. */
  class Program {
    var blocks: seq<Block>

    predicate Valid()
      reads this
    {
      Arena(blocks)
    }

    /** `Program()`: one empty global block. */
    constructor Empty()
      ensures Valid() && blocks == [EmptyGlobalBlock]
    {
      blocks := [EmptyGlobalBlock];
    }

    /** A program holding the given blocks (a clone, or a freshly assembled result). */
    constructor FromBlocks(bs: seq<Block>)
      requires Arena(bs)
      ensures Valid() && blocks == bs
    {
      blocks := bs;
    }
  }

  /** Python's `str()` of an int. */
  function IntToString(i: int): (s: string)
    ensures |s| > 0
  {
    if i < 0 then "-" + NatToString(-i) else NatToString(i)
  }

  function DigitChar(d: nat): (c: char)
    requires d < 10
    ensures '0' <= c <= '9'
  {
    ['0', '1', '2', '3', '4', '5', '6', '7', '8', '9'][d]
  }

  function NatToString(n: nat): (s: string)
    ensures |s| > 0 && forall k :: 0 <= k < |s| ==> '0' <= s[k] <= '9'
    decreases n
  {
    if n < 10 then [DigitChar(n)] else NatToString(n / 10) + [DigitChar(n % 10)]
  }

  /** The value of a string of decimal digits, read back. */
  function ParseDigits(s: string): int
    decreases |s|
  {
    if s == [] then 0 else 10 * ParseDigits(s[..|s| - 1]) + (s[|s| - 1] as int - '0' as int)
  }

  function ParseInt(s: string): int
  {
    if |s| > 0 && s[0] == '-' then -ParseDigits(s[1..]) else ParseDigits(s)
  }

  lemma {:induction false} NatToStringRoundTrip(n: nat)
    ensures ParseDigits(NatToString(n)) == n
    decreases n
  {
    if n >= 10 {
      NatToStringRoundTrip(n / 10);
      var s := NatToString(n);
      assert s[..|s| - 1] == NatToString(n / 10);
      assert s[|s| - 1] == DigitChar(n % 10);
    }
  }

  /** Reading `str(i)` back gives `i`, so distinct integers print differently. */
  lemma IntToStringRoundTrip(i: int)
    ensures ParseInt(IntToString(i)) == i
  {
    if i < 0 {
      var n: nat := -i;
      var t := NatToString(n);
      NatToStringRoundTrip(n);
      NegativeRoundTrip(t, ParseDigits(t));
      assert IntToString(i) == "-" + t;
    } else {
      NatToStringRoundTrip(i);
      var t := NatToString(i);
      assert t[0] != '-';
    }
  }

  lemma NegativeRoundTrip(t: string, v: int)
    requires ParseDigits(t) == v
    ensures ParseInt("-" + t) == -v
  {
    var s := "-" + t;
    assert s[1..] == t;
  }

  lemma IntToStringInjective(i: int, j: int)
    requires IntToString(i) == IntToString(j)
    ensures i == j
  {
    IntToStringRoundTrip(i);
    IntToStringRoundTrip(j);
  }
}
