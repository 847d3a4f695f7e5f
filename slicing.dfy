/**
  Cutting a program's global block into consecutive operator ranges
  (`prune_program`, `split_program`) and working out, for every piece, which
  of its outputs a later piece reads.
 */
module Slicing {
  import opened Ir
  import opened Dataflow

  /** Python's one-time shift of a negative index by the list length. */
  function Normalize(i: int, n: int): int
  {
    if i < 0 then i + n else i
  }

  /** The bounds `prune_program` accepts, after shifting negative ones once. */
  predicate PruneRangeOk(start: int, end: int, n: int)
  {
    var s := Normalize(start, n);
    var e := Normalize(end, n);
    0 <= s < n && 0 <= e <= n && s < e
  }

  /** Some operator of `ops` reads or writes `v`. */
  ghost predicate Referenced(ops: seq<Op>, v: string)
  {
    exists k :: 0 <= k < |ops| && (v in InputArgNames(ops[k]) || v in OutputArgNames(ops[k]))
  }

  lemma ReferencedIffUsed(ops: seq<Op>, v: string)
    ensures Referenced(ops, v) <==> v in ReadSet(ops) + WriteSet(ops)
  {
    ReadSetMember(ops, v);
    WriteSetMember(ops, v);
  }

  /** A negative index is shifted only once: one below `-n` is always refused. */
  lemma PruneShiftsOnce(start: int, end: int, n: int)
    requires start < -n || end < -n
    ensures !PruneRangeOk(start, end, n)
  {
  }

  /**
    `prune_program(program, start_op_idx, end_op_idx)`: a copy of `program`
    whose global block keeps the operators in `[start, end)` and those of its
    declarations that a kept operator reads or writes.
   */
  method PruneProgram(program: Program, startOpIdx: int, endOpIdx: int) returns (r: Result<Program>)
    requires program.Valid()
    ensures r.Ok? <==> PruneRangeOk(startOpIdx, endOpIdx, |program.blocks[0].ops|)
    ensures r.Err? ==> r.error.AssertionFailed?
    ensures r.Ok? ==> (r.value.Valid() && |r.value.blocks| == |program.blocks| &&
      r.value.blocks[1..] == program.blocks[1..])
    ensures r.Ok? ==> IsPruned(program.blocks[0], r.value.blocks[0],
      Normalize(startOpIdx, |program.blocks[0].ops|), Normalize(endOpIdx, |program.blocks[0].ops|))
  {
    var g0 := program.blocks[0];
    var opNum := |g0.ops|;
    var start := startOpIdx;
    if start < 0 {
      start := start + opNum;
    }
    if !(start >= 0 && start < opNum) {
      return Err(AssertionFailed(""));
    }
    var end := endOpIdx;
    if end < 0 {
      end := end + opNum;
    }
    if !(end >= 0 && end <= opNum) {
      return Err(AssertionFailed(IntToString(end)));
    }
    if !(start < end) {
      return Err(AssertionFailed(""));
    }
    var ops := RemoveOpsOutside(g0.ops, start, end);
    var validVars := UsedNames(ops);
    var varsToRemove := set v | v in g0.vars && v !in validVars;
    var vars := g0.vars - varsToRemove;
    forall v ensures v in vars <==> v in g0.vars && Referenced(ops, v) {
      ReferencedIffUsed(ops, v);
    }
    var pruned := new Program.FromBlocks([Block(ops, vars, g0.parent, g0.forwardBlock)] + program.blocks[1..]);
    assert pruned.blocks[1..] == program.blocks[1..];
    r := Ok(pruned);
  }

  /** `g` is `g0` cut down to the operators `[s, e)` and the declarations they use. */
  ghost predicate IsPruned(g0: Block, g: Block, s: int, e: int)
  {
    0 <= s <= e <= |g0.ops| &&
    g.ops == g0.ops[s..e] && g.parent == g0.parent && g.forwardBlock == g0.forwardBlock &&
    (forall v :: v in g.vars <==> v in g0.vars && Referenced(g.ops, v)) &&
    (forall v :: v in g.vars ==> g.vars[v] == g0.vars[v])
  }

  /** The two `_remove_op` loops of `prune_program`: drop the tail from the back, then the head. */
  method RemoveOpsOutside(ops0: seq<Op>, start: nat, end: nat) returns (ops: seq<Op>)
    requires start < end <= |ops0|
    ensures ops == ops0[start..end]
  {
    ops := ops0;
    var idx := |ops0| - 1;
    while idx >= end
      invariant end - 1 <= idx <= |ops0| - 1
      invariant ops == ops0[..idx + 1]
      decreases idx
    {
      ops := ops[..idx] + ops[idx + 1..];
      idx := idx - 1;
    }
    idx := start - 1;
    while idx >= 0
      invariant -1 <= idx <= start - 1
      invariant ops == ops0[..idx + 1] + ops0[start..end]
      decreases idx
    {
      ops := ops[..idx] + ops[idx + 1..];
      idx := idx - 1;
    }
  }

  /** The `valid_vars` loop of `prune_program`: every name an operator reads or writes. */
  method UsedNames(ops: seq<Op>) returns (validVars: set<string>)
    ensures validVars == ReadSet(ops) + WriteSet(ops)
  {
    validVars := {};
    for k := 0 to |ops|
      invariant validVars == ReadSet(ops[..k]) + WriteSet(ops[..k])
    {
      assert ops[..k + 1][..k] == ops[..k];
      validVars := validVars + Elems(InputArgNames(ops[k])) + Elems(OutputArgNames(ops[k]));
    }
    assert ops[..|ops|] == ops;
  }

  /** The cut points of `split_program`: indices shifted once, then 0 and `n` added when missing. */
  function Boundaries(opIndices: seq<int>, opNum: int): (b: seq<int>)
    requires opIndices != []
    ensures |b| > 0 && b[0] == 0 && b[|b| - 1] == opNum
    ensures forall k :: 0 <= k < |opIndices| ==> Normalize(opIndices[k], opNum) in b
  {
    var normalized := seq(|opIndices|, k requires 0 <= k < |opIndices| => Normalize(opIndices[k], opNum));
    var withStart := if normalized[0] != 0 then [0] + normalized else normalized;
    assert forall k :: 0 <= k < |opIndices| ==> normalized[k] == Normalize(opIndices[k], opNum) && normalized[k] in withStart;
    var b := if withStart[|withStart| - 1] != opNum then withStart + [opNum] else withStart;
    assert forall x :: x in withStart ==> x in b;
    b
  }

  predicate StrictlyIncreasing(b: seq<int>)
  {
    forall k :: 0 <= k < |b| - 1 ==> b[k] < b[k + 1]
  }

  lemma {:induction false} IncreasingBetween(b: seq<int>, i: nat, j: nat)
    requires StrictlyIncreasing(b) && i <= j < |b|
    ensures b[i] <= b[j] && (i < j ==> b[i] < b[j])
    decreases j - i
  {
    if i < j {
      IncreasingBetween(b, i + 1, j);
    }
  }

  /** Cut points from 0 up to `n`, strictly increasing. */
  predicate CutPoints(b: seq<int>, n: int)
  {
    |b| > 0 && b[0] == 0 && b[|b| - 1] == n && StrictlyIncreasing(b)
  }

  /** Every cut point lies in `[0, n]`, so every piece is a valid prune range. */
  lemma CutPointsInRange(b: seq<int>, n: int, k: nat)
    requires CutPoints(b, n) && k < |b|
    ensures 0 <= b[k] <= n
    ensures k < |b| - 1 ==> b[k] < b[k + 1] && PruneRangeOk(b[k], b[k + 1], n)
  {
    IncreasingBetween(b, 0, k);
    IncreasingBetween(b, k, |b| - 1);
    if k < |b| - 1 {
      IncreasingBetween(b, k + 1, |b| - 1);
    }
  }

  /** The operators of piece `k`. */
  function Piece(ops: seq<Op>, b: seq<int>, k: nat): seq<Op>
    requires CutPoints(b, |ops|) && k < |b| - 1
  {
    CutPointsInRange(b, |ops|, k);
    CutPointsInRange(b, |ops|, k + 1);
    ops[b[k]..b[k + 1]]
  }

  /** The concatenation of a list of operator lists. */
  function Concat(pieces: seq<seq<Op>>): seq<Op>
  {
    if pieces == [] then [] else Concat(pieces[..|pieces| - 1]) + pieces[|pieces| - 1]
  }

  /** The first `m` pieces, in order. */
  function Pieces(ops: seq<Op>, b: seq<int>, m: nat): seq<seq<Op>>
    requires CutPoints(b, |ops|) && m < |b|
  {
    seq(m, k requires 0 <= k < m => Piece(ops, b, k))
  }

  /** The pieces between consecutive cut points make up the whole operator list, in order. */
  lemma {:induction false} PiecesConcat(ops: seq<Op>, b: seq<int>, m: nat)
    requires CutPoints(b, |ops|) && m < |b|
    ensures 0 <= b[m] <= |ops| && Concat(Pieces(ops, b, m)) == ops[..b[m]]
    decreases m
  {
    CutPointsInRange(b, |ops|, m);
    if m > 0 {
      PiecesConcat(ops, b, m - 1);
      CutPointsInRange(b, |ops|, m - 1);
      assert Pieces(ops, b, m)[..m - 1] == Pieces(ops, b, m - 1);
      assert ops[..b[m - 1]] + ops[b[m - 1]..b[m]] == ops[..b[m]];
    }
  }

  /** So the whole split loses and repeats no operator. */
  lemma SplitCoversProgram(ops: seq<Op>, b: seq<int>)
    requires CutPoints(b, |ops|)
    ensures Concat(Pieces(ops, b, |b| - 1)) == ops
  {
    PiecesConcat(ops, b, |b| - 1);
    assert ops[..|ops|] == ops;
  }

  /** The example of `split_program`'s documentation: 100 operators cut at 25 and 60 give 25, 35 and 40. */
  lemma SplitDocExample(ops: seq<Op>)
    requires |ops| == 100
    ensures Boundaries([25, 60], 100) == [0, 25, 60, 100]
    ensures CutPoints([0, 25, 60, 100], 100)
    ensures |Piece(ops, [0, 25, 60, 100], 0)| == 25
    ensures |Piece(ops, [0, 25, 60, 100], 1)| == 35
    ensures |Piece(ops, [0, 25, 60, 100], 2)| == 40
  {
  }

  /** Negative cut points count from the end, and 0 or `n` given explicitly are not doubled. */
  lemma BoundariesNegativeExample()
    ensures Boundaries([0, -3], 10) == [0, 7, 10]
    ensures Boundaries([4, 10], 10) == [0, 4, 10]
    ensures !StrictlyIncreasing(Boundaries([7, 4], 10))
  {
  }

  /** The last piece before `i` whose outputs contain `x`, or -1 when there is none. */
  function NearestProducer(outs: seq<seq<string>>, i: nat, x: string): (j: int)
    requires i <= |outs|
    ensures -1 <= j < i
    ensures j >= 0 ==> x in outs[j]
    ensures forall q :: j < q < i ==> x !in outs[q]
    decreases i
  {
    if i == 0 then -1 else if x in outs[i - 1] then i - 1 else NearestProducer(outs, i - 1, x)
  }

  /** The backwards scan `for j in reversed(range(i))` that stops at the first producer. */
  method FindNearestProducer(outs: seq<seq<string>>, i: nat, x: string) returns (j: int)
    requires i <= |outs|
    ensures j == NearestProducer(outs, i, x)
  {
    j := i - 1;
    while j >= 0 && x !in outs[j]
      invariant -1 <= j < i
      invariant NearestProducer(outs, i, x) == NearestProducer(outs, j + 1, x)
      decreases j
    {
      j := j - 1;
    }
  }

  /** The names of `names` whose nearest producer before piece `i` is piece `j`, in order. */
  function ClaimsOf(names: seq<string>, outs: seq<seq<string>>, i: nat, j: int): seq<string>
    requires i <= |outs|
    decreases |names|
  {
    if names == [] then []
    else
      var x := names[|names| - 1];
      ClaimsOf(names[..|names| - 1], outs, i, j) + (if NearestProducer(outs, i, x) == j then [x] else [])
  }

  /** The claims on piece `j` of the inputs of pieces `1 .. upto - 1`, in scan order. */
  function Claims(ins: seq<seq<string>>, outs: seq<seq<string>>, upto: nat, j: int): seq<string>
    requires upto <= |ins| == |outs|
    decreases upto
  {
    if upto <= 1 then [] else Claims(ins, outs, upto - 1, j) + ClaimsOf(ins[upto - 1], outs, upto - 1, j)
  }

  /**
    The valid outputs of piece `j`: the last piece keeps all its outputs; any
    other keeps those a later piece reads and produces no nearer, in the order
    the scan meets them.
   */
  ghost function ValidOutput(ins: seq<seq<string>>, outs: seq<seq<string>>, j: nat): seq<string>
    requires j < |ins| == |outs|
  {
    if j == |outs| - 1 then outs[j] else Dedup(Claims(ins, outs, |outs|, j))
  }

  lemma {:induction false} ClaimsOfMember(names: seq<string>, outs: seq<seq<string>>, i: nat, j: int, x: string)
    requires i <= |outs|
    ensures x in ClaimsOf(names, outs, i, j) <==> x in names && NearestProducer(outs, i, x) == j
    decreases |names|
  {
    if names != [] {
      ClaimsOfMember(names[..|names| - 1], outs, i, j, x);
      assert names == names[..|names| - 1] + [names[|names| - 1]];
    }
  }

  lemma {:induction false} ClaimsMember(ins: seq<seq<string>>, outs: seq<seq<string>>, upto: nat, j: nat, x: string)
    requires upto <= |ins| == |outs|
    ensures x in Claims(ins, outs, upto, j) <==>
      exists i :: j < i < upto && x in ins[i] && NearestProducer(outs, i, x) == j
    decreases upto
  {
    if upto > 1 {
      ClaimsMember(ins, outs, upto - 1, j, x);
      ClaimsOfMember(ins[upto - 1], outs, upto - 1, j, x);
      if exists i :: j < i < upto && x in ins[i] && NearestProducer(outs, i, x) == j {
        var i :| j < i < upto && x in ins[i] && NearestProducer(outs, i, x) == j;
        if i < upto - 1 {
          assert exists i' :: j < i' < upto - 1 && x in ins[i'] && NearestProducer(outs, i', x) == j;
        }
      }
    }
  }

  /**
    A name is a valid output of a piece other than the last iff some later
    piece reads it and no piece between them produces it; every valid output
    is an output, and none is listed twice.
   */
  lemma ValidOutputMember(ins: seq<seq<string>>, outs: seq<seq<string>>, j: nat, x: string)
    requires j < |ins| == |outs|
    ensures j < |outs| - 1 ==> (x in ValidOutput(ins, outs, j) <==>
      exists i :: j < i < |outs| && x in ins[i] && x in outs[j] && forall q :: j < q < i ==> x !in outs[q])
    ensures x in ValidOutput(ins, outs, j) ==> x in outs[j]
  {
    if j < |outs| - 1 {
      DedupMember(Claims(ins, outs, |outs|, j), x);
      ClaimsMember(ins, outs, |outs|, j, x);
      if exists i :: j < i < |outs| && x in ins[i] && x in outs[j] && forall q :: j < q < i ==> x !in outs[q] {
        var i :| j < i < |outs| && x in ins[i] && x in outs[j] && forall q :: j < q < i ==> x !in outs[q];
        var n := NearestProducer(outs, i, x);
        assert x in outs[j];
        assert n >= 0 ==> x in outs[n];
      }
    }
  }

  lemma ValidOutputNoDup(ins: seq<seq<string>>, outs: seq<seq<string>>, j: nat)
    requires j < |ins| == |outs| && forall k :: 0 <= k < |outs| ==> NoDup(outs[k])
    ensures NoDup(ValidOutput(ins, outs, j))
  {
    if j < |outs| - 1 {
      DedupNoDup(Claims(ins, outs, |outs|, j));
    }
  }

  /** Three pieces: the second reads `a`, the third reads `a` and `b`; `a` is produced by the first two. */
  const ExampleIns: seq<seq<string>> := [[], ["a"], ["a", "b"]]
  const ExampleOuts: seq<seq<string>> := [["a", "b"], ["a"], ["c"]]

  /** A read is credited to the nearest earlier producer only, not to the first one. */
  lemma NearestProducerExample()
    ensures ValidOutput(ExampleIns, ExampleOuts, 0) == ["a", "b"]
    ensures ValidOutput(ExampleIns, ExampleOuts, 1) == ["a"]
    ensures ValidOutput(ExampleIns, ExampleOuts, 2) == ["c"]
  {
    ExampleClaims();
    DedupOfNoDup(["a", "b"]);
    DedupOfNoDup(["a"]);
  }

  lemma ExampleClaims()
    ensures Claims(ExampleIns, ExampleOuts, 3, 0) == ["a", "b"]
    ensures Claims(ExampleIns, ExampleOuts, 3, 1) == ["a"]
  {
    ExampleClaimsOf();
    assert ExampleIns[1] == ["a"] && ExampleIns[2] == ["a", "b"];
    assert Claims(ExampleIns, ExampleOuts, 2, 0) == ClaimsOf(["a"], ExampleOuts, 1, 0);
    assert Claims(ExampleIns, ExampleOuts, 2, 1) == ClaimsOf(["a"], ExampleOuts, 1, 1);
    assert Claims(ExampleIns, ExampleOuts, 3, 0) == ["a"] + ClaimsOf(["a", "b"], ExampleOuts, 2, 0);
    assert Claims(ExampleIns, ExampleOuts, 3, 1) == [] + ClaimsOf(["a", "b"], ExampleOuts, 2, 1);
  }

  lemma ExampleClaimsOf()
    ensures ClaimsOf(["a"], ExampleOuts, 1, 0) == ["a"] && ClaimsOf(["a"], ExampleOuts, 1, 1) == []
    ensures ClaimsOf(["a", "b"], ExampleOuts, 2, 0) == ["b"] && ClaimsOf(["a", "b"], ExampleOuts, 2, 1) == ["a"]
  {
    assert NearestProducer(ExampleOuts, 1, "a") == 0;
    assert NearestProducer(ExampleOuts, 2, "a") == 1;
    assert NearestProducer(ExampleOuts, 2, "b") == 0;
    assert ["a", "b"][..1] == ["a"];
    assert ["a"][..0] == [];
  }

  lemma ClaimsOfSnoc(names: seq<string>, outs: seq<seq<string>>, i: nat, j: int, p: nat)
    requires i <= |outs| && p < |names|
    ensures ClaimsOf(names[..p + 1], outs, i, j) ==
      ClaimsOf(names[..p], outs, i, j) + (if NearestProducer(outs, i, names[p]) == j then [names[p]] else [])
  {
    assert names[..p + 1][..p] == names[..p];
  }

  /** Lines 157-165 of `split_program`: the valid outputs of every piece. */
  method ComputeValidOutputs(ins: seq<seq<string>>, outs: seq<seq<string>>) returns (valid: seq<seq<string>>)
    requires 0 < |ins| == |outs|
    ensures |valid| == |outs|
    ensures forall j :: 0 <= j < |outs| ==> valid[j] == ValidOutput(ins, outs, j)
  {
    var numSplit := |outs|;
    valid := seq(numSplit, _ => []);
    valid := valid[numSplit - 1 := outs[numSplit - 1]];
    for i := 1 to numSplit
      invariant |valid| == numSplit && valid[numSplit - 1] == outs[numSplit - 1]
      invariant forall j :: 0 <= j < numSplit - 1 ==> valid[j] == Dedup(Claims(ins, outs, i, j))
    {
      valid := CreditReads(valid, ins, outs, i);
    }
  }

  /** One pass of the outer loop: each input of piece `i` credited to its nearest earlier producer. */
  method CreditReads(valid0: seq<seq<string>>, ins: seq<seq<string>>, outs: seq<seq<string>>, i: nat)
    returns (valid: seq<seq<string>>)
    requires 0 < i < |ins| == |outs| == |valid0|
    requires forall j :: 0 <= j < |outs| - 1 ==> valid0[j] == Dedup(Claims(ins, outs, i, j))
    ensures |valid| == |outs| && valid[|outs| - 1] == valid0[|outs| - 1]
    ensures forall j :: 0 <= j < |outs| - 1 ==> valid[j] == Dedup(Claims(ins, outs, i + 1, j))
  {
    valid := valid0;
    var names := ins[i];
    assert names[..0] == [];
    forall j | 0 <= j < |outs| - 1
      ensures valid[j] == Dedup(Claims(ins, outs, i, j) + ClaimsOf(names[..0], outs, i, j))
    {
      assert Claims(ins, outs, i, j) + [] == Claims(ins, outs, i, j);
    }
    for p := 0 to |names|
      invariant |valid| == |outs| && valid[|outs| - 1] == valid0[|outs| - 1]
      invariant forall j :: 0 <= j < |outs| - 1 ==>
        valid[j] == Dedup(Claims(ins, outs, i, j) + ClaimsOf(names[..p], outs, i, j))
    {
      valid := CreditRead(valid, ins, outs, i, names, p);
    }
    assert names[..|names|] == names;
  }

  /** One input of piece `i` credited to its nearest earlier producer, unless already listed there. */
  method CreditRead(valid0: seq<seq<string>>, ins: seq<seq<string>>, outs: seq<seq<string>>, i: nat,
                    names: seq<string>, p: nat)
    returns (valid: seq<seq<string>>)
    requires 0 < i < |ins| == |outs| == |valid0| && p < |names|
    requires forall j :: 0 <= j < |outs| - 1 ==>
      valid0[j] == Dedup(Claims(ins, outs, i, j) + ClaimsOf(names[..p], outs, i, j))
    ensures |valid| == |outs| && valid[|outs| - 1] == valid0[|outs| - 1]
    ensures forall j :: 0 <= j < |outs| - 1 ==>
      valid[j] == Dedup(Claims(ins, outs, i, j) + ClaimsOf(names[..p + 1], outs, i, j))
  {
    valid := valid0;
    var inVarName := names[p];
    var jn := FindNearestProducer(outs, i, inVarName);
    if jn >= 0 && inVarName !in valid[jn] {
      valid := valid[jn := valid[jn] + [inVarName]];
    }
    forall j | 0 <= j < |outs| - 1
      ensures valid[j] == Dedup(Claims(ins, outs, i, j) + ClaimsOf(names[..p + 1], outs, i, j))
    {
      ClaimsOfSnoc(names, outs, i, j, p);
      var s := Claims(ins, outs, i, j) + ClaimsOf(names[..p], outs, i, j);
      if jn == j {
        assert Claims(ins, outs, i, j) + ClaimsOf(names[..p + 1], outs, i, j) == s + [inVarName];
        DedupSnoc(s, inVarName);
      } else {
        assert Claims(ins, outs, i, j) + ClaimsOf(names[..p + 1], outs, i, j) == s;
      }
    }
  }

  /** The result of `split_program`: the pieces, their inputs, and their valid outputs. */
  datatype Split = Split(programs: seq<Program>, inputVars: seq<seq<string>>, validOutputVars: seq<seq<string>>)

  /** The inputs of every piece. */
  ghost function PieceInputs(ops: seq<Op>, b: seq<int>): seq<seq<string>>
    requires CutPoints(b, |ops|)
  {
    seq(|b| - 1, k requires 0 <= k < |b| - 1 => InputsOf(Piece(ops, b, k)))
  }

  /** The outputs of every piece. */
  ghost function PieceOutputs(ops: seq<Op>, b: seq<int>): seq<seq<string>>
    requires CutPoints(b, |ops|)
  {
    seq(|b| - 1, k requires 0 <= k < |b| - 1 => OutputsOf(Piece(ops, b, k)))
  }

  /**
    `p` is the program with blocks `blocks` pruned to piece `k` of the cuts `b`: its global
    block holds exactly that piece and the declarations it uses, and the other blocks are kept.
   */
  ghost predicate PieceProgram(p: Program, blocks: seq<Block>, b: seq<int>, k: nat)
    reads p
    requires |blocks| > 0 && CutPoints(b, |blocks[0].ops|) && k < |b| - 1
  {
    p.Valid() && PieceBlocks(p.blocks, blocks, b, k)
  }

  /** The blocks `pb` of piece `k`, as `PieceProgram` describes them. */
  ghost predicate PieceBlocks(pb: seq<Block>, blocks: seq<Block>, b: seq<int>, k: nat)
    requires |blocks| > 0 && CutPoints(b, |blocks[0].ops|) && k < |b| - 1
  {
    Arena(pb) && |pb| == |blocks| && pb[1..] == blocks[1..] &&
    pb[0].ops == Piece(blocks[0].ops, b, k) && IsPruned(blocks[0], pb[0], b[k], b[k + 1])
  }

  /** `s` splits the program with blocks `blocks` at the cut points `b`. */
  ghost predicate IsSplit(s: Split, blocks: seq<Block>, b: seq<int>)
    reads s.programs
    requires |blocks| > 0
  {
    CutPoints(b, |blocks[0].ops|) &&
    |s.programs| == |s.inputVars| == |s.validOutputVars| == |b| - 1 &&
    (forall k :: 0 <= k < |b| - 1 ==> PieceProgram(s.programs[k], blocks, b, k)) &&
    (forall k :: 0 <= k < |b| - 1 ==> s.inputVars[k] == InputsOf(Piece(blocks[0].ops, b, k))) &&
    (forall j :: 0 <= j < |b| - 1 ==>
      s.validOutputVars[j] == ValidOutput(s.inputVars, PieceOutputs(blocks[0].ops, b), j))
  }

  /** One iteration of lines 146-156 of `split_program`: prune piece `k`, then take its inputs and outputs. */
  method PrunePiece(program: Program, ghost blocks: seq<Block>, b: seq<int>, k: nat)
    returns (p: Program, ins: seq<string>, outs: seq<string>)
    requires program.Valid() && program.blocks == blocks && CutPoints(b, |blocks[0].ops|) && k < |b| - 1
    ensures PieceBlocks(p.blocks, blocks, b, k)
    ensures ins == InputsOf(Piece(blocks[0].ops, b, k))
    ensures outs == OutputsOf(Piece(blocks[0].ops, b, k))
  {
    var ops := program.blocks[0].ops;
    CutPointsInRange(b, |ops|, k);
    CutPointsInRange(b, |ops|, k + 1);
    var pr := PruneProgram(program, b[k], b[k + 1]);
    p := pr.value;
    assert Normalize(b[k], |ops|) == b[k] && Normalize(b[k + 1], |ops|) == b[k + 1];
    ins := GetInputsOfProgram(p);
    outs := GetOutputsOfProgram(p);
    outs := ListToOrderedDict(outs, []);
    assert [] + OutputsOf(Piece(ops, b, k)) == OutputsOf(Piece(ops, b, k));
    DedupOfNoDup(OutputsOf(Piece(ops, b, k)));
  }

  /** The blocks of every program in `ps`. */
  ghost function BlocksOf(ps: seq<Program>): (r: seq<seq<Block>>)
    reads ps
    ensures |r| == |ps| && forall k :: 0 <= k < |ps| ==> r[k] == ps[k].blocks
  {
    seq(|ps|, k reads ps requires 0 <= k < |ps| => ps[k].blocks)
  }

  /** Every `pbs[k]` holds the blocks of piece `k`. */
  ghost predicate AllPieceBlocks(pbs: seq<seq<Block>>, blocks: seq<Block>, b: seq<int>)
    requires |blocks| > 0 && CutPoints(b, |blocks[0].ops|) && |pbs| <= |b| - 1
    decreases |pbs|
  {
    pbs == [] ||
    (AllPieceBlocks(pbs[..|pbs| - 1], blocks, b) && PieceBlocks(pbs[|pbs| - 1], blocks, b, |pbs| - 1))
  }

  lemma {:induction false} AllPieceBlocksAt(pbs: seq<seq<Block>>, blocks: seq<Block>, b: seq<int>, k: nat)
    requires |blocks| > 0 && CutPoints(b, |blocks[0].ops|) && |pbs| <= |b| - 1
    requires AllPieceBlocks(pbs, blocks, b) && k < |pbs|
    ensures PieceBlocks(pbs[k], blocks, b, k)
    decreases |pbs|
  {
    if k < |pbs| - 1 {
      AllPieceBlocksAt(pbs[..|pbs| - 1], blocks, b, k);
      assert pbs[..|pbs| - 1][k] == pbs[k];
    }
  }

  /** Programs whose blocks are the pieces' blocks are the pruned pieces. */
  lemma PiecePrograms(ps: seq<Program>, pbs: seq<seq<Block>>, blocks: seq<Block>, b: seq<int>)
    requires |blocks| > 0 && CutPoints(b, |blocks[0].ops|) && |pbs| == |b| - 1
    requires BlocksOf(ps) == pbs && AllPieceBlocks(pbs, blocks, b)
    ensures |ps| == |b| - 1 && forall k :: 0 <= k < |b| - 1 ==> PieceProgram(ps[k], blocks, b, k)
  {
    forall k | 0 <= k < |b| - 1
      ensures PieceProgram(ps[k], blocks, b, k)
    {
      AllPieceBlocksAt(pbs, blocks, b, k);
    }
  }

  /** Lines 146-156 of `split_program`: prune every piece and take its inputs and outputs. */
  method PrunePieces(program: Program, b: seq<int>)
    returns (programs: seq<Program>, inputVars: seq<seq<string>>, outputVars: seq<seq<string>>)
    requires program.Valid() && CutPoints(b, |program.blocks[0].ops|)
    ensures |programs| == |inputVars| == |b| - 1
    ensures forall k :: 0 <= k < |b| - 1 ==> PieceProgram(programs[k], program.blocks, b, k)
    ensures forall k :: 0 <= k < |b| - 1 ==> inputVars[k] == InputsOf(Piece(program.blocks[0].ops, b, k))
    ensures outputVars == PieceOutputs(program.blocks[0].ops, b)
  {
    ghost var blocks := program.blocks;
    var ops := program.blocks[0].ops;
    programs, inputVars, outputVars := [], [], [];
    ghost var pieceBlocks: seq<seq<Block>> := [];
    for idx := 0 to |b| - 1
      invariant |programs| == |inputVars| == |outputVars| == |pieceBlocks| == idx
      invariant BlocksOf(programs) == pieceBlocks
      invariant program.blocks == blocks
      invariant AllPieceBlocks(pieceBlocks, blocks, b)
      invariant inputVars == PieceInputs(ops, b)[..idx]
      invariant outputVars == PieceOutputs(ops, b)[..idx]
    {
      var p, ins, outs := PrunePiece(program, blocks, b, idx);
      assert (pieceBlocks + [p.blocks])[..idx] == pieceBlocks;
      assert BlocksOf(programs + [p]) == BlocksOf(programs) + [p.blocks];
      assert PieceInputs(ops, b)[..idx + 1] == PieceInputs(ops, b)[..idx] + [ins];
      assert PieceOutputs(ops, b)[..idx + 1] == PieceOutputs(ops, b)[..idx] + [outs];
      pieceBlocks := pieceBlocks + [p.blocks];
      programs := programs + [p];
      inputVars := inputVars + [ins];
      outputVars := outputVars + [outs];
    }
    PiecePrograms(programs, pieceBlocks, blocks, b);
  }

  /** `split_program(program, op_indices)`. */
  method SplitProgram(program: Program, opIndices: seq<int>) returns (r: Result<Split>)
    requires program.Valid()
    ensures opIndices == [] ==> r == Err(AssertionFailed("op_indices cannot be empty"))
    ensures opIndices != [] && program.blocks[0].ops == [] ==> r == Err(AssertionFailed("program cannot be empty"))
    ensures opIndices != [] && program.blocks[0].ops != [] ==>
      (r.Ok? <==> StrictlyIncreasing(Boundaries(opIndices, |program.blocks[0].ops|)))
    ensures r.Err? ==> r.error.AssertionFailed?
    ensures r.Ok? ==> opIndices != [] && IsSplit(r.value, program.blocks, Boundaries(opIndices, |program.blocks[0].ops|))
  {
    if opIndices == [] {
      return Err(AssertionFailed("op_indices cannot be empty"));
    }
    var opNum := |program.blocks[0].ops|;
    if opNum == 0 {
      return Err(AssertionFailed("program cannot be empty"));
    }
    var b := Boundaries(opIndices, opNum);
    for idx := 0 to |b| - 1
      invariant forall q :: 0 <= q < idx ==> b[q] < b[q + 1]
    {
      if !(b[idx] < b[idx + 1]) {
        return Err(AssertionFailed("op_indices must be strictly sorted"));
      }
    }
    var programs, inputVars, outputVars := PrunePieces(program, b);
    var valid := ComputeValidOutputs(inputVars, outputVars);
    r := Ok(Split(programs, inputVars, valid));
  }
}
