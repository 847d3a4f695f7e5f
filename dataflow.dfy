/**
  Dataflow summaries of a program's global block: the names it reads before
  writing them (its inputs) and the names it writes (its outputs), each listed
  once in order of first occurrence. An `OrderedDict` used as an ordered set is
  modelled by the sequence of its keys.
 */
module Dataflow {
  import opened Ir

  predicate NoDup<T(==)>(s: seq<T>)
  {
    forall i, j :: 0 <= i < j < |s| ==> s[i] != s[j]
  }

  /** `s` with every element after its first occurrence dropped. */
  function Dedup<T(==)>(s: seq<T>): seq<T>
    decreases |s|
  {
    if s == [] then []
    else
      var d := Dedup(s[..|s| - 1]);
      if s[|s| - 1] in d then d else d + [s[|s| - 1]]
  }

  lemma {:induction false} DedupMember<T>(s: seq<T>, x: T)
    ensures x in Dedup(s) <==> x in s
    decreases |s|
  {
    if s != [] {
      DedupMember(s[..|s| - 1], x);
      assert s == s[..|s| - 1] + [s[|s| - 1]];
      var y := s[|s| - 1];
      DedupMember(s[..|s| - 1], y);
    }
  }

  lemma {:induction false} DedupNoDup<T>(s: seq<T>)
    ensures NoDup(Dedup(s))
    decreases |s|
  {
    if s != [] {
      DedupNoDup(s[..|s| - 1]);
    }
  }

  lemma {:induction false} DedupOfNoDup<T>(s: seq<T>)
    requires NoDup(s)
    ensures Dedup(s) == s
    decreases |s|
  {
    if s != [] {
      var p := s[..|s| - 1];
      assert NoDup(p);
      DedupOfNoDup(p);
      DedupMember(p, s[|s| - 1]);
      assert s == p + [s[|s| - 1]];
    }
  }

  /** Deduplicating a prefix first changes nothing. */
  lemma {:induction false} DedupPrefix<T>(a: seq<T>, b: seq<T>)
    ensures Dedup(Dedup(a) + b) == Dedup(a + b)
    decreases |b|
  {
    if b == [] {
      assert a + b == a;
      assert Dedup(a) + b == Dedup(a);
      DedupNoDup(a);
      DedupOfNoDup(Dedup(a));
    } else {
      var b' := b[..|b| - 1];
      var y := b[|b| - 1];
      DedupPrefix(a, b');
      assert (Dedup(a) + b)[..|Dedup(a) + b| - 1] == Dedup(a) + b';
      assert (a + b)[..|a + b| - 1] == a + b';
    }
  }

  /** Appending one element to a deduplicated sequence. */
  lemma DedupSnoc<T>(s: seq<T>, x: T)
    ensures Dedup(s + [x]) == if x in Dedup(s) then Dedup(s) else Dedup(s) + [x]
  {
    assert (s + [x])[..|s|] == s;
  }

  /** The position of the first occurrence of `x` in `s`. */
  function FirstIndex<T(==)>(s: seq<T>, x: T): (i: nat)
    requires x in s
    ensures i < |s| && s[i] == x && forall k :: 0 <= k < i ==> s[k] != x
  {
    if s[0] == x then 0 else 1 + FirstIndex(s[1..], x)
  }

  lemma FirstIndexPrefix<T>(s: seq<T>, y: T, x: T)
    requires x in s
    ensures x in s + [y] && FirstIndex(s + [y], x) == FirstIndex(s, x)
  {
    var i := FirstIndex(s, x);
    var j := FirstIndex(s + [y], x);
    assert (s + [y])[i] == x;
    assert s[j] == x;
  }

  /** `Dedup` lists the distinct elements in the order of their first occurrences. */
  lemma {:induction false} DedupOrder<T>(s: seq<T>, i: nat, j: nat)
    requires i < j < |Dedup(s)|
    ensures Dedup(s)[i] in s && Dedup(s)[j] in s
    ensures FirstIndex(s, Dedup(s)[i]) < FirstIndex(s, Dedup(s)[j])
    decreases |s|
  {
    var p := s[..|s| - 1];
    var y := s[|s| - 1];
    var d := Dedup(p);
    assert s == p + [y];
    DedupMember(p, d[i]);
    if j < |d| {
      DedupMember(p, d[j]);
      DedupOrder(p, i, j);
      FirstIndexPrefix(p, y, d[i]);
      FirstIndexPrefix(p, y, d[j]);
    } else {
      assert Dedup(s) == d + [y] && Dedup(s)[j] == y;
      DedupMember(p, y);
      FirstIndexPrefix(p, y, d[i]);
      assert FirstIndex(s, y) == |p|;
    }
  }

  /** `list_to_ordered_dict(list_obj, ordered_dict)`: add each new name at the end; `None` is `[]`. */
  method ListToOrderedDict(listObj: seq<string>, orderedDict: seq<string>) returns (r: seq<string>)
    requires NoDup(orderedDict)
    ensures r == Dedup(orderedDict + listObj)
    ensures NoDup(r) && |r| >= |orderedDict| && r[..|orderedDict|] == orderedDict
    ensures forall x :: x in r <==> x in orderedDict || x in listObj
  {
    r := orderedDict;
    DedupOfNoDup(orderedDict);
    assert orderedDict + listObj[..0] == orderedDict;
    for k := 0 to |listObj|
      invariant r == Dedup(orderedDict + listObj[..k])
      invariant |r| >= |orderedDict| && r[..|orderedDict|] == orderedDict
    {
      var obj := listObj[k];
      assert (orderedDict + listObj[..k + 1])[..|orderedDict| + k] == orderedDict + listObj[..k];
      if obj !in r {
        r := r + [obj];
      }
    }
    assert listObj[..|listObj|] == listObj;
    DedupNoDup(orderedDict + listObj);
    forall x ensures x in r <==> x in orderedDict || x in listObj {
      DedupMember(orderedDict + listObj, x);
    }
  }

  function Elems(s: seq<string>): set<string>
  {
    set x | x in s
  }

  lemma ElemsSnoc(s: seq<string>, p: nat)
    requires p < |s|
    ensures Elems(s[..p + 1]) == Elems(s[..p]) + {s[p]}
  {
    assert s[..p + 1] == s[..p] + [s[p]];
  }

  /** Every name some operator of `ops` writes. */
  function WriteSet(ops: seq<Op>): set<string>
    decreases |ops|
  {
    if ops == [] then {} else WriteSet(ops[..|ops| - 1]) + Elems(OutputArgNames(ops[|ops| - 1]))
  }

  /** Every name some operator of `ops` reads. */
  function ReadSet(ops: seq<Op>): set<string>
    decreases |ops|
  {
    if ops == [] then {} else ReadSet(ops[..|ops| - 1]) + Elems(InputArgNames(ops[|ops| - 1]))
  }

  /** The elements of `s` outside `w`, in order. */
  function NotIn(s: seq<string>, w: set<string>): seq<string>
    decreases |s|
  {
    if s == [] then [] else NotIn(s[..|s| - 1], w) + (if s[|s| - 1] in w then [] else [s[|s| - 1]])
  }

  lemma {:induction false} NotInMember(s: seq<string>, w: set<string>, x: string)
    ensures x in NotIn(s, w) <==> x in s && x !in w
    decreases |s|
  {
    if s != [] {
      NotInMember(s[..|s| - 1], w, x);
      assert s == s[..|s| - 1] + [s[|s| - 1]];
    }
  }

  /** Every read of `ops` that no earlier operator has written, in program order (repeats kept). */
  function ReadsBeforeWrites(ops: seq<Op>): seq<string>
    decreases |ops|
  {
    if ops == [] then []
    else
      var pre := ops[..|ops| - 1];
      ReadsBeforeWrites(pre) + NotIn(InputArgNames(ops[|ops| - 1]), WriteSet(pre))
  }

  /** Every write of `ops`, in program order (repeats kept). */
  function AllWrites(ops: seq<Op>): seq<string>
    decreases |ops|
  {
    if ops == [] then [] else AllWrites(ops[..|ops| - 1]) + OutputArgNames(ops[|ops| - 1])
  }

  lemma {:induction false} WriteSetMember(ops: seq<Op>, x: string)
    ensures x in WriteSet(ops) <==> exists k :: 0 <= k < |ops| && x in OutputArgNames(ops[k])
    decreases |ops|
  {
    if ops != [] {
      var pre := ops[..|ops| - 1];
      WriteSetMember(pre, x);
      if exists k :: 0 <= k < |ops| && x in OutputArgNames(ops[k]) {
        var k :| 0 <= k < |ops| && x in OutputArgNames(ops[k]);
        if k < |pre| { assert ops[k] == pre[k]; }
      }
      if x in WriteSet(pre) {
        var k :| 0 <= k < |pre| && x in OutputArgNames(pre[k]);
        assert ops[k] == pre[k];
      }
    }
  }

  lemma {:induction false} ReadSetMember(ops: seq<Op>, x: string)
    ensures x in ReadSet(ops) <==> exists k :: 0 <= k < |ops| && x in InputArgNames(ops[k])
    decreases |ops|
  {
    if ops != [] {
      var pre := ops[..|ops| - 1];
      ReadSetMember(pre, x);
      if exists k :: 0 <= k < |ops| && x in InputArgNames(ops[k]) {
        var k :| 0 <= k < |ops| && x in InputArgNames(ops[k]);
        if k < |pre| { assert ops[k] == pre[k]; }
      }
      if x in ReadSet(pre) {
        var k :| 0 <= k < |pre| && x in InputArgNames(pre[k]);
        assert ops[k] == pre[k];
      }
    }
  }

  lemma {:induction false} AllWritesMember(ops: seq<Op>, x: string)
    ensures x in AllWrites(ops) <==> x in WriteSet(ops)
    decreases |ops|
  {
    if ops != [] {
      AllWritesMember(ops[..|ops| - 1], x);
    }
  }

  lemma WriteSetPrefix(ops: seq<Op>, k: nat, x: string)
    requires k <= |ops| && x in WriteSet(ops[..k])
    ensures x in WriteSet(ops)
  {
    WriteSetMember(ops[..k], x);
    WriteSetMember(ops, x);
    var j :| 0 <= j < k && x in OutputArgNames(ops[..k][j]);
    assert ops[..k][j] == ops[j];
  }

  /** A name is an early read iff some operator reads it while no earlier operator has written it. */
  lemma {:induction false} ReadsBeforeWritesMember(ops: seq<Op>, x: string)
    ensures x in ReadsBeforeWrites(ops) <==>
      exists k :: 0 <= k < |ops| && x in InputArgNames(ops[k]) && x !in WriteSet(ops[..k])
    decreases |ops|
  {
    if ops != [] {
      var pre := ops[..|ops| - 1];
      var last := ops[|ops| - 1];
      ReadsBeforeWritesMember(pre, x);
      NotInMember(InputArgNames(last), WriteSet(pre), x);
      assert ops[..|ops| - 1] == pre;
      if x in ReadsBeforeWrites(pre) {
        var k :| 0 <= k < |pre| && x in InputArgNames(pre[k]) && x !in WriteSet(pre[..k]);
        assert pre[..k] == ops[..k] && pre[k] == ops[k];
      }
      if exists k :: 0 <= k < |ops| && x in InputArgNames(ops[k]) && x !in WriteSet(ops[..k]) {
        var k :| 0 <= k < |ops| && x in InputArgNames(ops[k]) && x !in WriteSet(ops[..k]);
        if k < |pre| {
          assert pre[..k] == ops[..k] && pre[k] == ops[k];
        }
      }
    }
  }

  lemma {:induction false} EarlyReadsAreReads(ops: seq<Op>, x: string)
    requires x in ReadsBeforeWrites(ops)
    ensures x in ReadSet(ops)
    decreases |ops|
  {
    var pre := ops[..|ops| - 1];
    var last := ops[|ops| - 1];
    NotInMember(InputArgNames(last), WriteSet(pre), x);
    if x in ReadsBeforeWrites(pre) {
      EarlyReadsAreReads(pre, x);
    }
  }

  lemma {:induction false} UnwrittenReadIsEarly(ops: seq<Op>, x: string)
    requires x in ReadSet(ops) && x !in WriteSet(ops)
    ensures x in ReadsBeforeWrites(ops)
    decreases |ops|
  {
    var pre := ops[..|ops| - 1];
    var last := ops[|ops| - 1];
    NotInMember(InputArgNames(last), WriteSet(pre), x);
    if x in ReadSet(pre) {
      UnwrittenReadIsEarly(pre, x);
    }
  }

  /** The inputs of a block's operator list: early reads, each once, in first-read order. */
  ghost function InputsOf(ops: seq<Op>): seq<string>
  {
    Dedup(ReadsBeforeWrites(ops))
  }

  /** The outputs of a block's operator list: every written name, each once, in first-write order. */
  ghost function OutputsOf(ops: seq<Op>): seq<string>
  {
    Dedup(AllWrites(ops))
  }

  /** A name is an input iff some operator reads it before any operator writes it. */
  lemma InputsOfMember(ops: seq<Op>, x: string)
    ensures x in InputsOf(ops) <==>
      exists k :: 0 <= k < |ops| && x in InputArgNames(ops[k]) && x !in WriteSet(ops[..k])
  {
    DedupMember(ReadsBeforeWrites(ops), x);
    ReadsBeforeWritesMember(ops, x);
  }

  lemma OutputsOfMember(ops: seq<Op>, x: string)
    ensures x in OutputsOf(ops) <==> exists k :: 0 <= k < |ops| && x in OutputArgNames(ops[k])
  {
    DedupMember(AllWrites(ops), x);
    AllWritesMember(ops, x);
    WriteSetMember(ops, x);
  }

  /** An operator that reads and writes `x` makes `x` an input: its inputs are visited before its outputs. */
  lemma ReadWriteOpIsInput(op: Op, x: string)
    requires x in InputArgNames(op) && x in OutputArgNames(op)
    ensures x in InputsOf([op])
  {
    assert [op][..0] == [];
    InputsOfMember([op], x);
  }

  /** One name of an operator's input list: it extends the inputs exactly when it was not yet visited. */
  lemma InputStep(pre: seq<Op>, ins: seq<string>, p: nat, visited: set<string>)
    requires p < |ins|
    requires visited == ReadSet(pre) + WriteSet(pre) + Elems(ins[..p])
    ensures Dedup(ReadsBeforeWrites(pre) + NotIn(ins[..p + 1], WriteSet(pre))) ==
      if ins[p] in visited then Dedup(ReadsBeforeWrites(pre) + NotIn(ins[..p], WriteSet(pre)))
      else Dedup(ReadsBeforeWrites(pre) + NotIn(ins[..p], WriteSet(pre))) + [ins[p]]
  {
    var w := WriteSet(pre);
    var early := ReadsBeforeWrites(pre);
    var x := ins[p];
    var s := early + NotIn(ins[..p], w);
    assert ins[..p + 1][..p] == ins[..p] && ins[..p + 1][p] == x;
    assert NotIn(ins[..p + 1], w) == NotIn(ins[..p], w) + (if x in w then [] else [x]);
    if x !in visited {
      assert x !in s by {
        if x in early { EarlyReadsAreReads(pre, x); }
        NotInMember(ins[..p], w, x);
      }
      DedupMember(s, x);
      assert early + NotIn(ins[..p + 1], w) == s + [x];
      assert (s + [x])[..|s|] == s;
    } else if x !in w {
      assert x in s by {
        if x in ReadSet(pre) {
          UnwrittenReadIsEarly(pre, x);
        } else {
          NotInMember(ins[..p], w, x);
        }
      }
      DedupMember(s, x);
      assert early + NotIn(ins[..p + 1], w) == s + [x];
      assert (s + [x])[..|s|] == s;
    } else {
      assert early + NotIn(ins[..p + 1], w) == s;
    }
  }

  /** The inner loop of `get_inputs_of_program`: visit one operator's inputs. */
  method VisitInputs(pre: seq<Op>, ins: seq<string>, visited0: set<string>, inputVars0: seq<string>)
    returns (visited: set<string>, inputVars: seq<string>)
    requires visited0 == ReadSet(pre) + WriteSet(pre)
    requires inputVars0 == Dedup(ReadsBeforeWrites(pre))
    ensures visited == visited0 + Elems(ins)
    ensures inputVars == Dedup(ReadsBeforeWrites(pre) + NotIn(ins, WriteSet(pre)))
  {
    ghost var w := WriteSet(pre);
    ghost var early := ReadsBeforeWrites(pre);
    visited, inputVars := visited0, inputVars0;
    assert ins[..0] == [];
    assert early + NotIn(ins[..0], w) == early;
    for p := 0 to |ins|
      invariant visited == visited0 + Elems(ins[..p])
      invariant inputVars == Dedup(early + NotIn(ins[..p], w))
    {
      var inVarName := ins[p];
      InputStep(pre, ins, p, visited);
      ElemsSnoc(ins, p);
      if inVarName !in visited {
        inputVars := inputVars + [inVarName];
        visited := visited + {inVarName};
      }
    }
    assert ins[..|ins|] == ins;
  }

  /** `get_inputs_of_program`. */
  method GetInputsOfProgram(prog: Program) returns (inputVars: seq<string>)
    requires prog.Valid()
    ensures inputVars == InputsOf(prog.blocks[0].ops)
    ensures NoDup(inputVars)
  {
    var ops := prog.blocks[0].ops;
    var visited: set<string> := {};
    inputVars := [];
    for k := 0 to |ops|
      invariant visited == ReadSet(ops[..k]) + WriteSet(ops[..k])
      invariant inputVars == Dedup(ReadsBeforeWrites(ops[..k]))
    {
      var op := ops[k];
      assert ops[..k + 1][..k] == ops[..k] && ops[..k + 1][k] == op;
      visited, inputVars := VisitInputs(ops[..k], InputArgNames(op), visited, inputVars);
      visited := visited + Elems(OutputArgNames(op));
    }
    assert ops[..|ops|] == ops;
    DedupNoDup(ReadsBeforeWrites(ops));
  }

  /** `get_outputs_of_program`. */
  method GetOutputsOfProgram(prog: Program) returns (outputVars: seq<string>)
    requires prog.Valid()
    ensures outputVars == OutputsOf(prog.blocks[0].ops)
    ensures NoDup(outputVars)
  {
    var ops := prog.blocks[0].ops;
    outputVars := [];
    for k := 0 to |ops|
      invariant outputVars == Dedup(AllWrites(ops[..k]))
    {
      DedupNoDup(AllWrites(ops[..k]));
      outputVars := ListToOrderedDict(OutputArgNames(ops[k]), outputVars);
      DedupPrefix(AllWrites(ops[..k]), OutputArgNames(ops[k]));
      assert ops[..k + 1][..k] == ops[..k];
    }
    assert ops[..|ops|] == ops;
    DedupNoDup(AllWrites(ops));
  }
}
