/**
  `fusion_seqpool_concat`: the sequences of every input are pooled (sum,
  average or square-root sum) into one row each, and the pooled rows of all
  inputs are concatenated along axis 1. Modelled here: the shape inference,
  the `pooltype` attribute, and the LoD, offset and validation bookkeeping of
  the CPU kernel. The pooling kernel itself is not computed; the kernel is
  described by the calls it makes to it.
 */
module SeqPoolConcat {

  /** The operator's checks that can fail, with the values their messages report. */
  datatype EnforceError =
    | TooFewInputs(count: int)                              // InvalidArgument
    | OutputMissing                                         // NotFound
    | AxisNotOne(axis: int)                                 // InvalidArgument
    | FirstInputNot2D(rank: int)                            // InvalidArgument
    | PoolTypeNotInEnum(value: string)                      // the attribute checker's error
    | WidthNotDividing(outWidth: int, w: int)               // InvalidArgument
    | WidthMismatch(input: nat, width: int, w: int)         // InvalidArgument
    | BatchMismatch(input: nat, lodSize: nat, expected: nat) // InvalidArgument

  datatype Checked<T> = Ok(value: T) | Err(error: EnforceError)

  // ---------------------------------------------------------------------
  // Shape inference

  /** What shape inference sees: the dims of each `X` input, whether `Out` is bound, the `axis` attribute, the phase. */
  datatype ShapeContext = ShapeContext(xDims: seq<seq<int>>, hasOut: bool, axis: int, isRuntime: bool)

  /** What shape inference sets on `Out`: its dims, and whether it also sets its LoD level to 1. */
  datatype OutShape = OutShape(dims: seq<int>, setsLodLevel: bool)

  /**
    `FusionSeqPoolConcatOp::InferShape`. There must be at least one input,
    an output, `axis == 1` and a two-dimensional first input; then `Out` is
    `-1` rows by `n` times the first input's width, and at compile time its
    LoD level is 1.
   */
  function InferShape(ctx: ShapeContext): (r: Checked<OutShape>)
    ensures r.Err? <==> |ctx.xDims| == 0 || !ctx.hasOut || ctx.axis != 1 || |ctx.xDims[0]| != 2
    ensures r.Ok? ==> r.value.dims == [-1, ctx.xDims[0][1] * |ctx.xDims|]
    ensures r.Ok? ==> (r.value.setsLodLevel <==> !ctx.isRuntime)
  {
    var n := |ctx.xDims|;
    if n < 1 then Err(TooFewInputs(n))
    else if !ctx.hasOut then Err(OutputMissing)
    else if ctx.axis != 1 then Err(AxisNotOne(ctx.axis))
    else if |ctx.xDims[0]| != 2 then Err(FirstInputNot2D(|ctx.xDims[0]|))
    else Ok(OutShape([-1, ctx.xDims[0][ctx.axis] * n], !ctx.isRuntime))
  }

  /** The checks run in order: the error reported is the first failing one. */
  lemma InferShapeErrorOrder(ctx: ShapeContext)
    ensures |ctx.xDims| == 0 ==> InferShape(ctx) == Err(TooFewInputs(0))
    ensures |ctx.xDims| > 0 && !ctx.hasOut ==> InferShape(ctx) == Err(OutputMissing)
    ensures |ctx.xDims| > 0 && ctx.hasOut && ctx.axis != 1 ==> InferShape(ctx) == Err(AxisNotOne(ctx.axis))
    ensures |ctx.xDims| > 0 && ctx.hasOut && ctx.axis == 1 && |ctx.xDims[0]| != 2 ==>
      InferShape(ctx) == Err(FirstInputNot2D(|ctx.xDims[0]|))
  {
  }

  // ---------------------------------------------------------------------
  // The `pooltype` attribute

  datatype PoolKind = Sum | Avg | Sqrt

  /** The values `pooltype` may take, and its default. */
  const PoolTypes: seq<string> := ["AVERAGE", "SUM", "SQRT"]
  const DefaultPoolType: string := "SUM"

  /** An attribute as the operator description gives it: unset, or set to a value. */
  datatype AttrValue = Unset | Set(value: string)

  /** The `pooltype` attribute after the maker's checks: the default when unset, an error outside the enum. */
  function PoolTypeAttr(a: AttrValue): (r: Checked<string>)
    ensures r.Ok? ==> r.value in PoolTypes
    ensures a.Unset? ==> r == Ok(DefaultPoolType)
    ensures a.Set? ==> (r.Ok? <==> a.value in PoolTypes) && (r.Ok? ==> r.value == a.value)
  {
    match a
    case Unset => Ok(DefaultPoolType)
    case Set(v) => if v in PoolTypes then Ok(v) else Err(PoolTypeNotInEnum(v))
  }

  /** The kernel's choice of pooling: `AVERAGE` and `SQRT` by name, anything else sums. */
  function PoolKindOf(pooltype: string): PoolKind
  {
    if pooltype == "AVERAGE" then Avg else if pooltype == "SQRT" then Sqrt else Sum
  }

  /** The attribute value that selects each pooling. */
  function PoolTypeName(k: PoolKind): (s: string)
    ensures s in PoolTypes
  {
    match k
    case Avg => "AVERAGE"
    case Sum => "SUM"
    case Sqrt => "SQRT"
  }

  /**
    The three allowed values select three different poolings and name them
    back; the default, like any value outside the enum, sums.
   */
  lemma PoolKindRoundTrip(s: string, k: PoolKind)
    ensures s in PoolTypes ==> PoolTypeName(PoolKindOf(s)) == s
    ensures PoolKindOf(PoolTypeName(k)) == k
    ensures s !in PoolTypes ==> PoolKindOf(s) == Sum
    ensures PoolKindOf(DefaultPoolType) == Sum
  {
    assert "AVERAGE" != "SQRT" && "SUM" != "AVERAGE" && "SUM" != "SQRT" by {
      assert "AVERAGE"[1] != "SQRT"[1] && "SUM"[1] != "AVERAGE"[1] && "SUM"[1] != "SQRT"[1];
    }
  }

  // ---------------------------------------------------------------------
  // The kernel

  /** A runtime input: its dims, its element count and its level-0 LoD (the sequence offsets). */
  datatype LodTensor = LodTensor(dims: seq<int>, numel: int, lod0: seq<nat>)

  /** The kernel divides by the first dimension: it must be positive. */
  predicate HasRows(t: LodTensor)
  {
    |t.dims| > 0 && t.dims[0] > 0 && t.numel >= 0
  }

  predicate AllHaveRows(ins: seq<LodTensor>)
  {
    forall i :: 0 <= i < |ins| ==> HasRows(ins[i])
  }

  /** `numel / dims[0]`: the width of one row. Both are non-negative, so C++'s division and Dafny's agree. */
  function Width(t: LodTensor): int
    requires HasRows(t)
  {
    t.numel / t.dims[0]
  }

  /** One call of the pooling kernel: `h` rows of width `w` of one sequence of one input, read at `src`, written at `dst`. */
  datatype PoolCall = PoolCall(input: nat, sequence: nat, src: int, dst: int, h: int, w: int)

  /**
    The calls for input `i` in closed form: sequence `j` is read after the
    rows of the sequences before it and written to row `j` of the output, in
    the `i`-th block of `w` columns of an `n * w` wide row.
   */
  function InputCalls(i: nat, lod: seq<nat>, w: int, n: nat, bs: nat): (r: seq<PoolCall>)
    requires |lod| == bs + 1
    ensures |r| == bs
  {
    seq(bs, j requires 0 <= j < bs => PoolCall(i, j, w * (lod[j] as int - lod[0]), i * w + j * (n * w), lod[j + 1] as int - lod[j], w))
  }

  /** The outer loop after the first `k` inputs: the calls so far, or the first failed check. */
  function PoolAll(ins: seq<LodTensor>, w: int, bs: nat, k: nat): (r: Checked<seq<seq<PoolCall>>>)
    requires k <= |ins| && AllHaveRows(ins)
    decreases k
  {
    if k == 0 then Ok([])
    else
      match PoolAll(ins, w, bs, k - 1)
      case Err(e) => Err(e)
      case Ok(calls) =>
        var t := ins[k - 1];
        if Width(t) != w then Err(WidthMismatch(k - 1, Width(t), w))
        else if |t.lod0| != bs + 1 then Err(BatchMismatch(k - 1, |t.lod0|, bs + 1))
        else Ok(calls + [InputCalls(k - 1, t.lod0, w, |ins|, bs)])
  }

  /** What the kernel leaves: the output's dims and LoD, the pooling chosen, and the kernel calls, input by input, in order. */
  datatype Output = Output(dims: seq<int>, lod: seq<seq<nat>>, kind: PoolKind, calls: seq<seq<PoolCall>>)

  /**
    The kernel demands inputs with rows, a level-0 LoD on the first input
    (its batch size is one less than its length) and a non-zero width of the
    first input (the width check divides by it).
   */
  predicate ComputeReady(ins: seq<LodTensor>)
  {
    |ins| > 0 && AllHaveRows(ins) && |ins[0].lod0| > 0 && Width(ins[0]) != 0
  }

  /** The batch size: the number of sequences of the first input. */
  function BatchSize(ins: seq<LodTensor>): nat
    requires |ins| > 0 && |ins[0].lod0| > 0
  {
    |ins[0].lod0| - 1
  }

  /** `FusionSeqPoolConcatKernel::Compute`, as a function of the inputs, `Out`'s width and `pooltype`. */
  function ComputeResult(ins: seq<LodTensor>, outWidth: int, pooltype: string): Checked<Output>
    requires ComputeReady(ins)
  {
    var bs := BatchSize(ins);
    var w := Width(ins[0]);
    if outWidth % w != 0 then Err(WidthNotDividing(outWidth, w))
    else match PoolAll(ins, w, bs, |ins|)
      case Err(e) => Err(e)
      case Ok(calls) => Ok(Output([bs, outWidth], [seq(bs + 1, k => k)], PoolKindOf(pooltype), calls))
  }

  /** `y_lod[0]`: the offsets `0, 1, ..., bs`, filled in a loop. */
  method BuildYLod(bs: nat) returns (lod: seq<nat>)
    ensures |lod| == bs + 1 && forall k :: 0 <= k <= bs ==> lod[k] == k
  {
    var a := new nat[bs + 1];
    for i := 0 to bs + 1
      invariant forall k :: 0 <= k < i ==> a[k] == k
    {
      a[i] := i;
    }
    lod := a[..];
  }

  /** The inner loop for input `i`: `dst` advances by `n * w`, `src` by `h * w`. */
  method PoolInput(i: nat, lod: seq<nat>, w: int, n: nat, bs: nat) returns (calls: seq<PoolCall>)
    requires |lod| == bs + 1
    ensures calls == InputCalls(i, lod, w, n, bs)
  {
    var dstStep := n * w;
    var src := 0;
    var dst := i * w;
    calls := [];
    for j := 0 to bs
      invariant |calls| == j
      invariant src == w * (lod[j] as int - lod[0]) && dst == i * w + j * dstStep
      invariant forall m :: 0 <= m < j ==> calls[m] == InputCalls(i, lod, w, n, bs)[m]
    {
      var h := lod[j + 1] as int - lod[j];
      calls := calls + [PoolCall(i, j, src, dst, h, w)];
      dst := dst + dstStep;
      src := src + h * w;
      SourceAdvance(w, lod[0], lod[j], lod[j + 1]);
      assert dst == i * w + (j + 1) * dstStep by {
        assert (j + 1) * dstStep == j * dstStep + dstStep;
      }
    }
  }

  /** The source pointer after one more sequence. */
  lemma SourceAdvance(w: int, l0: int, lj: int, lk: int)
    ensures w * (lj - l0) + (lk - lj) * w == w * (lk - l0)
  {
    assert w * (lk - l0) == w * (lj - l0) + w * (lk - lj);
  }

  /** `FusionSeqPoolConcatKernel::Compute`. */
  method Compute(ins: seq<LodTensor>, outWidth: int, pooltype: string) returns (r: Checked<Output>)
    requires ComputeReady(ins)
    ensures r == ComputeResult(ins, outWidth, pooltype)
  {
    var bs := |ins[0].lod0| - 1;
    var yLod := BuildYLod(bs);
    assert yLod == seq(bs + 1, k => k);
    var w := ins[0].numel / ins[0].dims[0];
    if outWidth % w != 0 {
      return Err(WidthNotDividing(outWidth, w));
    }
    var kind := Sum;
    if pooltype == "AVERAGE" {
      kind := Avg;
    } else if pooltype == "SQRT" {
      kind := Sqrt;
    }
    var n := |ins|;
    var calls: seq<seq<PoolCall>> := [];
    for i := 0 to n
      invariant PoolAll(ins, w, bs, i) == Ok(calls)
    {
      var t := ins[i];
      if t.numel / t.dims[0] != w {
        PoolAllErrorPersists(ins, w, bs, i + 1, n);
        return Err(WidthMismatch(i, t.numel / t.dims[0], w));
      }
      if |t.lod0| != bs + 1 {
        PoolAllErrorPersists(ins, w, bs, i + 1, n);
        return Err(BatchMismatch(i, |t.lod0|, bs + 1));
      }
      var more := PoolInput(i, t.lod0, w, n, bs);
      calls := calls + [more];
    }
    return Ok(Output([bs, outWidth], [yLod], kind, calls));
  }

  lemma {:induction false} PoolAllErrorPersists(ins: seq<LodTensor>, w: int, bs: nat, i: nat, k: nat)
    requires i <= k <= |ins| && AllHaveRows(ins) && PoolAll(ins, w, bs, i).Err?
    ensures PoolAll(ins, w, bs, k) == PoolAll(ins, w, bs, i)
    decreases k - i
  {
    if i < k {
      PoolAllErrorPersists(ins, w, bs, i, k - 1);
    }
  }

  // ---------------------------------------------------------------------
  // Properties of the kernel

  /** An input that passes both checks. */
  predicate InputOk(ins: seq<LodTensor>, w: int, bs: nat, i: nat)
    requires i < |ins| && AllHaveRows(ins)
  {
    Width(ins[i]) == w && |ins[i].lod0| == bs + 1
  }

  /** The error of an input that fails a check: the width check comes first. */
  function InputError(ins: seq<LodTensor>, w: int, bs: nat, i: nat): EnforceError
    requires i < |ins| && AllHaveRows(ins)
  {
    if Width(ins[i]) != w then WidthMismatch(i, Width(ins[i]), w) else BatchMismatch(i, |ins[i].lod0|, bs + 1)
  }

  /**
    The loop fails exactly when some input has another width or another
    batch size, and then with the error of the first such input.
   */
  lemma {:induction false} PoolAllChecks(ins: seq<LodTensor>, w: int, bs: nat, k: nat)
    requires k <= |ins| && AllHaveRows(ins)
    ensures PoolAll(ins, w, bs, k).Ok? <==> forall i :: 0 <= i < k ==> InputOk(ins, w, bs, i)
    ensures PoolAll(ins, w, bs, k).Err? ==> exists i :: (0 <= i < k && !InputOk(ins, w, bs, i) &&
      (forall m :: 0 <= m < i ==> InputOk(ins, w, bs, m)) && PoolAll(ins, w, bs, k).error == InputError(ins, w, bs, i))
    decreases k
  {
    if k > 0 {
      PoolAllChecks(ins, w, bs, k - 1);
      if PoolAll(ins, w, bs, k - 1).Ok? && !InputOk(ins, w, bs, k - 1) {
        assert PoolAll(ins, w, bs, k).error == InputError(ins, w, bs, k - 1);
      }
    }
  }

  /**
    When every input passes, the loop pools every input in turn: its `i`-th
    group of calls is input `i`'s `bs` sequences in closed form.
   */
  lemma {:induction false} PoolAllCalls(ins: seq<LodTensor>, w: int, bs: nat, k: nat)
    requires k <= |ins| && AllHaveRows(ins)
    requires forall i :: 0 <= i < k ==> Width(ins[i]) == w && |ins[i].lod0| == bs + 1
    ensures PoolAll(ins, w, bs, k).Ok? && |PoolAll(ins, w, bs, k).value| == k
    ensures forall i :: 0 <= i < k ==> PoolAll(ins, w, bs, k).value[i] == InputCalls(i, ins[i].lod0, w, |ins|, bs)
    decreases k
  {
    if k > 0 {
      PoolAllCalls(ins, w, bs, k - 1);
    }
  }

  lemma MulLe(a: int, b: int, c: nat)
    requires a <= b
    ensures a * c <= b * c
  {
    assert b * c - a * c == (b - a) * c;
  }

  /**
    Where the pooled rows go: the call for sequence `j` of input `i` writes
    the `w` values at `i * w + j * n * w`, the `i`-th block of row `j` of an
    `n * w` wide output. Different calls write disjoint ranges, all inside
    the `bs * n * w` values of the output.
   */
  lemma DestinationsTile(n: nat, w: nat, bs: nat, i: nat, j: nat, i': nat, j': nat)
    requires i < n && i' < n && j < bs && j' < bs && (i, j) != (i', j')
    ensures var d := i * w + j * (n * w); var d' := i' * w + j' * (n * w);
      0 <= d && d + w <= bs * (n * w) && (d + w <= d' || d' + w <= d)
  {
    var rowWidth := n * w;
    BlockInRow(n, w, i);
    BlockInRow(n, w, i');
    RowInOutput(rowWidth, bs, j);
    if j < j' {
      RowsApart(i * w, w, rowWidth, j, j');
    } else if j' < j {
      RowsApart(i' * w, w, rowWidth, j', j);
    } else if i < i' {
      MulLe(i + 1, i', w);
      assert (i + 1) * w == i * w + w;
    } else {
      MulLe(i' + 1, i, w);
      assert (i' + 1) * w == i' * w + w;
    }
  }

  /**
    The kernel's writes tile `Out`: two different calls write disjoint runs
    of `w` values, all inside the `bs * (n * w)` values of the output.
   */
  lemma ComputeWritesTile(ins: seq<LodTensor>, outWidth: int, pooltype: string, i: nat, j: nat, i': nat, j': nat)
    requires ComputeReady(ins) && ComputeResult(ins, outWidth, pooltype).Ok?
    requires i < |ins| && i' < |ins| && j < BatchSize(ins) && j' < BatchSize(ins) && (i, j) != (i', j')
    ensures var calls := ComputeResult(ins, outWidth, pooltype).value.calls;
      i < |calls| && i' < |calls| && j < |calls[i]| && j' < |calls[i']|
    ensures var calls := ComputeResult(ins, outWidth, pooltype).value.calls;
      var c, c' := calls[i][j], calls[i'][j'];
      c.w == c'.w == Width(ins[0]) > 0 && 0 <= c.dst && c.dst + c.w <= BatchSize(ins) * (|ins| * Width(ins[0])) &&
      (c.dst + c.w <= c'.dst || c'.dst + c'.w <= c.dst)
  {
    ComputeOutput(ins, outWidth, pooltype);
    DestinationsTile(|ins|, Width(ins[0]), BatchSize(ins), i, j, i', j');
  }

  /** Block `i` of `w` columns lies inside a row of `n` blocks. */
  lemma BlockInRow(n: nat, w: nat, i: nat)
    requires i < n
    ensures 0 <= i * w && i * w + w <= n * w
  {
    MulLe(i + 1, n, w);
    assert (i + 1) * w == i * w + w;
  }

  /** Row `j` lies inside `bs` rows. */
  lemma RowInOutput(rowWidth: nat, bs: nat, j: nat)
    requires j < bs
    ensures 0 <= j * rowWidth && j * rowWidth + rowWidth <= bs * rowWidth
  {
    MulLe(j + 1, bs, rowWidth);
    assert (j + 1) * rowWidth == j * rowWidth + rowWidth;
  }

  /** Anything inside row `j` comes before row `j'`, for `j < j'`. */
  lemma RowsApart(a: int, w: nat, rowWidth: nat, j: nat, j': nat)
    requires a + w <= rowWidth && j < j'
    ensures a + j * rowWidth + w <= j' * rowWidth
  {
    MulLe(j + 1, j', rowWidth);
    assert (j + 1) * rowWidth == j * rowWidth + rowWidth;
  }

  /**
    Where the inputs are read: input `i`'s calls start at its first value
    and each one starts where the one before it stopped, `h * w` values on.
   */
  lemma SourcesContiguous(i: nat, lod: seq<nat>, w: int, n: nat, bs: nat)
    requires |lod| == bs + 1
    ensures bs > 0 ==> InputCalls(i, lod, w, n, bs)[0].src == 0
    ensures forall j :: 0 <= j < bs - 1 ==>
      InputCalls(i, lod, w, n, bs)[j].src + InputCalls(i, lod, w, n, bs)[j].h * w == InputCalls(i, lod, w, n, bs)[j + 1].src
  {
    var r := InputCalls(i, lod, w, n, bs);
    forall j | 0 <= j < bs - 1
      ensures r[j].src + r[j].h * w == r[j + 1].src
    {
      SourceAdvance(w, lod[0], lod[j], lod[j + 1]);
    }
  }

  /**
    The kernel fails exactly when `Out`'s width is not a multiple of the
    first input's width, or some input has another width or batch size; the
    divisibility check comes first, then the inputs in order.
   */
  lemma ComputeChecks(ins: seq<LodTensor>, outWidth: int, pooltype: string)
    requires ComputeReady(ins)
    ensures ComputeResult(ins, outWidth, pooltype).Ok? <==>
      outWidth % Width(ins[0]) == 0 && forall i :: 0 <= i < |ins| ==> InputOk(ins, Width(ins[0]), BatchSize(ins), i)
    ensures outWidth % Width(ins[0]) != 0 ==> ComputeResult(ins, outWidth, pooltype) == Err(WidthNotDividing(outWidth, Width(ins[0])))
    ensures outWidth % Width(ins[0]) == 0 && ComputeResult(ins, outWidth, pooltype).Err? ==>
      exists i :: (0 <= i < |ins| && !InputOk(ins, Width(ins[0]), BatchSize(ins), i) &&
        (forall m :: 0 <= m < i ==> InputOk(ins, Width(ins[0]), BatchSize(ins), m)) &&
        ComputeResult(ins, outWidth, pooltype).error == InputError(ins, Width(ins[0]), BatchSize(ins), i))
  {
    PoolAllChecks(ins, Width(ins[0]), BatchSize(ins), |ins|);
  }

  /**
    On success `Out` is `bs` rows of `Out`'s width whose LoD puts sequence
    `k` at row `k` (one pooled row per sequence), the pooling is the one
    `pooltype` names, and input `i` is pooled by its `bs` calls in closed
    form.
   */
  lemma ComputeOutput(ins: seq<LodTensor>, outWidth: int, pooltype: string)
    requires ComputeReady(ins) && ComputeResult(ins, outWidth, pooltype).Ok?
    ensures var out := ComputeResult(ins, outWidth, pooltype).value; var bs := BatchSize(ins);
      out.dims == [bs, outWidth] && |out.lod| == 1 && |out.lod[0]| == bs + 1 &&
      (forall k :: 0 <= k <= bs ==> out.lod[0][k] == k) && out.kind == PoolKindOf(pooltype)
    ensures var out := ComputeResult(ins, outWidth, pooltype).value;
      |out.calls| == |ins| && forall i :: 0 <= i < |ins| ==> (|ins[i].lod0| == BatchSize(ins) + 1 &&
        out.calls[i] == InputCalls(i, ins[i].lod0, Width(ins[0]), |ins|, BatchSize(ins)))
  {
    var w, bs := Width(ins[0]), BatchSize(ins);
    PoolAllChecks(ins, w, bs, |ins|);
    forall i | 0 <= i < |ins|
      ensures Width(ins[i]) == w && |ins[i].lod0| == bs + 1
    {
      assert InputOk(ins, w, bs, i);
    }
    PoolAllCalls(ins, w, bs, |ins|);
  }

  /**
    What shape inference sets and what the kernel checks agree: for a
    two-dimensional first input whose element count is its dims' product,
    the width is its second dimension and shape inference's `Out` width
    `n * w` passes the divisibility check.
   */
  lemma InferredWidthDivides(ins: seq<LodTensor>, n: nat)
    requires ComputeReady(ins) && |ins[0].dims| == 2 && ins[0].dims[1] > 0
    requires ins[0].numel == ins[0].dims[0] * ins[0].dims[1]
    ensures Width(ins[0]) == ins[0].dims[1]
    ensures (ins[0].dims[1] * n) % Width(ins[0]) == 0
  {
    var d0, d1 := ins[0].dims[0], ins[0].dims[1];
    DivUnique(d0 * d1, d0, d1, 0);
    assert d0 * d1 == d1 * d0;
    DivUnique(d1 * n, d1, n, 0);
    assert d1 * n == n * d1;
  }

  /** Division and remainder are determined by `x == q * m + r` with `0 <= r < m`. */
  lemma DivUnique(x: int, m: int, q: int, r: int)
    requires m > 0 && 0 <= r < m && x == q * m + r
    ensures x / m == q && x % m == r
  {
    var d := x / m - q;
    assert d * m == r - x % m;
    MulSmall(d, m);
  }

  /** A multiple of `m` strictly between `-m` and `m` is zero. */
  lemma MulSmall(d: int, m: int)
    requires m > 0 && -m < d * m < m
    ensures d == 0
  {
    if d >= 1 {
      MulLe(1, d, m);
      assert false;
    } else if d <= -1 {
      MulLe(d, -1, m);
      assert false;
    }
  }
}
