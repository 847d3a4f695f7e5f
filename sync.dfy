/**
  The communication rewrites a pipeline program gets before it is cut by
  role: `_insert_sync_for_fthenb_1f1b` (explicit calc/comm stream syncs),
  `_overlap_send_recv` (stream names instead of syncs) and
  `_add_event_dependency` (cross-program events).
 */
module Sync {
  import opened Ir
  import opened Dataflow
  import opened Passes

  /** Python's `list.insert(p, x)` for a non-negative `p`: past the end it appends. */
  function Insert<T(==)>(s: seq<T>, p: nat, x: T): (r: seq<T>)
    ensures |r| == |s| + 1
  {
    if p >= |s| then s + [x] else s[..p] + [x] + s[p..]
  }

  lemma InsertAt<T>(a: seq<T>, b: seq<T>, x: T)
    ensures Insert(a + b, |a|, x) == a + [x] + b
  {
    if b != [] {
      assert (a + b)[..|a|] == a && (a + b)[|a|..] == b;
    }
  }

  /** The first index whose operator satisfies `p`, as the `for ... if ...: break` loops find it. */
  function FirstWhere(ops: seq<Op>, p: Op -> bool): (r: Option<nat>)
    ensures r.Some? ==> r.value < |ops| && p(ops[r.value]) && forall j :: 0 <= j < r.value ==> !p(ops[j])
    ensures r.None? ==> forall j :: 0 <= j < |ops| ==> !p(ops[j])
    decreases |ops|
  {
    if ops == [] then None
    else if p(ops[0]) then Some(0)
    else match FirstWhere(ops[1..], p)
      case None => None
      case Some(j) => Some(j + 1)
  }

  method FirstIndexWhere(ops: seq<Op>, p: Op -> bool) returns (r: Option<nat>)
    ensures r == FirstWhere(ops, p)
  {
    for index := 0 to |ops|
      invariant forall j :: 0 <= j < index ==> !p(ops[j])
    {
      if p(ops[index]) {
        FirstWhereUnique(ops, p, index);
        return Some(index);
      }
    }
    FirstWhereUnique(ops, p, |ops|);
    return None;
  }

  /** The first index is determined by where `p` first holds. */
  lemma FirstWhereUnique(ops: seq<Op>, p: Op -> bool, i: nat)
    requires i <= |ops| && forall j :: 0 <= j < i ==> !p(ops[j])
    requires i < |ops| ==> p(ops[i])
    ensures FirstWhere(ops, p) == if i < |ops| then Some(i) else None
  {
    var r := FirstWhere(ops, p);
    if r.Some? {
      assert r.value >= i;
    }
  }

  // ---------------------------------------------------------------------
  // Inserted operators

  function SyncOp(opType: string, v: string, attrs: map<string, Attr>): Op
  {
    Op(opType, [Slot("X", [v])], [Slot("Out", [v])], attrs, DefaultDistAttr)
  }

  /** The `c_sync_calc_stream` put before a send. */
  function CalcOp(v: string, role: int): Op
  {
    SyncOp("c_sync_calc_stream", v, map["op_role" := AInt(role)])
  }

  /** The `c_sync_comm_stream` for a send; `flagged` adds the empty `pipeline_flag`. */
  function CommOp(v: string, role: int, ring: int, flagged: bool): Op
  {
    var attrs := map["op_role" := AInt(role), "ring_id" := AInt(ring)];
    SyncOp("c_sync_comm_stream", v, if flagged then attrs["pipeline_flag" := AStr("")] else attrs)
  }

  /** The `nop` that keeps a removed sync's variable alive for the old executor. */
  function NopOp(v: string): Op
  {
    SyncOp("nop", v, map["op_role" := AInt(RoleBackward)])
  }

  /** The attributes a send or receive gets: `dynamic_shape` off and, for a send, `use_calc_stream` off. */
  function Tuned(op: Op): (r: Op)
    ensures r.opType == op.opType && r.inputs == op.inputs && r.outputs == op.outputs && r.dist == op.dist
    ensures op.opType in {"send_v2", "recv_v2"} ==> "dynamic_shape" in r.attrs && r.attrs["dynamic_shape"] == ABool(false)
    ensures op.opType == "send_v2" ==> "use_calc_stream" in r.attrs && r.attrs["use_calc_stream"] == ABool(false)
    ensures op.opType !in {"send_v2", "recv_v2"} ==> r == op
  {
    if op.opType == "send_v2" then
      op.(attrs := op.attrs["dynamic_shape" := ABool(false)]["use_calc_stream" := ABool(false)])
    else if op.opType == "recv_v2" then op.(attrs := op.attrs["dynamic_shape" := ABool(false)])
    else op
  }

  // ---------------------------------------------------------------------
  // Phase 1: syncs around every send

  /**
    The block's list during phase 1: the original operator at snapshot index
    `k` (an object the loop updates in place), or an inserted one.
   */
  datatype Item =
    | Orig(k: nat)
    | CalcSync(v: string, role: int)
    | CommSync(v: string, role: int, ring: int, flagged: bool)

  /** `[Orig(a), ..., Orig(b-1)]`. */
  function OrigRange(a: nat, b: nat): (r: seq<Item>)
    ensures |r| == if a <= b then b - a else 0
    ensures forall j :: 0 <= j < |r| ==> r[j] == Orig(a + j)
    decreases b - a
  {
    if a >= b then [] else [Orig(a)] + OrigRange(a + 1, b)
  }

  lemma OrigRangeSplit(a: nat, m: nat, b: nat)
    requires a <= m <= b
    ensures OrigRange(a, b) == OrigRange(a, m) + OrigRange(m, b)
  {
    assert OrigRange(a, b) == OrigRange(a, m) + OrigRange(m, b);
  }

  /** Every original an item list refers to exists. */
  predicate ItemsIn(items: seq<Item>, n: nat)
  {
    forall it :: it in items && it.Orig? ==> it.k < n
  }

  /** The block's operators once phase 1 is over, each original updated once. */
  function Materialize(items: seq<Item>, ops0: seq<Op>): (r: seq<Op>)
    requires ItemsIn(items, |ops0|)
    ensures |r| == |items|
  {
    seq(|items|, j requires 0 <= j < |items| => match items[j]
      case Orig(k) => Tuned(ops0[k])
      case CalcSync(v, role) => CalcOp(v, role)
      case CommSync(v, role, ring, flagged) => CommOp(v, role, ring, flagged))
  }

  /** The error phase 1 raises at a send, if any. */
  function SendError(op: Op, vars: map<string, VarDesc>, hasOptimize: bool): Option<Error>
  {
    if |InputArgNames(op)| == 0 then Some(IndexError("list index out of range"))
    else if InputArgNames(op)[0] !in vars then Some(ValueError(InputArgNames(op)[0]))
    else if Role(op) == RoleBackward && !hasOptimize then Some(TypeError("unsupported operand type(s) for +: 'NoneType' and 'int'"))
    else None
  }

  datatype SyncState = SyncState(items: seq<Item>, offset: nat)

  /** The rewrite of a send that raises nothing: its calc sync before it, its comm sync where its role says. */
  function SendStep(ops0: seq<Op>, first: Option<nat>, st: SyncState, index: nat): SyncState
    requires index < |ops0| && |InputArgNames(ops0[index])| > 0
    requires Role(ops0[index]) == RoleBackward ==> first.Some?
  {
    var op := ops0[index];
    var v := InputArgNames(op)[0];
    var role := Role(op);
    var items := Insert(st.items, index + st.offset, CalcSync(v, role));
    var offset := st.offset + 1;
    var at := if role == RoleBackward then first.value + offset else index + offset + 1;
    var newRole := if role == RoleBackward then RoleOptimize else RoleBackward;
    var items' := Insert(items, at, CommSync(v, newRole, RingId(op), role == RoleForward));
    SyncState(items', if role == RoleForward then offset + 1 else offset)
  }

  /** One iteration of the phase-1 loop, at snapshot index `index`. */
  function SyncStep(ops0: seq<Op>, first: Option<nat>, vars: map<string, VarDesc>, st: SyncState, index: nat)
    : Result<SyncState>
    requires index < |ops0|
  {
    var op := ops0[index];
    if op.opType != "send_v2" then Ok(st)
    else match SendError(op, vars, first.Some?)
      case Some(e) => Err(e)
      case None => Ok(SendStep(ops0, first, st, index))
  }

  /** The phase-1 loop after the first `i` snapshot operators. */
  function SyncUpTo(ops0: seq<Op>, first: Option<nat>, vars: map<string, VarDesc>, i: nat): (r: Result<SyncState>)
    requires i <= |ops0|
    decreases i
  {
    if i == 0 then Ok(SyncState(OrigRange(0, |ops0|), 0))
    else match SyncUpTo(ops0, first, vars, i - 1)
      case Err(e) => Err(e)
      case Ok(st) => SyncStep(ops0, first, vars, st, i - 1)
  }

  lemma InsertItemsIn(items: seq<Item>, p: nat, x: Item, n: nat)
    requires ItemsIn(items, n) && !x.Orig?
    ensures ItemsIn(Insert(items, p, x), n)
  {
    var r := Insert(items, p, x);
    forall it | it in r && it.Orig? ensures it.k < n {
      if p < |items| {
        assert it in items[..p] || it in [x] || it in items[p..];
      }
    }
  }

  /** Phase 1 only ever refers to operators of the snapshot. */
  lemma {:induction false} SyncItemsIn(ops0: seq<Op>, first: Option<nat>, vars: map<string, VarDesc>, i: nat)
    requires i <= |ops0| && SyncUpTo(ops0, first, vars, i).Ok?
    ensures ItemsIn(SyncUpTo(ops0, first, vars, i).value.items, |ops0|)
    decreases i
  {
    if i > 0 {
      SyncUpToUnfold(ops0, first, vars, i);
      SyncItemsIn(ops0, first, vars, i - 1);
      StepItemsIn(ops0, first, vars, SyncUpTo(ops0, first, vars, i - 1).value, i - 1);
    }
  }

  /** A successful prefix of phase 1 extends the one before it by one step. */
  lemma SyncUpToUnfold(ops0: seq<Op>, first: Option<nat>, vars: map<string, VarDesc>, i: nat)
    requires 0 < i <= |ops0| && SyncUpTo(ops0, first, vars, i).Ok?
    ensures SyncUpTo(ops0, first, vars, i - 1).Ok?
    ensures SyncUpTo(ops0, first, vars, i) == SyncStep(ops0, first, vars, SyncUpTo(ops0, first, vars, i - 1).value, i - 1)
  {
  }

  lemma StepItemsIn(ops0: seq<Op>, first: Option<nat>, vars: map<string, VarDesc>, st: SyncState, index: nat)
    requires index < |ops0| && ItemsIn(st.items, |ops0|) && SyncStep(ops0, first, vars, st, index).Ok?
    ensures ItemsIn(SyncStep(ops0, first, vars, st, index).value.items, |ops0|)
  {
    var op := ops0[index];
    if op.opType == "send_v2" {
      var v := InputArgNames(op)[0];
      var role := Role(op);
      var offset := st.offset + 1;
      var at := if role == RoleBackward then first.value + offset else index + offset + 1;
      var newRole := if role == RoleBackward then RoleOptimize else RoleBackward;
      InsertItemsIn(st.items, index + st.offset, CalcSync(v, role), |ops0|);
      InsertItemsIn(Insert(st.items, index + st.offset, CalcSync(v, role)), at,
        CommSync(v, newRole, RingId(op), role == RoleForward), |ops0|);
    }
  }

  /** The first send of `ops0[..i]` that raises, with its error. */
  function FirstSendError(ops0: seq<Op>, vars: map<string, VarDesc>, hasOptimize: bool, i: nat): Option<Error>
    requires i <= |ops0|
    decreases i
  {
    if i == 0 then None
    else match FirstSendError(ops0, vars, hasOptimize, i - 1)
      case Some(e) => Some(e)
      case None => if ops0[i - 1].opType == "send_v2" then SendError(ops0[i - 1], vars, hasOptimize) else None
  }

  /** Phase 1 fails exactly at the first send that has no input, an undeclared input, or (backward) no optimize op to sync before. */
  lemma {:induction false} SyncUpToError(ops0: seq<Op>, first: Option<nat>, vars: map<string, VarDesc>, i: nat)
    requires i <= |ops0|
    ensures SyncUpTo(ops0, first, vars, i).Err? <==> FirstSendError(ops0, vars, first.Some?, i).Some?
    ensures SyncUpTo(ops0, first, vars, i).Err? ==>
      Some(SyncUpTo(ops0, first, vars, i).error) == FirstSendError(ops0, vars, first.Some?, i)
    decreases i
  {
    if i > 0 {
      SyncUpToError(ops0, first, vars, i - 1);
    }
  }

  /** Only inserted items are added: the originals stay, in their order. */
  function Originals(items: seq<Item>): seq<Item>
    decreases |items|
  {
    if items == [] then []
    else (if items[|items| - 1].Orig? then Originals(items[..|items| - 1]) + [items[|items| - 1]]
          else Originals(items[..|items| - 1]))
  }

  lemma {:induction false} OriginalsAppend(a: seq<Item>, b: seq<Item>)
    ensures Originals(a + b) == Originals(a) + Originals(b)
    decreases |b|
  {
    if b == [] {
      assert a + b == a;
    } else {
      OriginalsAppend(a, b[..|b| - 1]);
      assert (a + b)[..|a + b| - 1] == a + b[..|b| - 1];
    }
  }

  lemma OriginalsInsert(s: seq<Item>, p: nat, x: Item)
    requires !x.Orig?
    ensures Originals(Insert(s, p, x)) == Originals(s)
  {
    if p >= |s| {
      OriginalsAppend(s, [x]);
    } else {
      assert s == s[..p] + s[p..];
      OriginalsAppend(s[..p] + [x], s[p..]);
      OriginalsAppend(s[..p], [x]);
      OriginalsAppend(s[..p], s[p..]);
      assert Originals([x]) == [];
    }
  }

  lemma {:induction false} OriginalsOfRange(a: nat, b: nat)
    ensures Originals(OrigRange(a, b)) == OrigRange(a, b)
    decreases b - a
  {
    if a < b {
      OriginalsOfRange(a + 1, b);
      OriginalsAppend([Orig(a)], OrigRange(a + 1, b));
      assert Originals([Orig(a)]) == [Orig(a)] by {
        assert [Orig(a)][..0] == [];
      }
    }
  }

  /**
    Whatever the inputs, phase 1 only inserts: the original operators all stay
    and keep their relative order.
   */
  lemma {:induction false} SyncKeepsOriginals(ops0: seq<Op>, first: Option<nat>, vars: map<string, VarDesc>, i: nat)
    requires i <= |ops0| && SyncUpTo(ops0, first, vars, i).Ok?
    ensures Originals(SyncUpTo(ops0, first, vars, i).value.items) == OrigRange(0, |ops0|)
    decreases i
  {
    if i == 0 {
      OriginalsOfRange(0, |ops0|);
    } else {
      SyncUpToUnfold(ops0, first, vars, i);
      SyncKeepsOriginals(ops0, first, vars, i - 1);
      StepKeepsOriginals(ops0, first, vars, SyncUpTo(ops0, first, vars, i - 1).value, i - 1);
    }
  }

  lemma StepKeepsOriginals(ops0: seq<Op>, first: Option<nat>, vars: map<string, VarDesc>, st: SyncState, index: nat)
    requires index < |ops0| && SyncStep(ops0, first, vars, st, index).Ok?
    ensures Originals(SyncStep(ops0, first, vars, st, index).value.items) == Originals(st.items)
  {
    if ops0[index].opType == "send_v2" {
      SendStepKeepsOriginals(ops0, first, st, index);
    }
  }

  lemma SendStepKeepsOriginals(ops0: seq<Op>, first: Option<nat>, st: SyncState, index: nat)
    requires index < |ops0| && |InputArgNames(ops0[index])| > 0
    requires Role(ops0[index]) == RoleBackward ==> first.Some?
    ensures Originals(SendStep(ops0, first, st, index).items) == Originals(st.items)
  {
    var op := ops0[index];
    var v := InputArgNames(op)[0];
    var role := Role(op);
    var items := Insert(st.items, index + st.offset, CalcSync(v, role));
    OriginalsInsert(st.items, index + st.offset, CalcSync(v, role));
    var offset := st.offset + 1;
    var at := if role == RoleBackward then first.value + offset else index + offset + 1;
    var newRole := if role == RoleBackward then RoleOptimize else RoleBackward;
    OriginalsInsert(items, at, CommSync(v, newRole, RingId(op), role == RoleForward));
  }

  // ---------------------------------------------------------------------
  // The layout phase 1 produces on a well-formed block

  /**
    The sends of a well-formed block have a declared first input, are of
    Forward or Backward role, and come before the first optimize op; a block
    without an optimize op has only forward sends.
   */
  predicate WellFormedSends(ops0: seq<Op>, first: Option<nat>, vars: map<string, VarDesc>)
  {
    (first.Some? ==> first.value < |ops0|) &&
    forall k :: 0 <= k < |ops0| && ops0[k].opType == "send_v2" ==>
      SendError(ops0[k], vars, first.Some?).None? &&
      (Role(ops0[k]) == RoleForward || Role(ops0[k]) == RoleBackward) &&
      (first.Some? ==> k < first.value)
  }

  /** Where the sends stop: the first optimize op, or the end. */
  function SendsEnd(ops0: seq<Op>, first: Option<nat>): nat
  {
    if first.Some? then first.value else |ops0|
  }

  /**
    What operator `k` becomes in place: a send is preceded by its calc sync
    and, unless it is a backward send, followed by its comm sync (flagged
    for a forward send).
   */
  function Unit(ops0: seq<Op>, k: nat): (r: seq<Item>)
    requires k < |ops0|
    ensures |r| >= 1
  {
    var op := ops0[k];
    if op.opType == "send_v2" && |InputArgNames(op)| > 0 then
      var v := InputArgNames(op)[0];
      [CalcSync(v, Role(op)), Orig(k)] +
        (if Role(op) != RoleBackward then [CommSync(v, RoleBackward, RingId(op), Role(op) == RoleForward)] else [])
    else [Orig(k)]
  }

  /** The units of the first `i` operators, in order. */
  function Expanded(ops0: seq<Op>, i: nat): (r: seq<Item>)
    requires i <= |ops0|
    ensures |r| >= i
  {
    if i == 0 then [] else Expanded(ops0, i - 1) + Unit(ops0, i - 1)
  }

  /** The comm syncs of the backward sends among the first `i` operators, latest first. */
  function BackwardComms(ops0: seq<Op>, i: nat): seq<Item>
    requires i <= |ops0|
  {
    if i == 0 then []
    else
      var op := ops0[i - 1];
      (if op.opType == "send_v2" && |InputArgNames(op)| > 0 && Role(op) == RoleBackward
       then [CommSync(InputArgNames(op)[0], RoleOptimize, RingId(op), false)] else []) +
      BackwardComms(ops0, i - 1)
  }

  /**
    The block after the first `i <= e` operators (`e` the end of the sends): the
    rewritten prefix, the untouched operators up to the first optimize op, the
    backward comm syncs, and the optimize part.
   */
  function Layout(ops0: seq<Op>, i: nat, e: nat): seq<Item>
    requires i <= e <= |ops0|
  {
    Expanded(ops0, i) + OrigRange(i, e) + BackwardComms(ops0, i) + OrigRange(e, |ops0|)
  }

  /** The loop state after the first `i` operators of a well-formed block. */
  function LayoutState(ops0: seq<Op>, first: Option<nat>, i: nat): SyncState
    requires i <= SendsEnd(ops0, first) <= |ops0|
  {
    SyncState(Layout(ops0, i, SendsEnd(ops0, first)), |Expanded(ops0, i)| - i)
  }

  /** The list shapes of one step, for any element type. */
  lemma QuietShape<T>(E: seq<T>, x: T, tail: seq<T>, BC: seq<T>, rest: seq<T>)
    ensures E + ([x] + tail) + BC + rest == (E + [x]) + tail + BC + rest
  {
  }

  lemma RegroupFront<T>(E: seq<T>, A: seq<T>, B: seq<T>, C: seq<T>)
    ensures E + A + B + C == E + (A + B + C)
  {
  }

  lemma RegroupSync<T>(E: seq<T>, s: T, x: T, tail: seq<T>, G: seq<T>)
    ensures E + [s] + ([x] + tail + G) == (E + [s, x]) + tail + G
  {
  }

  lemma RegroupComm<T>(E: seq<T>, s: T, x: T, c: T, tail: seq<T>, BC: seq<T>, rest: seq<T>)
    ensures (E + [s, x]) + [c] + (tail + BC + rest) == (E + [s, x, c]) + tail + BC + rest
  {
  }

  lemma RegroupBackward<T>(F: seq<T>, c: T, BC: seq<T>, rest: seq<T>)
    ensures F + [c] + (BC + rest) == F + ([c] + BC) + rest
  {
  }

  lemma ForwardShape<T>(E: seq<T>, x: T, tail: seq<T>, BC: seq<T>, rest: seq<T>, s: T, c: T,
                        items: seq<T>, p: nat, q: nat)
    requires items == E + ([x] + tail) + BC + rest && p == |E| && q == |E| + 2
    ensures Insert(Insert(items, p, s), q, c) == (E + [s, x, c]) + tail + BC + rest
  {
    var Y := [x] + tail + BC + rest;
    RegroupFront(E, [x] + tail, BC, rest);
    InsertAt(E, Y, s);
    assert [x] + tail + BC + rest == [x] + (tail + BC + rest) by {
      RegroupFront([x], tail, BC, rest);
    }
    RegroupSync(E, s, x, [], tail + BC + rest);
    assert E + [s] + Y == (E + [s, x]) + (tail + BC + rest) by {
      assert E + [s] + Y == E + [s] + ([x] + [] + (tail + BC + rest));
      assert (E + [s, x]) + [] + (tail + BC + rest) == (E + [s, x]) + (tail + BC + rest);
    }
    InsertAt(E + [s, x], tail + BC + rest, c);
    RegroupComm(E, s, x, c, tail, BC, rest);
  }

  lemma BackwardShape<T>(E: seq<T>, x: T, tail: seq<T>, BC: seq<T>, rest: seq<T>, s: T, c: T,
                         items: seq<T>, p: nat, q: nat)
    requires items == E + ([x] + tail) + BC + rest && p == |E| && q == |E| + 2 + |tail|
    ensures Insert(Insert(items, p, s), q, c) == (E + [s, x]) + tail + ([c] + BC) + rest
  {
    var Y := [x] + tail + BC + rest;
    RegroupFront(E, [x] + tail, BC, rest);
    InsertAt(E, Y, s);
    assert Y == [x] + tail + (BC + rest);
    RegroupSync(E, s, x, tail, BC + rest);
    var F := (E + [s, x]) + tail;
    InsertAt(F, BC + rest, c);
    RegroupBackward(F, c, BC, rest);
  }

  /** The facts every step uses: the layout before the step, split at operator `i`. */
  lemma LayoutAt(ops0: seq<Op>, i: nat, e: nat)
    requires i < e <= |ops0|
    ensures Layout(ops0, i, e) ==
      Expanded(ops0, i) + ([Orig(i)] + OrigRange(i + 1, e)) + BackwardComms(ops0, i) + OrigRange(e, |ops0|)
    ensures Layout(ops0, i + 1, e) ==
      (Expanded(ops0, i) + Unit(ops0, i)) + OrigRange(i + 1, e) + BackwardComms(ops0, i + 1) + OrigRange(e, |ops0|)
  {
    assert OrigRange(i, e) == [Orig(i)] + OrigRange(i + 1, e);
  }

  lemma LayoutStep(ops0: seq<Op>, first: Option<nat>, vars: map<string, VarDesc>, i: nat, j: nat, st: SyncState)
    requires WellFormedSends(ops0, first, vars)
    requires i < SendsEnd(ops0, first) && j == i + 1
    requires st == LayoutState(ops0, first, i)
    ensures SyncStep(ops0, first, vars, st, i) ==
      Ok(LayoutState(ops0, first, j))
  {
    var op := ops0[i];
    if op.opType != "send_v2" {
      PlainStep(ops0, first, vars, i, st);
    } else if Role(op) == RoleBackward {
      assert SendError(op, vars, first.Some?).None? && i < first.value;
      BackwardSendStep(ops0, first, vars, i, st);
    } else {
      assert SendError(op, vars, first.Some?).None? && Role(op) == RoleForward;
      ForwardSendStep(ops0, first, vars, i, st);
    }
  }

  lemma PlainStep(ops0: seq<Op>, first: Option<nat>, vars: map<string, VarDesc>, i: nat, st: SyncState)
    requires i < SendsEnd(ops0, first) <= |ops0| && ops0[i].opType != "send_v2"
    requires st == LayoutState(ops0, first, i)
    ensures SyncStep(ops0, first, vars, st, i) ==
      Ok(LayoutState(ops0, first, i + 1))
  {
    var e := SendsEnd(ops0, first);
    PlainLayout(ops0, i, e);
    NonSendStep(ops0, first, vars, st, i);
    var next := LayoutState(ops0, first, i + 1);
    assert next.items == st.items && next.offset == st.offset;
  }

  /** Anything but a send is left alone by phase 1. */
  lemma NonSendStep(ops0: seq<Op>, first: Option<nat>, vars: map<string, VarDesc>, st: SyncState, i: nat)
    requires i < |ops0| && ops0[i].opType != "send_v2"
    ensures SyncStep(ops0, first, vars, st, i) == Ok(st)
  {
  }

  /** Past an operator that is not a send, the layout is the same list. */
  lemma PlainLayout(ops0: seq<Op>, i: nat, e: nat)
    requires i < e <= |ops0| && ops0[i].opType != "send_v2"
    ensures Layout(ops0, i + 1, e) == Layout(ops0, i, e)
    ensures |Expanded(ops0, i + 1)| == |Expanded(ops0, i)| + 1
  {
    LayoutAt(ops0, i, e);
    assert Unit(ops0, i) == [Orig(i)];
    assert BackwardComms(ops0, i + 1) == BackwardComms(ops0, i);
    QuietShape(Expanded(ops0, i), Orig(i), OrigRange(i + 1, e), BackwardComms(ops0, i), OrigRange(e, |ops0|));
  }

  /** A send that raises nothing becomes its `SendStep`. */
  lemma SendStepTaken(ops0: seq<Op>, first: Option<nat>, vars: map<string, VarDesc>, i: nat, st: SyncState)
    requires i < |ops0| && ops0[i].opType == "send_v2" && SendError(ops0[i], vars, first.Some?).None?
    ensures |InputArgNames(ops0[i])| > 0 && (Role(ops0[i]) == RoleBackward ==> first.Some?)
    ensures SyncStep(ops0, first, vars, st, i) == Ok(SendStep(ops0, first, st, i))
  {
  }

  lemma BackwardSendStep(ops0: seq<Op>, first: Option<nat>, vars: map<string, VarDesc>, i: nat, st: SyncState)
    requires i < SendsEnd(ops0, first) <= |ops0| && ops0[i].opType == "send_v2"
    requires SendError(ops0[i], vars, first.Some?).None? && Role(ops0[i]) == RoleBackward && first.Some? && i < first.value
    requires st == LayoutState(ops0, first, i)
    ensures SyncStep(ops0, first, vars, st, i) ==
      Ok(LayoutState(ops0, first, i + 1))
  {
    SendStepTaken(ops0, first, vars, i, st);
    BackwardItems(ops0, first, i, st);
  }

  lemma BackwardItems(ops0: seq<Op>, first: Option<nat>, i: nat, st: SyncState)
    requires i < SendsEnd(ops0, first) <= |ops0| && ops0[i].opType == "send_v2" && |InputArgNames(ops0[i])| > 0
    requires Role(ops0[i]) == RoleBackward && first.Some? && i < first.value
    requires st == LayoutState(ops0, first, i)
    ensures SendStep(ops0, first, st, i) == LayoutState(ops0, first, i + 1)
  {
    var e := SendsEnd(ops0, first);
    LayoutBefore(ops0, i, e);
    var E := Expanded(ops0, i);
    var tail := OrigRange(i + 1, e);
    var BC := BackwardComms(ops0, i);
    var rest := OrigRange(e, |ops0|);
    BackwardSendShape(ops0, first, i, st, E, tail, BC, rest);
    BackwardLayoutNext(ops0, i, e);
    BackwardOffset(ops0, first, i, st);
  }

  /** The layout before the step at `i`, split around operator `i`. */
  lemma LayoutBefore(ops0: seq<Op>, i: nat, e: nat)
    requires i < e <= |ops0|
    ensures Layout(ops0, i, e) ==
      Expanded(ops0, i) + ([Orig(i)] + OrigRange(i + 1, e)) + BackwardComms(ops0, i) + OrigRange(e, |ops0|)
    ensures |OrigRange(i + 1, e)| == e - (i + 1)
  {
    assert OrigRange(i, e) == [Orig(i)] + OrigRange(i + 1, e);
  }

  /** The two inserts for a backward send, on a list of that shape. */
  lemma BackwardSendShape(ops0: seq<Op>, first: Option<nat>, i: nat, st: SyncState,
                          E: seq<Item>, tail: seq<Item>, BC: seq<Item>, rest: seq<Item>)
    requires i < |ops0| && ops0[i].opType == "send_v2" && |InputArgNames(ops0[i])| > 0
    requires Role(ops0[i]) == RoleBackward && first.Some?
    requires st.items == E + ([Orig(i)] + tail) + BC + rest
    requires i + st.offset == |E| && first.value + (st.offset + 1) == |E| + 2 + |tail|
    ensures SendStep(ops0, first, st, i).items ==
      (E + [CalcSync(InputArgNames(ops0[i])[0], RoleBackward), Orig(i)]) + tail +
      ([CommSync(InputArgNames(ops0[i])[0], RoleOptimize, RingId(ops0[i]), false)] + BC) + rest
  {
    BackwardSendItems(ops0, first, i, st);
    BackwardShape(E, Orig(i), tail, BC, rest, CalcSync(InputArgNames(ops0[i])[0], RoleBackward),
      CommSync(InputArgNames(ops0[i])[0], RoleOptimize, RingId(ops0[i]), false), st.items, i + st.offset,
      first.value + (st.offset + 1));
  }

  /** The layout after a backward send at `i`. */
  lemma BackwardLayoutNext(ops0: seq<Op>, i: nat, e: nat)
    requires i < e <= |ops0| && ops0[i].opType == "send_v2" && |InputArgNames(ops0[i])| > 0 && Role(ops0[i]) == RoleBackward
    ensures Layout(ops0, i + 1, e) ==
      (Expanded(ops0, i) + [CalcSync(InputArgNames(ops0[i])[0], RoleBackward), Orig(i)]) + OrigRange(i + 1, e) +
      ([CommSync(InputArgNames(ops0[i])[0], RoleOptimize, RingId(ops0[i]), false)] + BackwardComms(ops0, i)) + OrigRange(e, |ops0|)
  {
    LayoutAt(ops0, i, e);
    BackwardUnit(ops0, i);
    BackwardCommsStep(ops0, i);
  }

  lemma BackwardUnit(ops0: seq<Op>, i: nat)
    requires i < |ops0| && ops0[i].opType == "send_v2" && |InputArgNames(ops0[i])| > 0 && Role(ops0[i]) == RoleBackward
    ensures Unit(ops0, i) == [CalcSync(InputArgNames(ops0[i])[0], RoleBackward), Orig(i)]
  {
  }

  lemma BackwardCommsStep(ops0: seq<Op>, i: nat)
    requires i < |ops0| && ops0[i].opType == "send_v2" && |InputArgNames(ops0[i])| > 0 && Role(ops0[i]) == RoleBackward
    ensures BackwardComms(ops0, i + 1) ==
      [CommSync(InputArgNames(ops0[i])[0], RoleOptimize, RingId(ops0[i]), false)] + BackwardComms(ops0, i)
  {
  }

  lemma BackwardSendItems(ops0: seq<Op>, first: Option<nat>, i: nat, st: SyncState)
    requires i < |ops0| && ops0[i].opType == "send_v2" && |InputArgNames(ops0[i])| > 0
    requires Role(ops0[i]) == RoleBackward && first.Some?
    ensures SendStep(ops0, first, st, i).items ==
      Insert(Insert(st.items, i + st.offset, CalcSync(InputArgNames(ops0[i])[0], RoleBackward)), first.value + (st.offset + 1),
        CommSync(InputArgNames(ops0[i])[0], RoleOptimize, RingId(ops0[i]), false))
  {
  }

  lemma BackwardOffset(ops0: seq<Op>, first: Option<nat>, i: nat, st: SyncState)
    requires i < |ops0| && ops0[i].opType == "send_v2" && |InputArgNames(ops0[i])| > 0
    requires Role(ops0[i]) == RoleBackward && first.Some? && st.offset == |Expanded(ops0, i)| - i
    ensures SendStep(ops0, first, st, i).offset == |Expanded(ops0, i + 1)| - (i + 1)
  {
    assert |Unit(ops0, i)| == 2;
  }

  lemma ForwardSendStep(ops0: seq<Op>, first: Option<nat>, vars: map<string, VarDesc>, i: nat, st: SyncState)
    requires i < SendsEnd(ops0, first) <= |ops0| && ops0[i].opType == "send_v2"
    requires SendError(ops0[i], vars, first.Some?).None? && Role(ops0[i]) == RoleForward
    requires st == LayoutState(ops0, first, i)
    ensures SyncStep(ops0, first, vars, st, i) ==
      Ok(LayoutState(ops0, first, i + 1))
  {
    SendStepTaken(ops0, first, vars, i, st);
    ForwardItems(ops0, first, i, st);
  }

  lemma ForwardItems(ops0: seq<Op>, first: Option<nat>, i: nat, st: SyncState)
    requires i < SendsEnd(ops0, first) <= |ops0| && ops0[i].opType == "send_v2" && |InputArgNames(ops0[i])| > 0
    requires Role(ops0[i]) == RoleForward
    requires st == LayoutState(ops0, first, i)
    ensures SendStep(ops0, first, st, i) == LayoutState(ops0, first, i + 1)
  {
    var e := SendsEnd(ops0, first);
    LayoutBefore(ops0, i, e);
    var E := Expanded(ops0, i);
    var tail := OrigRange(i + 1, e);
    var BC := BackwardComms(ops0, i);
    var rest := OrigRange(e, |ops0|);
    ForwardSendShape(ops0, first, i, st, E, tail, BC, rest);
    ForwardLayoutNext(ops0, i, e);
    ForwardOffset(ops0, first, i, st);
  }

  /** The two inserts for a forward send, on a list of that shape. */
  lemma ForwardSendShape(ops0: seq<Op>, first: Option<nat>, i: nat, st: SyncState,
                         E: seq<Item>, tail: seq<Item>, BC: seq<Item>, rest: seq<Item>)
    requires i < |ops0| && ops0[i].opType == "send_v2" && |InputArgNames(ops0[i])| > 0 && Role(ops0[i]) == RoleForward
    requires st.items == E + ([Orig(i)] + tail) + BC + rest && i + st.offset == |E|
    ensures SendStep(ops0, first, st, i).items ==
      (E + [CalcSync(InputArgNames(ops0[i])[0], RoleForward), Orig(i),
            CommSync(InputArgNames(ops0[i])[0], RoleBackward, RingId(ops0[i]), true)]) + tail + BC + rest
  {
    ForwardSendItems(ops0, first, i, st);
    ForwardShape(E, Orig(i), tail, BC, rest, CalcSync(InputArgNames(ops0[i])[0], RoleForward),
      CommSync(InputArgNames(ops0[i])[0], RoleBackward, RingId(ops0[i]), true), st.items, i + st.offset,
      i + (st.offset + 1) + 1);
  }

  lemma ForwardSendItems(ops0: seq<Op>, first: Option<nat>, i: nat, st: SyncState)
    requires i < |ops0| && ops0[i].opType == "send_v2" && |InputArgNames(ops0[i])| > 0 && Role(ops0[i]) == RoleForward
    ensures SendStep(ops0, first, st, i).items ==
      Insert(Insert(st.items, i + st.offset, CalcSync(InputArgNames(ops0[i])[0], RoleForward)), i + (st.offset + 1) + 1,
        CommSync(InputArgNames(ops0[i])[0], RoleBackward, RingId(ops0[i]), true))
  {
  }

  /** The layout after a forward send at `i`. */
  lemma ForwardLayoutNext(ops0: seq<Op>, i: nat, e: nat)
    requires i < e <= |ops0| && ops0[i].opType == "send_v2" && |InputArgNames(ops0[i])| > 0 && Role(ops0[i]) == RoleForward
    ensures Layout(ops0, i + 1, e) ==
      (Expanded(ops0, i) + [CalcSync(InputArgNames(ops0[i])[0], RoleForward), Orig(i),
        CommSync(InputArgNames(ops0[i])[0], RoleBackward, RingId(ops0[i]), true)]) +
      OrigRange(i + 1, e) + BackwardComms(ops0, i) + OrigRange(e, |ops0|)
  {
    LayoutAt(ops0, i, e);
    ForwardUnit(ops0, i);
    ForwardCommsStep(ops0, i);
  }

  lemma ForwardUnit(ops0: seq<Op>, i: nat)
    requires i < |ops0| && ops0[i].opType == "send_v2" && |InputArgNames(ops0[i])| > 0 && Role(ops0[i]) == RoleForward
    ensures Unit(ops0, i) == [CalcSync(InputArgNames(ops0[i])[0], RoleForward), Orig(i),
      CommSync(InputArgNames(ops0[i])[0], RoleBackward, RingId(ops0[i]), true)]
  {
  }

  lemma ForwardCommsStep(ops0: seq<Op>, i: nat)
    requires i < |ops0| && ops0[i].opType == "send_v2" && |InputArgNames(ops0[i])| > 0 && Role(ops0[i]) == RoleForward
    ensures BackwardComms(ops0, i + 1) == BackwardComms(ops0, i)
  {
  }

  lemma ForwardOffset(ops0: seq<Op>, first: Option<nat>, i: nat, st: SyncState)
    requires i < |ops0| && ops0[i].opType == "send_v2" && |InputArgNames(ops0[i])| > 0
    requires Role(ops0[i]) == RoleForward && st.offset == |Expanded(ops0, i)| - i
    ensures SendStep(ops0, first, st, i).offset == |Expanded(ops0, i + 1)| - (i + 1)
  {
    assert |Unit(ops0, i)| == 3;
  }

  /** A step past the sends changes nothing. */
  lemma QuietStep(ops0: seq<Op>, first: Option<nat>, vars: map<string, VarDesc>, i: nat, st: SyncState)
    requires WellFormedSends(ops0, first, vars)
    requires SendsEnd(ops0, first) <= i < |ops0|
    ensures SyncStep(ops0, first, vars, st, i) == Ok(st)
  {
  }

  /**
    On a well-formed block phase 1 yields exactly the layout: each send up to
    the first optimize op wrapped by its syncs in place, and the backward
    sends' comm syncs gathered right before that op.
   */
  lemma {:induction false} SyncLayout(ops0: seq<Op>, first: Option<nat>, vars: map<string, VarDesc>, i: nat)
    requires WellFormedSends(ops0, first, vars) && i <= SendsEnd(ops0, first)
    ensures SyncUpTo(ops0, first, vars, i) ==
      Ok(LayoutState(ops0, first, i))
    decreases i
  {
    var e := SendsEnd(ops0, first);
    if i == 0 {
      LayoutStart(ops0, e);
    } else {
      var h := i - 1;
      SyncLayout(ops0, first, vars, h);
      var st := LayoutState(ops0, first, h);
      SyncUpToStep(ops0, first, vars, h, i, st);
      LayoutStep(ops0, first, vars, h, i, st);
    }
  }

  /** One more operator of phase 1 after a successful prefix. */
  lemma SyncUpToStep(ops0: seq<Op>, first: Option<nat>, vars: map<string, VarDesc>, h: nat, i: nat, st: SyncState)
    requires h < |ops0| && i == h + 1 && SyncUpTo(ops0, first, vars, h) == Ok(st)
    ensures SyncUpTo(ops0, first, vars, i) == SyncStep(ops0, first, vars, st, h)
  {
  }

  /** Past the first optimize op nothing changes any more. */
  lemma {:induction false} SyncLayoutRest(ops0: seq<Op>, first: Option<nat>, vars: map<string, VarDesc>, i: nat)
    requires WellFormedSends(ops0, first, vars) && SendsEnd(ops0, first) <= i <= |ops0|
    ensures SyncUpTo(ops0, first, vars, i) == SyncUpTo(ops0, first, vars, SendsEnd(ops0, first))
    decreases i
  {
    var e := SendsEnd(ops0, first);
    if i > e {
      var h := i - 1;
      SyncLayoutRest(ops0, first, vars, h);
      SyncLayout(ops0, first, vars, e);
      var st := SyncUpTo(ops0, first, vars, h).value;
      SyncUpToStep(ops0, first, vars, h, i, st);
      QuietStep(ops0, first, vars, h, st);
    }
  }

  /** A send of `var_name` with the role `role`, as `reshard` leaves it. */
  function SendOp(v: string, role: int): Op
  {
    Op("send_v2", [Slot("X", [v])], [], map["op_role" := AInt(role)], DefaultDistAttr)
  }

  /**
    Outside `WellFormedSends`: a send whose role is neither Forward nor Backward
    (here 257, Backward with the Loss bit) gets its comm sync right after it, but the
    offset is bumped for forward sends only. The next send's calc sync then lands
    before that comm sync, and the next send's own comm sync before the send itself.
   */
  lemma OtherRoleShiftsNextSend(vars: map<string, VarDesc>)
    requires "x" in vars && "y" in vars
    ensures SyncUpTo([SendOp("x", 257), SendOp("y", RoleForward)], None, vars, 2) ==
      Ok(SyncState([CalcSync("x", 257), Orig(0), CalcSync("y", RoleForward),
                    CommSync("x", RoleBackward, 0, false), CommSync("y", RoleBackward, 0, true), Orig(1)], 3))
  {
    var ops0 := [SendOp("x", 257), SendOp("y", RoleForward)];
    assert InputArgNames(ops0[0]) == ["x"] && InputArgNames(ops0[1]) == ["y"];
    assert Role(ops0[0]) == 257 && Role(ops0[1]) == RoleForward;
    assert RingId(ops0[0]) == 0 && RingId(ops0[1]) == 0;
    var st0 := SyncState(OrigRange(0, 2), 0);
    assert st0.items == [Orig(0), Orig(1)];
    var st1 := SyncState([CalcSync("x", 257), Orig(0), CommSync("x", RoleBackward, 0, false), Orig(1)], 1);
    assert SendStep(ops0, None, st0, 0) == st1;
    assert SyncUpTo(ops0, None, vars, 1) == Ok(st1);
    var mid := [CalcSync("x", 257), Orig(0), CalcSync("y", RoleForward), CommSync("x", RoleBackward, 0, false), Orig(1)];
    assert Insert(st1.items, 2, CalcSync("y", RoleForward)) == mid;
    assert Insert(mid, 4, CommSync("y", RoleBackward, 0, true)) ==
      [CalcSync("x", 257), Orig(0), CalcSync("y", RoleForward),
       CommSync("x", RoleBackward, 0, false), CommSync("y", RoleBackward, 0, true), Orig(1)];
    assert SyncUpTo(ops0, None, vars, 2) == SyncStep(ops0, None, vars, st1, 1);
  }

  /** Before the loop the layout is the untouched block. */
  lemma LayoutStart(ops0: seq<Op>, e: nat)
    requires e <= |ops0|
    ensures Layout(ops0, 0, e) == OrigRange(0, |ops0|) && |Expanded(ops0, 0)| == 0
  {
    OrigRangeSplit(0, e, |ops0|);
    assert Layout(ops0, 0, e) == [] + OrigRange(0, e) + [] + OrigRange(e, |ops0|);
  }

  /** `u` occurs in `s` starting at `p`. */
  predicate SliceAt<T(==)>(s: seq<T>, p: int, u: seq<T>)
  {
    0 <= p && p + |u| <= |s| && s[p..p + |u|] == u
  }

  lemma SliceAtEnd<T>(a: seq<T>, u: seq<T>)
    ensures SliceAt(a + u, |a|, u)
  {
    assert (a + u)[|a|..|a| + |u|] == u;
  }

  lemma SliceAtPrefix<T>(a: seq<T>, b: seq<T>, p: int, u: seq<T>)
    requires SliceAt(a, p, u)
    ensures SliceAt(a + b, p, u)
  {
    assert (a + b)[p..p + |u|] == a[p..p + |u|];
  }

  /** A slice of `a`, or `u` itself, is a slice of `s == a + u`. */
  lemma SliceInSnoc<T>(s: seq<T>, a: seq<T>, u: seq<T>, w: seq<T>)
    requires s == a + u
    requires w == u || exists p :: SliceAt(a, p, w)
    ensures exists p :: SliceAt(s, p, w)
  {
    if w == u {
      SliceAtEnd(a, u);
      assert SliceAt(s, |a|, w);
    } else {
      var p :| SliceAt(a, p, w);
      SliceAtPrefix(a, u, p, w);
      assert SliceAt(s, p, w);
    }
  }

  lemma ExpandedSnoc(ops0: seq<Op>, i: nat)
    requires 0 < i <= |ops0|
    ensures Expanded(ops0, i) == Expanded(ops0, i - 1) + Unit(ops0, i - 1)
  {
  }

  /** Each unit sits, contiguous, in the expanded prefix. */
  lemma {:induction false} UnitInExpanded(ops0: seq<Op>, i: nat, k: nat)
    requires k < i <= |ops0|
    ensures exists p :: SliceAt(Expanded(ops0, i), p, Unit(ops0, k))
    decreases i
  {
    if k < i - 1 {
      UnitInExpanded(ops0, i - 1, k);
    }
    ExpandedSnoc(ops0, i);
    SliceInSnoc(Expanded(ops0, i), Expanded(ops0, i - 1), Unit(ops0, i - 1), Unit(ops0, k));
  }

  // ---------------------------------------------------------------------
  // Phase 2: drop the forward comm syncs before the first backward receive

  /** `s` without the elements `drop` selects, in order. */
  function Kept<T>(s: seq<T>, drop: T -> bool): (r: seq<T>)
    ensures |r| <= |s|
    decreases |s|
  {
    if s == [] then [] else Kept(s[..|s| - 1], drop) + (if drop(s[|s| - 1]) then [] else [s[|s| - 1]])
  }

  /** The concatenation of `f` over `s`, in order. */
  function Spawned<T>(s: seq<T>, f: T -> seq<T>): seq<T>
    decreases |s|
  {
    if s == [] then [] else Spawned(s[..|s| - 1], f) + f(s[|s| - 1])
  }

  /** The first `Some` that `f` gives along `s`. */
  function FirstSome<T, E>(s: seq<T>, f: T -> Option<E>): Option<E>
    decreases |s|
  {
    if s == [] then None
    else match FirstSome(s[..|s| - 1], f)
      case Some(e) => Some(e)
      case None => f(s[|s| - 1])
  }

  lemma PrefixStep<T>(s: seq<T>, index: nat)
    requires index < |s|
    ensures s[..index + 1] == s[..index] + [s[index]]
    ensures s[..index + 1][..index] == s[..index] && s[..index + 1][index] == s[index]
    ensures s[index..] == [s[index]] + s[index + 1..]
  {
  }

  /** A flagged, error-free op of `s` is dropped and spawns exactly one op; any other is kept and spawns none. */
  predicate Shaped<T, E>(s: seq<T>, drop: T -> bool, f: T -> seq<T>, check: T -> Option<E>)
  {
    forall k :: 0 <= k < |s| ==>
      (drop(s[k]) && check(s[k]).None? ==> |f(s[k])| == 1) && (!drop(s[k]) ==> f(s[k]) == [])
  }

  /** Before the first error, every element is either kept or spawns one replacement. */
  lemma {:induction false} KeptSpawnedCount<T, E>(s: seq<T>, drop: T -> bool, f: T -> seq<T>, check: T -> Option<E>)
    requires Shaped(s, drop, f, check) && FirstSome(s, check).None?
    ensures |Kept(s, drop)| + |Spawned(s, f)| == |s|
    decreases |s|
  {
    if s != [] {
      var t := s[..|s| - 1];
      assert Shaped(t, drop, f, check) by {
        forall k | 0 <= k < |t| ensures
          (drop(t[k]) && check(t[k]).None? ==> |f(t[k])| == 1) && (!drop(t[k]) ==> f(t[k]) == [])
        {
          assert t[k] == s[k];
        }
      }
      KeptSpawnedCount(t, drop, f, check);
    }
  }

  /** The list in the middle of phase 2, after the first `index` elements. */
  function Mid<T>(s: seq<T>, b: nat, drop: T -> bool, f: T -> seq<T>, spawn: bool, index: nat): seq<T>
    requires index <= b < |s|
  {
    Kept(s[..index], drop) + s[index..b] + [s[b]] + (if spawn then Spawned(s[..index], f) else []) + s[b + 1..]
  }

  /** Python's `del s[p]`. */
  function Remove<T>(s: seq<T>, p: nat): (r: seq<T>)
    requires p < |s|
    ensures |r| == |s| - 1
  {
    s[..p] + s[p + 1..]
  }

  lemma RemoveShape<T>(K: seq<T>, x: T, M: seq<T>, NR: seq<T>)
    ensures Remove(K + ([x] + M) + NR, |K|) == K + (M + NR)
  {
    var mid := K + ([x] + M) + NR;
    assert mid[..|K|] == K;
    assert mid[|K| + 1..] == M + NR;
  }

  lemma SpawnShape<T>(K: seq<T>, M: seq<T>, N: seq<T>, R: seq<T>, z: T, p: nat)
    requires p == |K| + |M| + |N|
    ensures Insert(K + (M + (N + R)), p, z) == K + M + (N + [z]) + R
  {
    assert K + (M + (N + R)) == (K + M + N) + R;
    InsertAt(K + M + N, R, z);
  }

  /** Deleting a dropped element and, when spawning, inserting its replacement at `b` advances the middle list. */
  lemma DropStep<T>(s: seq<T>, b: nat, drop: T -> bool, f: T -> seq<T>, spawn: bool, index: nat, p: nat, z: T)
    requires index < b < |s| && drop(s[index]) && f(s[index]) == [z]
    requires p == |Kept(s[..index], drop)| && p + |Spawned(s[..index], f)| == index
    ensures var removed := Remove(Mid(s, b, drop, f, spawn, index), p);
      (if spawn then Insert(removed, b, z) else removed) == Mid(s, b, drop, f, spawn, index + 1)
  {
    var K := Kept(s[..index], drop);
    var N := if spawn then Spawned(s[..index], f) else [];
    var M := s[index + 1..b] + [s[b]];
    var R := s[b + 1..];
    MidBefore(s, b, drop, f, spawn, index, K, M, N, R);
    RemoveShape(K, s[index], M, N + R);
    MidAfterDrop(s, b, drop, f, spawn, index, z, K, M, N, R);
    if spawn {
      SpawnShape(K, M, N, R, z, b);
    }
  }

  lemma MidBefore<T>(s: seq<T>, b: nat, drop: T -> bool, f: T -> seq<T>, spawn: bool, index: nat,
                     K: seq<T>, M: seq<T>, N: seq<T>, R: seq<T>)
    requires index < b < |s|
    requires K == Kept(s[..index], drop) && N == (if spawn then Spawned(s[..index], f) else [])
    requires M == s[index + 1..b] + [s[b]] && R == s[b + 1..]
    ensures Mid(s, b, drop, f, spawn, index) == K + ([s[index]] + M) + (N + R)
  {
    assert s[index..b] == [s[index]] + s[index + 1..b];
  }

  lemma MidAfterDrop<T>(s: seq<T>, b: nat, drop: T -> bool, f: T -> seq<T>, spawn: bool, index: nat, z: T,
                        K: seq<T>, M: seq<T>, N: seq<T>, R: seq<T>)
    requires index < b < |s| && drop(s[index]) && f(s[index]) == [z]
    requires K == Kept(s[..index], drop) && N == (if spawn then Spawned(s[..index], f) else [])
    requires M == s[index + 1..b] + [s[b]] && R == s[b + 1..]
    ensures Mid(s, b, drop, f, spawn, index + 1) == K + M + (if spawn then N + [z] else []) + R
  {
    PrefixStep(s, index);
    assert Kept(s[..index + 1], drop) == K;
    assert spawn ==> Spawned(s[..index + 1], f) == N + [z];
  }

  /** A kept element leaves the middle list as it is. */
  lemma KeepStep<T>(s: seq<T>, b: nat, drop: T -> bool, f: T -> seq<T>, spawn: bool, index: nat)
    requires index < b < |s| && !drop(s[index]) && f(s[index]) == []
    ensures Mid(s, b, drop, f, spawn, index + 1) == Mid(s, b, drop, f, spawn, index)
  {
    PrefixStep(s, index);
    assert Kept(s[..index + 1], drop) == Kept(s[..index], drop) + [s[index]];
    assert Spawned(s[..index + 1], f) == Spawned(s[..index], f) + [];
    assert s[index..b] == [s[index]] + s[index + 1..b];
    KeepShape(Kept(s[..index], drop), s[index], s[index + 1..b], [s[b]],
      if spawn then Spawned(s[..index], f) else [], s[b + 1..]);
  }

  lemma KeepShape<T>(K: seq<T>, x: T, M: seq<T>, Y: seq<T>, S: seq<T>, R: seq<T>)
    ensures (K + [x]) + M + Y + S + R == K + ([x] + M) + Y + S + R
  {
  }

  /** Once a prefix has an error, every longer prefix has the same one. */
  lemma {:induction false} FirstSomePersists<T, E>(s: seq<T>, f: T -> Option<E>, j: nat, k: nat)
    requires j <= k <= |s| && FirstSome(s[..j], f).Some?
    ensures FirstSome(s[..k], f) == FirstSome(s[..j], f)
    decreases k - j
  {
    if j < k {
      FirstSomePersists(s, f, j, k - 1);
      assert s[..k][..k - 1] == s[..k - 1];
    }
  }

  /** A comm sync phase 1 inserted after a forward send. */
  predicate Flagged(op: Op)
  {
    op.opType == "c_sync_comm_stream" && "pipeline_flag" in op.attrs
  }

  /** The error phase 2 raises at an op, if it is flagged and has no declared first output. */
  function FlaggedCheck(vars: map<string, VarDesc>): Op -> Option<Error>
  {
    op =>
      if !Flagged(op) then None
      else if |OutputArgNames(op)| == 0 then Some(IndexError("list index out of range"))
      else if OutputArgNames(op)[0] !in vars then Some(ValueError(OutputArgNames(op)[0]))
      else None
  }

  /** The `nop` that replaces a flagged op, on its first output. */
  function NopFor(op: Op): seq<Op>
  {
    if Flagged(op) && |OutputArgNames(op)| > 0 then [NopOp(OutputArgNames(op)[0])] else []
  }

  lemma PhaseTwoShaped(s: seq<Op>, vars: map<string, VarDesc>)
    ensures Shaped(s, Flagged, NopFor, FlaggedCheck(vars))
  {
  }

  /**
    Phase 2 with the first backward receive at `b`: the flagged ops before it
    are removed and, for the old executor, a `nop` per removed op ends up
    right after that receive.
   */
  function Phase2(ops1: seq<Op>, b: nat, vars: map<string, VarDesc>, useNewExecutor: bool): Result<seq<Op>>
    requires b < |ops1|
  {
    match FirstSome(ops1[..b], FlaggedCheck(vars))
    case Some(e) => Err(e)
    case None =>
      Ok(Kept(ops1[..b], Flagged) + [ops1[b]] + (if useNewExecutor then [] else Spawned(ops1[..b], NopFor)) + ops1[b + 1..])
  }

  /** The phase-2 loop state after the first `index` operators: no error so far, and the list and offset it has built. */
  predicate Phase2Inv(ops1: seq<Op>, b: nat, vars: map<string, VarDesc>, useNewExecutor: bool,
                      index: nat, offset: int, ops: seq<Op>)
    requires index <= b < |ops1|
  {
    FirstSome(ops1[..index], FlaggedCheck(vars)).None? &&
    offset == |Kept(ops1[..index], Flagged)| - index &&
    ops == Mid(ops1, b, Flagged, NopFor, !useNewExecutor, index)
  }

  /** One iteration of the phase-2 loop: remove a flagged op (and add its `nop`), or keep any other. */
  method RemoveStep(ops1: seq<Op>, b: nat, vars: map<string, VarDesc>, useNewExecutor: bool,
                    index: nat, offset: int, ops: seq<Op>)
    returns (r: Result<(int, seq<Op>)>)
    requires index < b < |ops1| && Phase2Inv(ops1, b, vars, useNewExecutor, index, offset, ops)
    ensures r.Err? ==> FirstSome(ops1[..index + 1], FlaggedCheck(vars)) == Some(r.error)
    ensures r.Ok? ==> Phase2Inv(ops1, b, vars, useNewExecutor, index + 1, r.value.0, r.value.1)
  {
    var op := ops1[index];
    assert FirstSome(ops1[..index + 1], FlaggedCheck(vars)) == FlaggedCheck(vars)(op) by {
      PrefixStep(ops1, index);
    }
    if !Flagged(op) {
      assert |Kept(ops1[..index + 1], Flagged)| == |Kept(ops1[..index], Flagged)| + 1 by {
        PrefixStep(ops1, index);
      }
      KeepStep(ops1, b, Flagged, NopFor, !useNewExecutor, index);
      return Ok((offset, ops));
    }
    if |OutputArgNames(op)| == 0 {
      return Err(IndexError("list index out of range"));
    }
    var varName := OutputArgNames(op)[0];
    if varName !in vars {
      return Err(ValueError(varName));
    }
    assert |Kept(ops1[..index + 1], Flagged)| == |Kept(ops1[..index], Flagged)| by {
      PrefixStep(ops1, index);
    }
    assert index + offset + |Spawned(ops1[..index], NopFor)| == index by {
      PhaseTwoShaped(ops1[..index], vars);
      KeptSpawnedCount(ops1[..index], Flagged, NopFor, FlaggedCheck(vars));
    }
    DropStep(ops1, b, Flagged, NopFor, !useNewExecutor, index, index + offset, NopOp(varName));
    var ops' := Remove(ops, index + offset);
    if !useNewExecutor {
      ops' := Insert(ops', b, NopOp(varName));
    }
    return Ok((offset - 1, ops'));
  }

  method RemovePipelineSyncs(ops1: seq<Op>, b: nat, vars: map<string, VarDesc>, useNewExecutor: bool)
    returns (r: Result<seq<Op>>)
    requires b < |ops1|
    ensures r == Phase2(ops1, b, vars, useNewExecutor)
  {
    var ops := ops1;
    var offset: int := 0;
    Phase2Start(ops1, b, vars, useNewExecutor);
    for index := 0 to b
      invariant Phase2Inv(ops1, b, vars, useNewExecutor, index, offset, ops)
    {
      var step := RemoveStep(ops1, b, vars, useNewExecutor, index, offset, ops);
      if step.Err? {
        Phase2Fails(ops1, b, vars, useNewExecutor, index, step.error);
        return Err(step.error);
      }
      offset, ops := step.value.0, step.value.1;
    }
    Phase2Done(ops1, b, vars, useNewExecutor, offset, ops);
    return Ok(ops);
  }

  /** Before the loop nothing has been removed. */
  lemma Phase2Start(ops1: seq<Op>, b: nat, vars: map<string, VarDesc>, useNewExecutor: bool)
    requires b < |ops1|
    ensures Phase2Inv(ops1, b, vars, useNewExecutor, 0, 0, ops1)
  {
    assert ops1[..0] == [] && ops1 == ops1[..0] + ops1[0..b] + [ops1[b]] + ops1[b + 1..];
  }

  /** The first flagged op that fails the check is phase 2's error. */
  lemma Phase2Fails(ops1: seq<Op>, b: nat, vars: map<string, VarDesc>, useNewExecutor: bool, index: nat, e: Error)
    requires index < b < |ops1| && FirstSome(ops1[..index + 1], FlaggedCheck(vars)) == Some(e)
    ensures Phase2(ops1, b, vars, useNewExecutor) == Err(e)
  {
    FirstSomePersists(ops1, FlaggedCheck(vars), index + 1, b);
  }

  /** At the backward receive the loop state is phase 2's result. */
  lemma Phase2Done(ops1: seq<Op>, b: nat, vars: map<string, VarDesc>, useNewExecutor: bool, offset: int, ops: seq<Op>)
    requires b < |ops1| && Phase2Inv(ops1, b, vars, useNewExecutor, b, offset, ops)
    ensures Phase2(ops1, b, vars, useNewExecutor) == Ok(ops)
  {
    assert ops1[b..b] == [];
    EmptyMiddle(Kept(ops1[..b], Flagged), ops1[b..b], [ops1[b]],
      if useNewExecutor then [] else Spawned(ops1[..b], NopFor), ops1[b + 1..]);
  }

  lemma EmptyMiddle<T>(K: seq<T>, M: seq<T>, Y: seq<T>, N: seq<T>, R: seq<T>)
    requires M == []
    ensures K + M + Y + N + R == K + Y + N + R
  {
  }

  // ---------------------------------------------------------------------
  // The rewrite of one block, then of every block

  /**
    The phase-1 loop over the snapshot of the block's operators. The list it
    edits holds the snapshot's operators themselves (`Orig`), which the loop
    updates in place, and the syncs it inserts.
   */
  method InsertSyncs(ops0: seq<Op>, first: Option<nat>, vars: map<string, VarDesc>) returns (r: Result<SyncState>)
    ensures r == SyncUpTo(ops0, first, vars, |ops0|)
  {
    var st := SyncState(OrigRange(0, |ops0|), 0);
    for index := 0 to |ops0|
      invariant SyncUpTo(ops0, first, vars, index) == Ok(st)
    {
      var step := InsertSendSyncs(ops0, first, vars, st, index);
      assert SyncUpTo(ops0, first, vars, index + 1) == step;
      if step.Err? {
        SyncErrorPersists(ops0, first, vars, index + 1, |ops0|);
        return step;
      }
      st := step.value;
    }
    return Ok(st);
  }

  /** The body of the phase-1 loop at snapshot index `index`. */
  method InsertSendSyncs(ops0: seq<Op>, first: Option<nat>, vars: map<string, VarDesc>, st: SyncState, index: nat)
    returns (r: Result<SyncState>)
    requires index < |ops0|
    ensures r == SyncStep(ops0, first, vars, st, index)
  {
    var op := ops0[index];
    if op.opType != "send_v2" {
      return Ok(st);
    }
    if |InputArgNames(op)| == 0 {
      return Err(IndexError("list index out of range"));
    }
    var varName := InputArgNames(op)[0];
    if varName !in vars {
      return Err(ValueError(varName));
    }
    var role := Role(op);
    var items := Insert(st.items, index + st.offset, CalcSync(varName, role));
    var offset := st.offset + 1;
    var at, newRole;
    if role == RoleBackward {
      if first.None? {
        return Err(TypeError("unsupported operand type(s) for +: 'NoneType' and 'int'"));
      }
      at, newRole := first.value + offset, RoleOptimize;
    } else {
      at, newRole := index + offset + 1, RoleBackward;
    }
    items := Insert(items, at, CommSync(varName, newRole, RingId(op), role == RoleForward));
    if role == RoleForward {
      offset := offset + 1;
    }
    return Ok(SyncState(items, offset));
  }

  /** Once phase 1 has raised, it stays raised with the same error. */
  lemma {:induction false} SyncErrorPersists(ops0: seq<Op>, first: Option<nat>, vars: map<string, VarDesc>, j: nat, k: nat)
    requires j <= k <= |ops0| && SyncUpTo(ops0, first, vars, j).Err?
    ensures SyncUpTo(ops0, first, vars, k) == SyncUpTo(ops0, first, vars, j)
    decreases k - j
  {
    if j < k {
      SyncErrorPersists(ops0, first, vars, j, k - 1);
    }
  }

  /** `op.type == "recv_v2" and is_backward_op(op)`. */
  function IsBackwardRecv(cls: RoleClassifier): Op -> bool
  {
    (op: Op) => op.opType == "recv_v2" && cls.isBackward(op)
  }

  /** The block's operators after phase 1, given the first optimize index. */
  function Phase1Ops(ops0: seq<Op>, first: Option<nat>, vars: map<string, VarDesc>): Result<seq<Op>>
  {
    match SyncUpTo(ops0, first, vars, |ops0|)
    case Err(e) => Err(e)
    case Ok(st) =>
      SyncItemsIn(ops0, first, vars, |ops0|);
      Ok(Materialize(st.items, ops0))
  }

  /** The scan for the first optimize op from index `i` on, then phase 1 with what it found. */
  function Phase1From(ops0: seq<Op>, cls: RoleClassifier, vars: map<string, VarDesc>, i: nat): Result<seq<Op>>
    decreases if i <= |ops0| then |ops0| - i else 0
  {
    if i >= |ops0| then Phase1Ops(ops0, None, vars)
    else if cls.isOptimize(ops0[i]) then Phase1Ops(ops0, Some(i), vars)
    else Phase1From(ops0, cls, vars, i + 1)
  }

  /** The scan for the first backward receive from index `i` on, then phase 2 if it found one. */
  function Phase2From(ops1: seq<Op>, cls: RoleClassifier, vars: map<string, VarDesc>, useNewExecutor: bool, i: nat)
    : Result<seq<Op>>
    decreases if i <= |ops1| then |ops1| - i else 0
  {
    if i >= |ops1| then Ok(ops1)
    else if IsBackwardRecv(cls)(ops1[i]) then Phase2(ops1, i, vars, useNewExecutor)
    else Phase2From(ops1, cls, vars, useNewExecutor, i + 1)
  }

  /** A scan from `i` finds the first matching op at or after `i`, as `FirstWhere` does from 0. */
  lemma {:induction false} Phase1FromFirst(ops0: seq<Op>, cls: RoleClassifier, vars: map<string, VarDesc>, i: nat)
    requires i <= |ops0| && forall j :: 0 <= j < i ==> !cls.isOptimize(ops0[j])
    ensures Phase1From(ops0, cls, vars, i) == Phase1Ops(ops0, FirstWhere(ops0, cls.isOptimize), vars)
    decreases |ops0| - i
  {
    if i == |ops0| {
      FirstWhereUnique(ops0, cls.isOptimize, i);
    } else if cls.isOptimize(ops0[i]) {
      FirstWhereUnique(ops0, cls.isOptimize, i);
    } else {
      Phase1FromFirst(ops0, cls, vars, i + 1);
    }
  }

  lemma {:induction false} Phase2FromFirst(ops1: seq<Op>, cls: RoleClassifier, vars: map<string, VarDesc>, useNewExecutor: bool, i: nat)
    requires i <= |ops1| && forall j :: 0 <= j < i ==> !IsBackwardRecv(cls)(ops1[j])
    ensures Phase2From(ops1, cls, vars, useNewExecutor, i) ==
      match FirstWhere(ops1, IsBackwardRecv(cls))
      case None => Ok(ops1)
      case Some(b) => Phase2(ops1, b, vars, useNewExecutor)
    decreases |ops1| - i
  {
    if i == |ops1| {
      FirstWhereUnique(ops1, IsBackwardRecv(cls), i);
    } else if IsBackwardRecv(cls)(ops1[i]) {
      FirstWhereUnique(ops1, IsBackwardRecv(cls), i);
    } else {
      Phase2FromFirst(ops1, cls, vars, useNewExecutor, i + 1);
    }
  }

  /**
    One block rewritten: phase 1 over the snapshot (the optimize position
    taken before it), then phase 2 if the result has a backward receive.
   */
  function SyncBlockOps(ops0: seq<Op>, cls: RoleClassifier, vars: map<string, VarDesc>, useNewExecutor: bool)
    : Result<seq<Op>>
  {
    match Phase1From(ops0, cls, vars, 0)
    case Err(e) => Err(e)
    case Ok(ops1) => Phase2From(ops1, cls, vars, useNewExecutor, 0)
  }

  method SyncBlock(block: Block, cls: RoleClassifier, useNewExecutor: bool) returns (r: Result<seq<Op>>)
    ensures r == SyncBlockOps(block.ops, cls, block.vars, useNewExecutor)
  {
    var ops1 := SyncPhase1(block.ops, cls, block.vars);
    if ops1.Err? {
      return Err(ops1.error);
    }
    r := SyncPhase2(ops1.value, cls, block.vars, useNewExecutor);
  }

  /** Phase 1 of a block: find the first optimize op, then insert the syncs. */
  method SyncPhase1(ops0: seq<Op>, cls: RoleClassifier, vars: map<string, VarDesc>) returns (r: Result<seq<Op>>)
    ensures r == Phase1From(ops0, cls, vars, 0)
  {
    var first := FirstIndexWhere(ops0, cls.isOptimize);
    Phase1FromFirst(ops0, cls, vars, 0);
    var st := InsertSyncs(ops0, first, vars);
    if st.Err? {
      return Err(st.error);
    }
    SyncItemsIn(ops0, first, vars, |ops0|);
    return Ok(Materialize(st.value.items, ops0));
  }

  /** Phase 2 of a block: find the first backward receive, then remove the flagged syncs before it. */
  method SyncPhase2(ops1: seq<Op>, cls: RoleClassifier, vars: map<string, VarDesc>, useNewExecutor: bool)
    returns (r: Result<seq<Op>>)
    ensures r == Phase2From(ops1, cls, vars, useNewExecutor, 0)
  {
    var recv := FirstIndexWhere(ops1, IsBackwardRecv(cls));
    Phase2FromFirst(ops1, cls, vars, useNewExecutor, 0);
    if recv.None? {
      return Ok(ops1);
    }
    r := RemovePipelineSyncs(ops1, recv.value, vars, useNewExecutor);
  }

  /** The block with its operators rewritten, or the error it raises. */
  function SyncedBlock(block: Block, cls: RoleClassifier, useNewExecutor: bool): (r: Result<Block>)
    ensures r.Ok? ==> r.value == block.(ops := r.value.ops)
  {
    match SyncBlockOps(block.ops, cls, block.vars, useNewExecutor)
    case Err(e) => Err(e)
    case Ok(ops) => Ok(block.(ops := ops))
  }

  /** The per-block rewrite as a function value. */
  function SyncedBlockOf(cls: RoleClassifier, useNewExecutor: bool): Block -> Result<Block>
  {
    (block: Block) => SyncedBlock(block, cls, useNewExecutor)
  }

  /** A pass whose rewrite keeps parent links keeps them all. */
  lemma {:induction false} PassParents(s: seq<Block>, f: Block -> Result<Block>, i: nat, k: nat)
    requires i <= |s| && k < |s|
    requires forall b :: f(b).Ok? ==> f(b).value.parent == b.parent
    ensures Pass(s, f, i).1[k].parent == s[k].parent
    decreases i
  {
    if i > 0 {
      PassParents(s, f, i - 1, k);
    }
  }

  lemma SyncedBlockKeepsParent(cls: RoleClassifier, useNewExecutor: bool)
    ensures forall b :: SyncedBlockOf(cls, useNewExecutor)(b).Ok? ==> SyncedBlockOf(cls, useNewExecutor)(b).value.parent == b.parent
  {
    forall b | SyncedBlockOf(cls, useNewExecutor)(b).Ok?
      ensures SyncedBlockOf(cls, useNewExecutor)(b).value.parent == b.parent
    {
      assert SyncedBlockOf(cls, useNewExecutor)(b) == SyncedBlock(b, cls, useNewExecutor);
    }
  }

  /** Rewriting blocks keeps every parent link, so the arena stays well formed. */
  lemma SyncPassArena(blocks0: seq<Block>, cls: RoleClassifier, useNewExecutor: bool)
    requires Arena(blocks0)
    ensures Arena(Pass(blocks0, SyncedBlockOf(cls, useNewExecutor), |blocks0|).1)
  {
    var f := SyncedBlockOf(cls, useNewExecutor);
    SyncedBlockKeepsParent(cls, useNewExecutor);
    var r := Pass(blocks0, f, |blocks0|).1;
    forall k | 0 <= k < |blocks0| ensures r[k].parent == blocks0[k].parent {
      PassParents(blocks0, f, |blocks0|, k);
    }
  }

  /**
    `_insert_sync_for_fthenb_1f1b`: every block rewritten in order. A block
    that raises stops the pass; the blocks before it stay rewritten.
   */
  method InsertSyncForFthenb1f1b(program: Program, cls: RoleClassifier, useNewExecutor: bool) returns (err: Option<Error>)
    requires program.Valid()
    modifies program
    ensures program.Valid()
    ensures (err, program.blocks) == Pass(old(program.blocks), SyncedBlockOf(cls, useNewExecutor), |old(program.blocks)|)
  {
    var blocks0 := program.blocks;
    var blocks := blocks0;
    for b := 0 to |blocks0|
      invariant Pass(blocks0, SyncedBlockOf(cls, useNewExecutor), b) == (None, blocks)
    {
      var failure, blocks' := SyncBlockAt(blocks0, cls, useNewExecutor, b, blocks);
      if failure.Some? {
        SyncPassArena(blocks0, cls, useNewExecutor);
        program.blocks := blocks;
        return failure;
      }
      blocks := blocks';
    }
    SyncPassArena(blocks0, cls, useNewExecutor);
    program.blocks := blocks;
    return None;
  }

  /** One iteration of the pass: block `b` rewritten, or the pass stopped at it. */
  method SyncBlockAt(blocks0: seq<Block>, cls: RoleClassifier, useNewExecutor: bool, b: nat, blocks: seq<Block>)
    returns (failure: Option<Error>, blocks': seq<Block>)
    requires b < |blocks0| && Pass(blocks0, SyncedBlockOf(cls, useNewExecutor), b) == (None, blocks)
    ensures failure.None? ==> Pass(blocks0, SyncedBlockOf(cls, useNewExecutor), b + 1) == (None, blocks')
    ensures failure.Some? ==> Pass(blocks0, SyncedBlockOf(cls, useNewExecutor), |blocks0|) == (failure, blocks)
  {
    PassVisits(blocks0, SyncedBlockOf(cls, useNewExecutor), b, blocks);
    var synced := SyncOneBlock(blocks[b], cls, useNewExecutor);
    if synced.Err? {
      PassFails(blocks0, SyncedBlockOf(cls, useNewExecutor), b, blocks, synced.error);
      return Some(synced.error), blocks;
    }
    PassStep(blocks0, SyncedBlockOf(cls, useNewExecutor), b, b + 1, blocks, synced.value);
    return None, blocks[b := synced.value];
  }

  /** One block of the pass. */
  method SyncOneBlock(block: Block, cls: RoleClassifier, useNewExecutor: bool) returns (r: Result<Block>)
    ensures r == SyncedBlockOf(cls, useNewExecutor)(block)
  {
    var ops := SyncBlock(block, cls, useNewExecutor);
    if ops.Err? {
      return Err(ops.error);
    }
    return Ok(block.(ops := ops.value));
  }
}
