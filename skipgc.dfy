/**
  `set_skip_gc_vars`: after a whole program has been cut into typed
  sub-programs, every job of the schedule learns which of its variables a
  later job of the same micro-batch still reads, so that the executor does not
  collect them; with the IR executor enabled, consecutive sub-programs are
  then linked by `prepare_ir_program`.
 */
module SkipGc {
  import opened Ir
  import opened Liveness
  import opened Shadowing

  /** A scheduled job: a sub-program type and a micro-batch, and the skip set the pass assigns. */
  class Job {
    const jobType: string
    const microBatchId: int
    var skipGcVars: set<string>

    constructor (jobType: string, microBatchId: int)
      ensures this.jobType == jobType && this.microBatchId == microBatchId && skipGcVars == {}
    {
      this.jobType := jobType;
      this.microBatchId := microBatchId;
      skipGcVars := {};
    }
  }

  /** What the pass reads of a job. */
  datatype JobInfo = JobInfo(jobType: string, microBatchId: int)

  function InfoOf(jobs: seq<Job>): (r: seq<JobInfo>)
    ensures |r| == |jobs| && forall k :: 0 <= k < |jobs| ==> r[k] == JobInfo(jobs[k].jobType, jobs[k].microBatchId)
  {
    seq(|jobs|, k requires 0 <= k < |jobs| => JobInfo(jobs[k].jobType, jobs[k].microBatchId))
  }

  /** The element a Python list of length `n` yields for index `m`: negative indices count from the end. */
  function PySlot(m: int, n: int): Option<nat>
  {
    if 0 <= m < n then Some(m) else if -n <= m < 0 then Some(m + n) else None
  }

  /** `dict(zip(keys, values))`: pairs up to the shorter length, a repeated key keeps its last value. */
  function ZipToMap<K, V>(keys: seq<K>, values: seq<V>): map<K, V>
    decreases |keys|
  {
    var m := if |keys| < |values| then |keys| else |values|;
    if m == 0 then map[] else ZipToMap(keys[..m - 1], values[..m - 1])[keys[m - 1] := values[m - 1]]
  }

  lemma {:induction false} ZipToMapMember<K, V>(keys: seq<K>, values: seq<V>, key: K)
    ensures key in ZipToMap(keys, values) <==> exists i :: 0 <= i < |keys| && i < |values| && keys[i] == key
    ensures forall i :: (0 <= i < |keys| && i < |values| && keys[i] == key &&
      (forall j :: i < j < |keys| && j < |values| ==> keys[j] != key)) ==> ZipToMap(keys, values)[key] == values[i]
    decreases |keys|
  {
    var m := if |keys| < |values| then |keys| else |values|;
    if m > 0 {
      var ks, vs := keys[..m - 1], values[..m - 1];
      ZipToMapMember(ks, vs, key);
      if exists i :: 0 <= i < |keys| && i < |values| && keys[i] == key {
        var i :| 0 <= i < |keys| && i < |values| && keys[i] == key;
        if i < m - 1 { assert ks[i] == key; }
      }
      if key in ZipToMap(ks, vs) && key != keys[m - 1] {
        var i :| 0 <= i < |ks| && i < |vs| && ks[i] == key;
        assert keys[i] == key;
      }
    }
  }

  lemma {:induction false} ZipToMapValues<K, V>(keys: seq<K>, values: seq<V>)
    ensures forall key :: key in ZipToMap(keys, values) ==> ZipToMap(keys, values)[key] in values
    decreases |keys|
  {
    var m := if |keys| < |values| then |keys| else |values|;
    if m > 0 {
      ZipToMapValues(keys[..m - 1], values[..m - 1]);
      forall key | key in ZipToMap(keys, values) ensures ZipToMap(keys, values)[key] in values {
        if key != keys[m - 1] {
          assert ZipToMap(keys, values)[key] in values[..m - 1];
        }
      }
    }
  }

  /** The required set recorded for a type, empty for an unknown one. */
  function ReqOf(req: map<string, set<string>>, t: string): set<string>
  {
    if t in req then req[t] else {}
  }

  /** The union of the required sets of the jobs from `from` on whose micro-batch slot is `slot`. */
  function Suffix(js: seq<JobInfo>, req: map<string, set<string>>, n: int, from: nat, slot: nat): set<string>
    decreases |js| - from
  {
    if from >= |js| then {}
    else
      var own := if PySlot(js[from].microBatchId, n) == Some(slot) then ReqOf(req, js[from].jobType) else {};
      own + Suffix(js, req, n, from + 1, slot)
  }

  /** The skip set of job `k`: its required names that a later job of its micro-batch requires too. */
  function SkipOf(js: seq<JobInfo>, req: map<string, set<string>>, n: int, k: nat): set<string>
    requires k < |js|
  {
    match PySlot(js[k].microBatchId, n)
    case None => {}
    case Some(slot) => ReqOf(req, js[k].jobType) * Suffix(js, req, n, k + 1, slot)
  }

  const BackwardSkipMessage := "When enabling pipeline parallelism stategy, the skip_gc_vars for backward subprogram must be empty"

  /** The error the sweep raises at job `k`, if any. */
  function JobCheck(js: seq<JobInfo>, req: map<string, set<string>>, n: int, k: nat): Option<Error>
    requires k < |js|
  {
    if js[k].jobType !in req then Some(KeyError(js[k].jobType))
    else if PySlot(js[k].microBatchId, n).None? then Some(IndexError("list index out of range"))
    else if js[k].jobType == "backward" && SkipOf(js, req, n, k) != {} then Some(AssertionFailed(BackwardSkipMessage))
    else None
  }

  /** Every job from `from` on passes. */
  predicate PassFrom(js: seq<JobInfo>, req: map<string, set<string>>, n: int, from: nat)
  {
    forall l :: from <= l < |js| ==> JobCheck(js, req, n, l).None?
  }

  lemma PassFromStep(js: seq<JobInfo>, req: map<string, set<string>>, n: int, from: nat)
    requires from < |js| && PassFrom(js, req, n, from + 1)
    requires js[from].jobType in req && PySlot(js[from].microBatchId, n).Some?
    requires js[from].jobType == "backward" ==> SkipOf(js, req, n, from) == {}
    ensures PassFrom(js, req, n, from)
  {
    assert JobCheck(js, req, n, from).None?;
  }

  /** `jobs[l]` is not repeated anywhere in `jobs[from..l]`. */
  predicate FirstFrom(jobs: seq<Job>, from: nat, l: nat)
    requires l < |jobs|
  {
    forall q :: from <= q < l ==> jobs[q] != jobs[l]
  }

  lemma {:induction false} SuffixMember(js: seq<JobInfo>, req: map<string, set<string>>, n: int, from: nat, slot: nat, x: string)
    ensures x in Suffix(js, req, n, from, slot) <==>
      exists l :: from <= l < |js| && PySlot(js[l].microBatchId, n) == Some(slot) && x in ReqOf(req, js[l].jobType)
    decreases |js| - from
  {
    if from < |js| {
      SuffixMember(js, req, n, from + 1, slot, x);
    }
  }

  /**
    A name is skipped for job `k` iff job `k` requires it and some later job
    on the same micro-batch requires it too.
   */
  lemma SkipOfMember(js: seq<JobInfo>, req: map<string, set<string>>, n: int, k: nat, x: string)
    requires k < |js| && PySlot(js[k].microBatchId, n).Some?
    ensures x in SkipOf(js, req, n, k) <==> (x in ReqOf(req, js[k].jobType) &&
      exists l :: k < l < |js| && PySlot(js[l].microBatchId, n) == PySlot(js[k].microBatchId, n) && x in ReqOf(req, js[l].jobType))
  {
    SuffixMember(js, req, n, k + 1, PySlot(js[k].microBatchId, n).value, x);
  }

  /** A job of another micro-batch, wherever it is added after job `k`, does not change job `k`'s skip set. */
  lemma {:induction false} OtherMicroBatchIrrelevant(js: seq<JobInfo>, req: map<string, set<string>>, n: int, k: nat, p: nat, e: JobInfo)
    requires k < p <= |js| && PySlot(js[k].microBatchId, n).Some?
    requires PySlot(e.microBatchId, n) != PySlot(js[k].microBatchId, n)
    ensures (js[..p] + [e] + js[p..])[k] == js[k]
    ensures SkipOf(js[..p] + [e] + js[p..], req, n, k) == SkipOf(js, req, n, k)
  {
    var js' := js[..p] + [e] + js[p..];
    assert js'[k] == js[k];
    var slot := PySlot(js[k].microBatchId, n).value;
    var after, before := Suffix(js', req, n, k + 1, slot), Suffix(js, req, n, k + 1, slot);
    forall x | x in after ensures x in before {
      SuffixMember(js', req, n, k + 1, slot, x);
      SuffixMember(js, req, n, k + 1, slot, x);
      var l :| k + 1 <= l < |js'| && PySlot(js'[l].microBatchId, n) == Some(slot) && x in ReqOf(req, js'[l].jobType);
      if l < p {
        assert js'[l] == js[l];
      } else {
        assert l != p;
        assert js'[l] == js[l - 1];
      }
    }
    forall x | x in before ensures x in after {
      SuffixMember(js', req, n, k + 1, slot, x);
      SuffixMember(js, req, n, k + 1, slot, x);
      var l :| k + 1 <= l < |js| && PySlot(js[l].microBatchId, n) == Some(slot) && x in ReqOf(req, js[l].jobType);
      if l < p {
        assert js'[l] == js[l];
      } else {
        assert js'[l + 1] == js[l];
      }
    }
  }

  /**
    Two micro-batches under a typical one-forward-one-backward order: each
    forward job keeps what its own backward job reads, and no backward job
    keeps anything.
   */
  lemma FourJobExample()
    ensures var js := [JobInfo("forward", 0), JobInfo("forward", 1), JobInfo("backward", 1), JobInfo("backward", 0)];
      var req := map["forward" := {"a", "b"}, "backward" := {"a"}];
      SkipOf(js, req, 2, 0) == {"a"} && SkipOf(js, req, 2, 1) == {"a"} &&
      SkipOf(js, req, 2, 2) == {} && SkipOf(js, req, 2, 3) == {} && PassFrom(js, req, 2, 0)
  {
    var js := [JobInfo("forward", 0), JobInfo("forward", 1), JobInfo("backward", 1), JobInfo("backward", 0)];
    var req := map["forward" := {"a", "b"}, "backward" := {"a"}];
    assert Suffix(js, req, 2, 4, 0) == {} && Suffix(js, req, 2, 4, 1) == {};
    assert Suffix(js, req, 2, 3, 1) == {};
    assert Suffix(js, req, 2, 3, 0) == {"a"};
    assert Suffix(js, req, 2, 2, 1) == {"a"};
    assert Suffix(js, req, 2, 1, 0) == {"a"};
    assert Suffix(js, req, 2, 2, 0) == {"a"};
  }

  /** A backward job whose micro-batch later needs one of its names again is rejected. */
  lemma BackwardSkipRejected()
    ensures var js := [JobInfo("backward", 0), JobInfo("forward", 0)];
      JobCheck(js, map["forward" := {"a"}, "backward" := {"a"}], 1, 0) == Some(AssertionFailed(BackwardSkipMessage))
  {
    var js := [JobInfo("backward", 0), JobInfo("forward", 0)];
    var req := map["forward" := {"a"}, "backward" := {"a"}];
    assert Suffix(js, req, 1, 1, 0) == {"a"};
  }

  /** Step 1: the required set of every type's sub-program. */
  method RequiredByType(typeToProgram: map<string, Program>, registry: Op -> set<string>)
    returns (req: map<string, set<string>>)
    requires forall t :: t in typeToProgram ==> typeToProgram[t].Valid()
    ensures req.Keys == typeToProgram.Keys
    ensures forall t :: t in req ==> req[t] == ProgramRequired(typeToProgram[t].blocks, registry)
  {
    req := map[];
    var rest := typeToProgram.Keys;
    while rest != {}
      invariant rest <= typeToProgram.Keys && req.Keys == typeToProgram.Keys - rest
      invariant forall t :: t in req ==> req[t] == ProgramRequired(typeToProgram[t].blocks, registry)
      decreases rest
    {
      var t :| t in rest;
      var r := RequiredVars(typeToProgram[t], registry);
      req := req[t := r];
      rest := rest - {t};
    }
  }

  /** The skip set of every job object, as the sweep finds them. */
  function SkipSets(jobs: seq<Job>): map<Job, set<string>>
    reads jobs
  {
    map o | o in jobs :: o.skipGcVars
  }

  /**
    The sweep has handled the jobs from `from` on: in `now`, each job object
    holds the skip set of its first position in that range, every other
    object keeps its value in `orig`.
   */
  ghost predicate Assigned(jobs: seq<Job>, js: seq<JobInfo>, req: map<string, set<string>>, n: int, from: nat,
                           now: map<Job, set<string>>, orig: map<Job, set<string>>)
    requires from <= |jobs| && |js| == |jobs| && forall l :: 0 <= l < |jobs| ==> jobs[l] in now
  {
    (forall l :: from <= l < |jobs| && FirstFrom(jobs, from, l) ==> now[jobs[l]] == SkipOf(js, req, n, l)) &&
    (forall o :: o in now && o in orig && (forall l :: from <= l < |jobs| ==> jobs[l] != o) ==> now[o] == orig[o])
  }

  /** `job.set_skip_gc_vars(skip_gc_vars)` for the job at position `jobId`. */
  method AssignSkip(jobs: seq<Job>, jobId: nat, skip: set<string>, ghost js: seq<JobInfo>,
                    ghost req: map<string, set<string>>, ghost n: int, ghost orig: map<Job, set<string>>)
    requires jobId < |jobs| == |js| && Assigned(jobs, js, req, n, jobId + 1, SkipSets(jobs), orig)
    requires skip == SkipOf(js, req, n, jobId)
    modifies jobs[jobId]
    ensures Assigned(jobs, js, req, n, jobId, SkipSets(jobs), orig)
  {
    jobs[jobId].skipGcVars := skip;
  }

  /** The accumulators hold, per micro-batch, the union over the jobs from `from` on. */
  predicate Accumulated(suffixed: seq<set<string>>, js: seq<JobInfo>, req: map<string, set<string>>, n: int, from: nat)
  {
    |suffixed| == n && forall s :: 0 <= s < n ==> suffixed[s] == Suffix(js, req, n, from, s)
  }

  /** One iteration of the sweep, at job `jobId`. */
  method SweepStep(jobs: seq<Job>, req: map<string, set<string>>, numMicroBatches: int, jobId: nat,
                   suffixed: seq<set<string>>, ghost js: seq<JobInfo>, ghost orig: map<Job, set<string>>)
    returns (err: Option<Error>, suffixed': seq<set<string>>)
    requires jobId < |jobs| && js == InfoOf(jobs) && numMicroBatches >= 1
    requires Accumulated(suffixed, js, req, numMicroBatches, jobId + 1)
    requires PassFrom(js, req, numMicroBatches, jobId + 1)
    requires Assigned(jobs, js, req, numMicroBatches, jobId + 1, SkipSets(jobs), orig)
    modifies jobs[jobId]
    ensures err.Some? ==> (err == JobCheck(js, req, numMicroBatches, jobId) &&
      Assigned(jobs, js, req, numMicroBatches, jobId + 1, SkipSets(jobs), orig))
    ensures err.None? ==> (Accumulated(suffixed', js, req, numMicroBatches, jobId) &&
      PassFrom(js, req, numMicroBatches, jobId) &&
      Assigned(jobs, js, req, numMicroBatches, jobId, SkipSets(jobs), orig))
  {
    suffixed' := suffixed;
    var job := jobs[jobId];
    var jobType := job.jobType;
    if jobType !in req {
      return Some(KeyError(jobType)), suffixed';
    }
    var requiredVars := req[jobType];
    var slot := PySlot(job.microBatchId, numMicroBatches);
    if slot.None? {
      return Some(IndexError("list index out of range")), suffixed';
    }
    var m := slot.value;
    var skipGcVars := requiredVars * suffixed[m];
    assert skipGcVars == SkipOf(js, req, numMicroBatches, jobId);
    if jobType == "backward" {
      if |skipGcVars| != 0 {
        return Some(AssertionFailed(BackwardSkipMessage)), suffixed';
      }
    }
    PassFromStep(js, req, numMicroBatches, jobId);
    AssignSkip(jobs, jobId, skipGcVars, js, req, numMicroBatches, orig);
    suffixed' := suffixed[m := suffixed[m] + requiredVars];
    return None, suffixed';
  }

  /** Step 2: the reverse sweep over the jobs with one accumulator per micro-batch. */
  method SweepJobs(jobs: seq<Job>, req: map<string, set<string>>, numMicroBatches: int)
    returns (err: Option<Error>, ghost failed: int)
    requires numMicroBatches >= 1
    modifies jobs
    ensures -1 <= failed < |jobs| && (err.None? <==> failed == -1)
    ensures PassFrom(InfoOf(jobs), req, numMicroBatches, failed + 1)
    ensures failed >= 0 ==> err == JobCheck(InfoOf(jobs), req, numMicroBatches, failed)
    ensures Assigned(jobs, InfoOf(jobs), req, numMicroBatches, failed + 1, SkipSets(jobs), old(SkipSets(jobs)))
  {
    ghost var js := InfoOf(jobs);
    ghost var orig := SkipSets(jobs);
    var suffixed: seq<set<string>> := seq(numMicroBatches, _ => {});
    var jobId := |jobs| - 1;
    while jobId >= 0
      invariant -1 <= jobId < |jobs|
      invariant Accumulated(suffixed, js, req, numMicroBatches, jobId + 1)
      invariant PassFrom(js, req, numMicroBatches, jobId + 1)
      invariant Assigned(jobs, js, req, numMicroBatches, jobId + 1, SkipSets(jobs), orig)
      decreases jobId
    {
      err, suffixed := SweepStep(jobs, req, numMicroBatches, jobId, suffixed, js, orig);
      if err.Some? {
        return err, jobId;
      }
      jobId := jobId - 1;
    }
    return None, -1;
  }

  /** Applying `prepare_ir_program` to one pair of consecutive types, on a ghost view of every program's blocks. */
  ghost function PirStep(st: map<Program, seq<Block>>, p: Program, q: Program): (r: map<Program, seq<Block>>)
    requires p in st && q in st && Arena(st[p]) && Arena(st[q])
    ensures r.Keys == st.Keys
    ensures forall o :: o in r && o != p && o != q ==> r[o] == st[o]
  {
    if p == q then st[p := SelfAfter(st[p])] else st[p := CurAfter(st[p], st[q])][q := NextAfter(st[p], st[q])]
  }

  /** Every program of `st` is a well-formed arena. */
  ghost predicate AllArenas(st: map<Program, seq<Block>>)
  {
    forall o :: o in st ==> Arena(st[o])
  }

  lemma PirStepArenas(st: map<Program, seq<Block>>, p: Program, q: Program)
    requires p in st && q in st && AllArenas(st)
    ensures AllArenas(PirStep(st, p, q))
  {
  }

  /** The first `m` links of the chain over `types`. */
  ghost function PirChain(st: map<Program, seq<Block>>, ttp: map<string, Program>, types: seq<string>, m: nat)
    : (r: map<Program, seq<Block>>)
    requires AllArenas(st) && m < |types| && forall t :: t in types ==> t in ttp && ttp[t] in st
    ensures r.Keys == st.Keys && AllArenas(r)
    decreases m
  {
    if m == 0 then st
    else
      var mid := PirChain(st, ttp, types, m - 1);
      PirStepArenas(mid, ttp[types[m - 1]], ttp[types[m]]);
      PirStep(mid, ttp[types[m - 1]], ttp[types[m]])
  }

  /** The blocks of every program of a map. */
  ghost function BlocksOf(ttp: map<string, Program>): map<Program, seq<Block>>
    reads ttp.Values
  {
    map o | o in ttp.Values :: o.blocks
  }

  /** One link of the chain: `prepare_ir_program(type_to_program[t], type_to_program[u])`. */
  method LinkPair(typeToProgram: map<string, Program>, t: string, u: string)
    requires t in typeToProgram && u in typeToProgram
    requires forall v :: v in typeToProgram ==> typeToProgram[v].Valid()
    modifies typeToProgram.Values
    ensures forall v :: v in typeToProgram ==> typeToProgram[v].Valid()
    ensures AllArenas(old(BlocksOf(typeToProgram)))
    ensures BlocksOf(typeToProgram) == PirStep(old(BlocksOf(typeToProgram)), typeToProgram[t], typeToProgram[u])
  {
    ghost var before := BlocksOf(typeToProgram);
    var cur, next := typeToProgram[t], typeToProgram[u];
    PrepareIrProgram(cur, next);
    ghost var after := PirStep(before, cur, next);
    forall o | o in typeToProgram.Values ensures o.blocks == after[o] {
      if o == cur || o == next {
      } else {
        assert o.blocks == before[o];
      }
    }
    assert BlocksOf(typeToProgram).Keys == after.Keys;
  }

  lemma BlocksOfSame(ttp: map<string, Program>, m: map<Program, seq<Block>>)
    requires m.Keys == ttp.Values && forall o :: o in m ==> o.blocks == m[o]
    ensures BlocksOf(ttp) == m
  {
  }

  /** The `FLAGS_enable_pir_in_executor` branch: link every pair of consecutive job types. */
  method LinkSubPrograms(typeToProgram: map<string, Program>, jobTypes: seq<string>) returns (err: Option<Error>)
    requires forall t :: t in typeToProgram ==> typeToProgram[t].Valid()
    modifies typeToProgram.Values
    ensures forall t :: t in typeToProgram ==> typeToProgram[t].Valid()
    ensures err.None? <==> |jobTypes| <= 1 || forall t :: t in jobTypes ==> t in typeToProgram
    ensures err.Some? ==> err.value.KeyError?
    ensures err.None? && |jobTypes| > 1 ==>
      AllArenas(old(BlocksOf(typeToProgram))) &&
      BlocksOf(typeToProgram) == PirChain(old(BlocksOf(typeToProgram)), typeToProgram, jobTypes, |jobTypes| - 1)
  {
    if |jobTypes| <= 1 {
      return None;
    }
    ghost var st0 := BlocksOf(typeToProgram);
    assert AllArenas(st0);
    for i := 0 to |jobTypes| - 1
      invariant forall t :: t in typeToProgram ==> typeToProgram[t].Valid()
      invariant i > 0 ==> forall k :: 0 <= k <= i ==> jobTypes[k] in typeToProgram
      invariant (forall t :: t in jobTypes ==> t in typeToProgram) ==>
        BlocksOf(typeToProgram) == PirChain(st0, typeToProgram, jobTypes, i)
    {
      var t := jobTypes[i];
      var nextType := jobTypes[i + 1];
      if t !in typeToProgram {
        return Some(KeyError(t));
      }
      if nextType !in typeToProgram {
        return Some(KeyError(nextType));
      }
      LinkPair(typeToProgram, t, nextType);
      forall k | 0 <= k <= i + 1 ensures jobTypes[k] in typeToProgram {
        if k < i { assert i > 0; }
      }
    }
    assert forall t :: t in jobTypes ==> t in typeToProgram by {
      forall t | t in jobTypes ensures t in typeToProgram {
        var k :| 0 <= k < |jobTypes| && jobTypes[k] == t;
      }
    }
    return None;
  }

  /** The required set of every type, read from the programs' current blocks. */
  ghost function ReqMap(typeToProgram: map<string, Program>, registry: Op -> set<string>): map<string, set<string>>
    reads typeToProgram.Values
  {
    map t | t in typeToProgram :: ProgramRequired(typeToProgram[t].blocks, registry)
  }

  const MicroBatchMessage := "num_micro_batches needs to be >= 1"

  /** Steps 1 and 2 of `set_skip_gc_vars` on the zipped type-to-program map. */
  method AssignSkipGcVars(numMicroBatches: int, typeToProgram: map<string, Program>, jobs: seq<Job>,
                          registry: Op -> set<string>)
    returns (err: Option<Error>, ghost failed: int)
    requires numMicroBatches >= 1
    requires forall t :: t in typeToProgram ==> typeToProgram[t].Valid()
    modifies jobs
    ensures -1 <= failed < |jobs| && (err.None? <==> failed == -1)
    ensures PassFrom(InfoOf(jobs), old(ReqMap(typeToProgram, registry)), numMicroBatches, failed + 1)
    ensures failed >= 0 ==> err == JobCheck(InfoOf(jobs), old(ReqMap(typeToProgram, registry)), numMicroBatches, failed)
    ensures Assigned(jobs, InfoOf(jobs), old(ReqMap(typeToProgram, registry)), numMicroBatches, failed + 1,
                     SkipSets(jobs), old(SkipSets(jobs)))
    ensures BlocksOf(typeToProgram) == old(BlocksOf(typeToProgram))
  {
    ghost var blocks0 := BlocksOf(typeToProgram);
    var typeToRequiredVars := RequiredByType(typeToProgram, registry);
    assert typeToRequiredVars == ReqMap(typeToProgram, registry);
    err, failed := SweepJobs(jobs, typeToRequiredVars, numMicroBatches);
    BlocksOfSame(typeToProgram, blocks0);
  }

  /**
    `set_skip_gc_vars(num_micro_batches, job_types, sub_programs, jobs)`; the
    `FLAGS_enable_pir_in_executor` flag is the parameter `enablePir`. The ghost
    `failed` is the job whose check raised, -1 when every job passed.
   */
  method SetSkipGcVars(numMicroBatches: int, jobTypes: seq<string>, subPrograms: seq<Program>, jobs: seq<Job>,
                       registry: Op -> set<string>, enablePir: bool)
    returns (r: Result<map<string, Program>>, ghost failed: int)
    requires forall k :: 0 <= k < |subPrograms| ==> subPrograms[k].Valid()
    modifies jobs, subPrograms
    ensures forall k :: 0 <= k < |subPrograms| ==> subPrograms[k].Valid()
    ensures numMicroBatches < 1 ==> r == Err(AssertionFailed(MicroBatchMessage)) && SkipSets(jobs) == old(SkipSets(jobs))
    ensures numMicroBatches >= 1 ==>
      var req := old(ReqMap(ZipToMap(jobTypes, subPrograms), registry));
      -1 <= failed < |jobs| &&
      PassFrom(InfoOf(jobs), req, numMicroBatches, failed + 1) &&
      Assigned(jobs, InfoOf(jobs), req, numMicroBatches, failed + 1, SkipSets(jobs), old(SkipSets(jobs))) &&
      (failed >= 0 ==> r.Err? && JobCheck(InfoOf(jobs), req, numMicroBatches, failed) == Some(r.error))
    ensures numMicroBatches >= 1 && failed == -1 && !enablePir ==> r == Ok(ZipToMap(jobTypes, subPrograms))
    ensures numMicroBatches >= 1 && failed == -1 && enablePir ==>
      (r.Ok? <==> |jobTypes| <= 1 || forall t :: t in jobTypes ==> t in ZipToMap(jobTypes, subPrograms)) &&
      (r.Ok? ==> r.value == ZipToMap(jobTypes, subPrograms)) && (r.Err? ==> r.error.KeyError?)
    ensures numMicroBatches < 1 || failed >= 0 || !enablePir ==>
      forall k :: 0 <= k < |subPrograms| ==> subPrograms[k].blocks == old(subPrograms[k].blocks)
    ensures r.Ok? && enablePir && |jobTypes| > 1 ==>
      var ttp := ZipToMap(jobTypes, subPrograms);
      AllArenas(old(BlocksOf(ttp))) && BlocksOf(ttp) == PirChain(old(BlocksOf(ttp)), ttp, jobTypes, |jobTypes| - 1)
  {
    if numMicroBatches < 1 {
      return Err(AssertionFailed(MicroBatchMessage)), -1;
    }
    var typeToProgram := ZipToMap(jobTypes, subPrograms);
    ZipToMapValues(jobTypes, subPrograms);
    var err;
    err, failed := AssignSkipGcVars(numMicroBatches, typeToProgram, jobs, registry);
    if err.Some? {
      return Err(err.value), failed;
    }
    if enablePir {
      ghost var skips := SkipSets(jobs);
      err := LinkSubPrograms(typeToProgram, jobTypes);
      assert SkipSets(jobs) == skips;
      if err.Some? {
        return Err(err.value), failed;
      }
    }
    return Ok(typeToProgram), failed;
  }
}
