/**
 * The workflow runner (`JobRunner`): it runs the steps of a job in order,
 * each under an absolute id `parent.job.i`, resolving `$job.step.data` and
 * `$job.step.error` references in a step's input against the outputs of
 * the steps already run, and then descends into the named sub-job.
 *
 * The client is an oracle from a step and its resolved input to the
 * invocation's outcome.
 */
module JobRunning {
  import opened Wrappers
  import opened Strings
  import opened Records
  import opened Json

  /** A step: what to invoke and the input to resolve. */
  datatype Step = Step(uri: string, methodName: string, config: Json, input: Record<Json>)

  /** A job: its steps, if any, and its sub-jobs by name, if any. */
  datatype Job = Job(steps: Option<seq<Step>>, jobs: Option<seq<(string, Job)>>)

  /** What an invocation gave back; an absent field is `Undefined`. */
  datatype InvokeResult = InvokeResult(data: Json, error: Json)

  datatype RunError =
    /** `jobs[jobId].steps` on a job that does not exist (a TypeError) */
    | MissingJob(jobId: string)
    /** an input reference that could not be resolved */
    | Unresolved(message: string)

  /** How far a run got: the outputs recorded, and the error that stopped it, if any. */
  datatype RunState = RunState(outputs: map<string, InvokeResult>, error: Option<RunError>)

  /** `output[dataOrErr]` */
  function OutputField(r: InvokeResult, field: string): Json
  {
    if field == "data" then r.data else if field == "error" then r.error else Undefined
  }

  /** Unary `+` on a step number: digits (none reads as 0), or NaN as `None`. */
  function NumberValue(s: string): (r: Option<nat>)
    ensures IsDigits(s) <==> r.Some?
  {
    if IsDigits(s) then Some(DigitsValue(s)) else None
  }

  function NumberText(n: Option<nat>): string
  {
    if n.Some? then NatToString(n.value) else "NaN"
  }

  const COULD_NOT_RESOLVE := "Could not resolve input for step with stepId: "

  function CouldNotResolve(absCurJobId: string, curStepId: Option<nat>): (s: string)
    ensures COULD_NOT_RESOLVE <= s
  {
    COULD_NOT_RESOLVE + absCurJobId + "." + NumberText(curStepId)
  }

  /**
   * A `$...` reference: split the rest on ".", take the last piece as the
   * field, the one before as the step and the others as the job id; it
   * resolves when the current job id contains that job id and the step's
   * output holds a truthy value in that field.
   */
  function ResolveReference(outputs: map<string, InvokeResult>, absCurJobId: string, curStepId: Option<nat>,
                            value: string): (r: Result<Json, string>)
    requires StartsWith(value, "$")
    ensures r.Ok? ==> Truthy(r.value)
    ensures r.Err? ==> r.error == CouldNotResolve(absCurJobId, curStepId)
  {
    var parts := Split(value[1..], '.');
    var n := |parts|;
    var absJobId := Join(parts[..if n >= 2 then n - 2 else 0], '.');
    var dataOrErr := parts[n - 1];
    var stepPart := if n >= 2 then parts[n - 2] else "undefined";
    var absStepId := absJobId + "." + stepPart;
    if Includes(absCurJobId, absJobId) then
      if absJobId == absCurJobId && n >= 2 && NumberValue(stepPart).Some? && curStepId.Some?
         && NumberValue(stepPart).value < curStepId.value
         && absStepId in outputs && Truthy(OutputField(outputs[absStepId], dataOrErr)) then
        Ok(OutputField(outputs[absStepId], dataOrErr))
      else if absStepId in outputs && Truthy(OutputField(outputs[absStepId], dataOrErr)) then
        Ok(OutputField(outputs[absStepId], dataOrErr))
      else Err(CouldNotResolve(absCurJobId, curStepId))
    else Err(CouldNotResolve(absCurJobId, curStepId))
  }

  /** `resolveValue`: references resolved, arrays element-wise, objects key-wise, anything else as it is. */
  function ResolveValue(outputs: map<string, InvokeResult>, absCurJobId: string, curStepId: Option<nat>, v: Json)
    : (r: Result<Json, string>)
    ensures r.Err? ==> r.error == CouldNotResolve(absCurJobId, curStepId)
    ensures !v.Str? && !v.Arr? && !v.Obj? ==> r == Ok(v)
    ensures r.Ok? && v.Arr? ==> r.value.Arr? && |r.value.items| == |v.items|
    ensures r.Ok? && v.Obj? ==> r.value.Obj? && forall k :: Get(r.value.fields, k).Some? <==> k in Keys(v.fields)
    decreases v, 1
  {
    match v
    case Str(s) =>
      if StartsWith(s, "$") then ResolveReference(outputs, absCurJobId, curStepId, s) else Ok(v)
    case Arr(items) =>
      var r := ResolveItems(outputs, absCurJobId, curStepId, items);
      if r.Err? then Err(r.error) else Ok(Arr(r.value))
    case Obj(fields) =>
      var r := ResolveFields(outputs, absCurJobId, curStepId, v, [], fields);
      if r.Err? then Err(r.error) else Ok(Obj(r.value))
    case _ => Ok(v)
  }

  function ResolveItems(outputs: map<string, InvokeResult>, absCurJobId: string, curStepId: Option<nat>, items: seq<Json>)
    : (r: Result<seq<Json>, string>)
    ensures r.Err? ==> r.error == CouldNotResolve(absCurJobId, curStepId)
    ensures r.Ok? ==> |r.value| == |items|
    decreases items, 0
  {
    if items == [] then Ok([])
    else
      var head := ResolveValue(outputs, absCurJobId, curStepId, items[0]);
      if head.Err? then Err(head.error)
      else
        var tail := ResolveItems(outputs, absCurJobId, curStepId, items[1..]);
        if tail.Err? then Err(tail.error) else Ok([head.value] + tail.value)
  }

  /**
   * `Object.entries(value).reduce((obj, [k, v]) => (obj[k] = resolveValue(v), obj), {})` from `acc`;
   * `parent` is the object the fields belong to: it bounds the recursion.
   */
  function ResolveFields(outputs: map<string, InvokeResult>, absCurJobId: string, curStepId: Option<nat>,
                         ghost parent: Json, acc: Record<Json>, fields: seq<(string, Json)>): (r: Result<Record<Json>, string>)
    requires forall i :: 0 <= i < |fields| ==> fields[i].1 < parent
    ensures r.Err? ==> r.error == CouldNotResolve(absCurJobId, curStepId)
    ensures r.Ok? ==> forall k :: Get(r.value, k).Some? <==> Get(acc, k).Some? || k in Keys(fields)
    decreases parent, 0, |fields|
  {
    if fields == [] then Ok(acc)
    else
      var v := ResolveValue(outputs, absCurJobId, curStepId, fields[0].1);
      if v.Err? then Err(v.error)
      else
        GetPutKeys(acc, fields[0].0, v.value);
        ResolveFields(outputs, absCurJobId, curStepId, parent, Put(acc, fields[0].0, v.value), fields[1..])
  }

  /** `resolveInput`: the step id is split at its last "." into the job id and the step number. */
  function ResolveInput(outputs: map<string, InvokeResult>, absCurStepId: string, input: Record<Json>)
    : (r: Result<Json, string>)
    ensures r.Ok? ==> r.value.Obj? && forall k :: Get(r.value.fields, k).Some? <==> k in Keys(input)
    ensures r.Err? ==> COULD_NOT_RESOLVE <= r.error
  {
    var index := LastIndexOf(absCurStepId, '.');
    var curStepId := NumberValue(Substring(absCurStepId, index + 1, |absCurStepId|));
    var absCurJobId := Substring(absCurStepId, 0, index);
    ResolveValue(outputs, absCurJobId, curStepId, Obj(input))
  }

  /** `${parentId}.${jobId}.${i}`, or `${jobId}.${i}` without a parent. */
  function AbsoluteId(parentId: string, jobId: string, i: nat): string
  {
    if parentId != "" then parentId + "." + jobId + "." + NatToString(i) else jobId + "." + NatToString(i)
  }

  /** The steps from `i` on, in order: resolve, invoke, record; stop at the first unresolved input. */
  function StepsFrom(outputs: map<string, InvokeResult>, parentId: string, jobId: string, steps: seq<Step>, i: nat,
                     client: (Step, Json) -> InvokeResult): RunState
    requires i <= |steps|
    decreases |steps| - i
  {
    if i == |steps| then RunState(outputs, None)
    else
      var absoluteId := AbsoluteId(parentId, jobId, i);
      var input := ResolveInput(outputs, absoluteId, steps[i].input);
      if input.Err? then RunState(outputs, Some(Unresolved(input.error)))
      else StepsFrom(outputs[absoluteId := client(steps[i], input.value)], parentId, jobId, steps, i + 1, client)
  }

  /** The position of the first "." of a relative id, or its length when it has none. */
  function JobIdEnd(relativeId: string): (index: nat)
    ensures index <= |relativeId|
    ensures '.' !in relativeId[..index]
    ensures index < |relativeId| ==> relativeId[index] == '.'
  {
    var index := IndexOf(relativeId, '.');
    if index == -1 then |relativeId| else index
  }

  /** `run` along one relative id: the first job's steps, then its named sub-job. */
  function RunJob(outputs: map<string, InvokeResult>, relativeId: string, parentId: string, jobs: seq<(string, Job)>,
                  client: (Step, Json) -> InvokeResult): RunState
    decreases |relativeId|
  {
    if relativeId == "" then RunState(outputs, None)
    else
      var index := JobIdEnd(relativeId);
      var jobId := relativeId[..index];
      if jobId == "" then RunState(outputs, None)
      else if Get(jobs, jobId).None? then RunState(outputs, Some(MissingJob(jobId)))
      else
        var job := Get(jobs, jobId).value;
        var s := if job.steps.Some? then StepsFrom(outputs, parentId, jobId, job.steps.value, 0, client)
                 else RunState(outputs, None);
        if s.error.Some? || job.jobs.None? then s
        else
          RunJob(s.outputs, Substring(relativeId, index + 1, |relativeId|),
                 if parentId != "" then parentId + "." + jobId else jobId, job.jobs.value, client)
  }

  /** The job part of a step id: `${parentId}.${jobId}`, or `jobId` without a parent. */
  function JobPath(parentId: string, jobId: string): string
  {
    if parentId != "" then parentId + "." + jobId else jobId
  }

  /** A step id is its job path, a ".", and the step number in decimal. */
  lemma AbsoluteIdOfPath(parentId: string, jobId: string, i: nat)
    ensures AbsoluteId(parentId, jobId, i) == JobPath(parentId, jobId) + ['.'] + NatToString(i)
  {
  }

  /** The decimal text of a number has no ".". */
  lemma NoDotInNumber(i: nat)
    ensures '.' !in NatToString(i)
  {
    var digits := NatToString(i);
    forall m | 0 <= m < |digits| ensures digits[m] != '.' {
      assert IsDigit(digits[m]);
    }
  }

  /** Cutting `p.t` around the "." at |p| gives back p and t. */
  lemma SubstringsAroundDot(p: string, t: string)
    ensures Substring(p + ['.'] + t, |p| + 1, |p + ['.'] + t|) == t
    ensures Substring(p + ['.'] + t, 0, |p|) == p
  {
    var s := p + ['.'] + t;
    assert s[|p| + 1..] == t;
    assert s[..|p|] == p;
  }

  /**
   * `resolveInput` reads back the step id `run` builds: the current job id
   * is the job path and the current step number is the step's index.
   */
  lemma {:induction false} ResolveInputOfAbsoluteId(outputs: map<string, InvokeResult>, parentId: string, jobId: string,
                                                    i: nat, input: Record<Json>)
    ensures ResolveInput(outputs, AbsoluteId(parentId, jobId, i), input)
            == ResolveValue(outputs, JobPath(parentId, jobId), Some(i), Obj(input))
  {
    var path := JobPath(parentId, jobId);
    var digits := NatToString(i);
    AbsoluteIdOfPath(parentId, jobId, i);
    NoDotInNumber(i);
    LastIndexOfBefore(path, '.', digits);
    SubstringsAroundDot(path, digits);
    DigitsValueOfNatToString(i);
  }

  /**
   * A reference `$J.k.f`, with J made of dot-free pieces and k and f dot-free,
   * resolves to field f of the output of step `J.k` when the current job id
   * contains J and that field is truthy, and to the "Could not resolve"
   * error otherwise — whatever the step numbers are.
   */
  lemma {:induction false} ResolveReferenceOf(outputs: map<string, InvokeResult>, absCurJobId: string,
                                              curStepId: Option<nat>, jobParts: seq<string>, k: string, f: string)
    requires forall i :: 0 <= i < |jobParts| ==> '.' !in jobParts[i]
    requires '.' !in k && '.' !in f
    ensures var value := "$" + Join(jobParts + [k, f], '.');
      var absStepId := Join(jobParts, '.') + "." + k;
      StartsWith(value, "$") &&
      ResolveReference(outputs, absCurJobId, curStepId, value) ==
        if Includes(absCurJobId, Join(jobParts, '.')) && absStepId in outputs && Truthy(OutputField(outputs[absStepId], f))
        then Ok(OutputField(outputs[absStepId], f))
        else Err(CouldNotResolve(absCurJobId, curStepId))
  {
    var pieces := jobParts + [k, f];
    var value := "$" + Join(pieces, '.');
    assert value[..1] == "$";
    assert value[1..] == Join(pieces, '.');
    assert forall i :: 0 <= i < |pieces| ==> '.' !in pieces[i] by {
      forall i | 0 <= i < |pieces| ensures '.' !in pieces[i] {
        if i < |jobParts| { assert pieces[i] == jobParts[i]; }
      }
    }
    assert Split(value[1..], '.') == pieces by {
      SplitJoin(pieces, '.');
    }
    assert pieces[..|pieces| - 2] == jobParts;
    assert pieces[|pieces| - 2] == k && pieces[|pieces| - 1] == f;
  }

  /** The step-order test inside `resolveValue` never changes the outcome: the step number only shows in the message. */
  lemma {:induction false} ResolveIgnoresStepOrder(outputs: map<string, InvokeResult>, absCurJobId: string,
                                                   s1: Option<nat>, s2: Option<nat>, value: string)
    requires StartsWith(value, "$")
    ensures ResolveReference(outputs, absCurJobId, s1, value).Ok? == ResolveReference(outputs, absCurJobId, s2, value).Ok?
    ensures ResolveReference(outputs, absCurJobId, s1, value).Ok? ==>
      ResolveReference(outputs, absCurJobId, s1, value) == ResolveReference(outputs, absCurJobId, s2, value)
  {
  }

  /** A value with no `$` string anywhere and no repeated key in any object. */
  predicate Plain(v: Json)
    decreases v
  {
    match v
    case Str(s) => !StartsWith(s, "$")
    case Arr(items) => forall i :: 0 <= i < |items| ==> Plain(items[i])
    case Obj(fields) => DistinctKeys(fields) && forall i :: 0 <= i < |fields| ==> Plain(fields[i].1)
    case _ => true
  }

  /** `resolveValue` gives back a value without references unchanged. */
  lemma {:induction false} ResolvePlain(outputs: map<string, InvokeResult>, absCurJobId: string, curStepId: Option<nat>, v: Json)
    requires Plain(v)
    ensures ResolveValue(outputs, absCurJobId, curStepId, v) == Ok(v)
    decreases v, 1
  {
    match v
    case Arr(items) => ResolveItemsPlain(outputs, absCurJobId, curStepId, v, items);
    case Obj(fields) =>
      ResolveFieldsPlain(outputs, absCurJobId, curStepId, v, [], fields);
      assert [] + fields == fields;
    case _ =>
  }

  lemma {:induction false} ResolveItemsPlain(outputs: map<string, InvokeResult>, absCurJobId: string, curStepId: Option<nat>,
                                             parent: Json, items: seq<Json>)
    requires forall i :: 0 <= i < |items| ==> items[i] < parent && Plain(items[i])
    ensures ResolveItems(outputs, absCurJobId, curStepId, items) == Ok(items)
    decreases parent, 0, |items|
  {
    if items != [] {
      ResolvePlain(outputs, absCurJobId, curStepId, items[0]);
      ResolveItemsPlain(outputs, absCurJobId, curStepId, parent, items[1..]);
      assert [items[0]] + items[1..] == items;
    }
  }

  lemma {:induction false} ResolveFieldsPlain(outputs: map<string, InvokeResult>, absCurJobId: string, curStepId: Option<nat>,
                                              parent: Json, acc: Record<Json>, fields: seq<(string, Json)>)
    requires forall i :: 0 <= i < |fields| ==> fields[i].1 < parent && Plain(fields[i].1)
    requires DistinctKeys(acc + fields)
    ensures ResolveFields(outputs, absCurJobId, curStepId, parent, acc, fields) == Ok(acc + fields)
    decreases parent, 0, |fields|
  {
    if fields == [] {
      assert acc + fields == acc;
    } else {
      var all := acc + fields;
      ResolvePlain(outputs, absCurJobId, curStepId, fields[0].1);
      assert fields[0].0 !in Keys(acc) by {
        forall j | 0 <= j < |acc| ensures Keys(acc)[j] != fields[0].0 {
          assert all[j] == acc[j] && all[|acc|] == fields[0];
        }
      }
      PutFresh(acc, fields[0].0, fields[0].1);
      assert acc + [fields[0]] + fields[1..] == all;
      ResolveFieldsPlain(outputs, absCurJobId, curStepId, parent, acc + [fields[0]], fields[1..]);
    }
  }

  /** `AbsoluteId` tells the steps of one job apart. */
  lemma {:induction false} AbsoluteIdInjective(parentId: string, jobId: string, a: nat, b: nat)
    requires AbsoluteId(parentId, jobId, a) == AbsoluteId(parentId, jobId, b)
    ensures a == b
  {
    var path := JobPath(parentId, jobId);
    var x, y := AbsoluteId(parentId, jobId, a), AbsoluteId(parentId, jobId, b);
    assert x == path + "." + NatToString(a) && y == path + "." + NatToString(b);
    assert NatToString(a) == x[|path| + 1..] == y[|path| + 1..] == NatToString(b);
    DigitsValueOfNatToString(a);
    DigitsValueOfNatToString(b);
  }

  /** The ids of the steps from `i` on. */
  ghost function StepIds(parentId: string, jobId: string, steps: seq<Step>, i: nat): set<string>
  {
    set m | i <= m < |steps| :: AbsoluteId(parentId, jobId, m)
  }

  lemma StepIdsSplit(parentId: string, jobId: string, steps: seq<Step>, i: nat)
    requires i < |steps|
    ensures StepIds(parentId, jobId, steps, i) == StepIds(parentId, jobId, steps, i + 1) + {AbsoluteId(parentId, jobId, i)}
  {
  }

  /** A step of a run that ends without an error resolved its input and recorded the result under its id. */
  lemma StepsFromOk(outputs: map<string, InvokeResult>, parentId: string, jobId: string, steps: seq<Step>, i: nat,
                    client: (Step, Json) -> InvokeResult, id: string, input: Result<Json, string>)
    requires i < |steps| && id == AbsoluteId(parentId, jobId, i) && input == ResolveInput(outputs, id, steps[i].input)
    requires StepsFrom(outputs, parentId, jobId, steps, i, client).error.None?
    ensures input.Ok?
    ensures StepsFrom(outputs, parentId, jobId, steps, i, client)
            == StepsFrom(outputs[id := client(steps[i], input.value)], parentId, jobId, steps, i + 1, client)
  {
  }

  /** Recording step i's id and then the ids from i + 1 on records the ids from i on. */
  lemma StepIdsRecorded(outputs: map<string, InvokeResult>, parentId: string, jobId: string, steps: seq<Step>, i: nat,
                        result: InvokeResult)
    requires i < |steps|
    ensures outputs[AbsoluteId(parentId, jobId, i) := result].Keys + StepIds(parentId, jobId, steps, i + 1)
            == outputs.Keys + StepIds(parentId, jobId, steps, i)
  {
    StepIdsSplit(parentId, jobId, steps, i);
  }

  /** Running the steps from `i` on without an error records an output under the id of each of them. */
  lemma {:induction false} StepsFromRecords(outputs: map<string, InvokeResult>, parentId: string, jobId: string,
                                            steps: seq<Step>, i: nat, client: (Step, Json) -> InvokeResult)
    requires i <= |steps|
    requires StepsFrom(outputs, parentId, jobId, steps, i, client).error.None?
    ensures StepsFrom(outputs, parentId, jobId, steps, i, client).outputs.Keys
            == outputs.Keys + StepIds(parentId, jobId, steps, i)
    decreases |steps| - i
  {
    if i < |steps| {
      var id := AbsoluteId(parentId, jobId, i);
      var input := ResolveInput(outputs, id, steps[i].input);
      StepsFromOk(outputs, parentId, jobId, steps, i, client, id, input);
      var result := client(steps[i], input.value);
      StepsFromRecords(outputs[id := result], parentId, jobId, steps, i + 1, client);
      StepIdsRecorded(outputs, parentId, jobId, steps, i, result);
    }
  }

  /** Running the steps from `i` on leaves every entry that is not one of their ids as it was. */
  lemma {:induction false} StepsFromFrame(outputs: map<string, InvokeResult>, parentId: string, jobId: string,
                                          steps: seq<Step>, i: nat, client: (Step, Json) -> InvokeResult, key: string)
    requires i <= |steps|
    requires key in outputs && key !in StepIds(parentId, jobId, steps, i)
    ensures var r := StepsFrom(outputs, parentId, jobId, steps, i, client);
      key in r.outputs && r.outputs[key] == outputs[key]
    decreases |steps| - i
  {
    if i < |steps| {
      var id := AbsoluteId(parentId, jobId, i);
      var input := ResolveInput(outputs, id, steps[i].input);
      if input.Ok? {
        StepIdsSplit(parentId, jobId, steps, i);
        StepsFromFrame(outputs[id := client(steps[i], input.value)], parentId, jobId, steps, i + 1, client, key);
      }
    }
  }

  /** A run only adds outputs: every id recorded before is still recorded. */
  lemma {:induction false} RunJobKeepsOutputs(outputs: map<string, InvokeResult>, relativeId: string, parentId: string,
                                              jobs: seq<(string, Job)>, client: (Step, Json) -> InvokeResult)
    ensures outputs.Keys <= RunJob(outputs, relativeId, parentId, jobs, client).outputs.Keys
    decreases |relativeId|
  {
    if relativeId != "" {
      var index := JobIdEnd(relativeId);
      var jobId := relativeId[..index];
      if jobId != "" && Get(jobs, jobId).Some? {
        var job := Get(jobs, jobId).value;
        var s := if job.steps.Some? then StepsFrom(outputs, parentId, jobId, job.steps.value, 0, client)
                 else RunState(outputs, None);
        if job.steps.Some? {
          StepsFromKeepsKeys(outputs, parentId, jobId, job.steps.value, 0, client);
        }
        if s.error.None? && job.jobs.Some? {
          RunJobKeepsOutputs(s.outputs, Substring(relativeId, index + 1, |relativeId|), JobPath(parentId, jobId),
                             job.jobs.value, client);
        }
      }
    }
  }

  lemma {:induction false} StepsFromKeepsKeys(outputs: map<string, InvokeResult>, parentId: string, jobId: string,
                                              steps: seq<Step>, i: nat, client: (Step, Json) -> InvokeResult)
    requires i <= |steps|
    ensures outputs.Keys <= StepsFrom(outputs, parentId, jobId, steps, i, client).outputs.Keys
    decreases |steps| - i
  {
    if i < |steps| {
      var id := AbsoluteId(parentId, jobId, i);
      var input := ResolveInput(outputs, id, steps[i].input);
      if input.Ok? {
        StepsFromKeepsKeys(outputs[id := client(steps[i], input.value)], parentId, jobId, steps, i + 1, client);
      }
    }
  }

  class JobRunner {
    var jobOutput: map<string, InvokeResult>
    const client: (Step, Json) -> InvokeResult

    constructor(client: (Step, Json) -> InvokeResult)
      ensures jobOutput == map[] && this.client == client
    {
      jobOutput := map[];
      this.client := client;
    }

    method Run(relativeId: string, parentId: string, jobs: seq<(string, Job)>) returns (error: Option<RunError>)
      modifies this
      ensures RunState(jobOutput, error) == RunJob(old(jobOutput), relativeId, parentId, jobs, client)
      decreases |relativeId|
    {
      if relativeId == "" {
        return None;
      }
      var index := JobIdEnd(relativeId);
      var jobId := relativeId[..index];
      if jobId == "" {
        return None;
      }
      var job := Get(jobs, jobId);
      if job.None? {
        return Some(MissingJob(jobId));
      }
      var steps := job.value.steps;
      if steps.Some? {
        error := RunSteps(parentId, jobId, steps.value);
        if error.Some? {
          return;
        }
      }
      var subJobs := job.value.jobs;
      if subJobs.Some? {
        error := Run(Substring(relativeId, index + 1, |relativeId|),
                     if parentId != "" then parentId + "." + jobId else jobId, subJobs.value);
      } else {
        error := None;
      }
    }

    /** The `for` loop over a job's steps. */
    method RunSteps(parentId: string, jobId: string, steps: seq<Step>) returns (error: Option<RunError>)
      modifies this
      ensures RunState(jobOutput, error) == StepsFrom(old(jobOutput), parentId, jobId, steps, 0, client)
    {
      var i := 0;
      while i < |steps|
        invariant 0 <= i <= |steps|
        invariant StepsFrom(jobOutput, parentId, jobId, steps, i, client)
                  == StepsFrom(old(jobOutput), parentId, jobId, steps, 0, client)
      {
        var step := steps[i];
        var absoluteId := AbsoluteId(parentId, jobId, i);
        var input := ResolveInput(jobOutput, absoluteId, step.input);
        if input.Err? {
          return Some(Unresolved(input.error));
        }
        var result := client(step, input.value);
        jobOutput := jobOutput[absoluteId := result];
        i := i + 1;
      }
      return None;
    }
  }
}
