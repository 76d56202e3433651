/** Running actions (internal/server/execution.go): what one runAction does, step by step, and many of them
    at once beside the waiters of Operations and outside writers of the action cache. */
module Execution {
  import opened Digests
  import Cas
  import O = Operations
  import Vm = MicroVm

  /** The timeout, in nanoseconds, is optional. */
  datatype Action = Action(doNotCache: bool, commandDigest: Digest, inputRoot: Digest, timeout: Option<int>)

  const DEFAULT_TIMEOUT: int := 15 * 60 * Vm.SECOND

  function TimeoutOf(action: Action): int {
    if action.timeout.Some? then action.timeout.value else DEFAULT_TIMEOUT
  }

  datatype Request = Request(name: Text, actionDigest: Digest, skipCacheLookup: bool, action: Action) {
    predicate MayLookUp() { !skipCacheLookup && !action.doNotCache }
  }

  // ---- One runAction ----

  datatype Pc =
    | Entering
    | LookingUp
    | Fetching
    | Announcing
    | Running
    | Storing(ar: Cas.ActionResult)
    | Responding(response: O.Response)
    | Finished(response: O.Response)

  datatype CommandOutcome = CommandFound | CommandMissing | CommandMalformed

  /** What runAction learns from outside at a step. */
  datatype Input =
    | Go
    | Cached(found: Option<Cas.ActionResult>)
    | Command(outcome: CommandOutcome)
    | Ran(calls: seq<Vm.Call>, result: Vm.Result<Cas.ActionResult>, canceled: bool)
    | Stored(ok: bool)

  /** What a step does to the outside. */
  datatype Effect =
    | Publish(stage: O.Stage, response: Option<O.Response>)
    | Called(calls: seq<Vm.Call>)
    | Wrote(ar: Cas.ActionResult)

  function Succeeded(ar: Cas.ActionResult, cached: bool): O.Response {
    O.Response(Some(ar), cached, O.OK)
  }

  function FailedWith(code: O.Code): O.Response {
    O.Response(None, false, code)
  }

  /** Where runAction goes once the MicroVM run is over. */
  function Concluding(req: Request, result: Vm.Result<Cas.ActionResult>): Pc {
    match result
    case Err(e) => Responding(FailedWith(if Vm.IsCanceled(e) then O.Canceled else O.Internal))
    case Ok(ar) =>
      if !req.action.doNotCache && ar.exitCode == 0 then Storing(ar) else Responding(Succeeded(ar, false))
  }

  /** One step of runAction; None if the input does not fit. */
  function Advance(req: Request, pc: Pc, input: Input): Option<(Pc, Option<Effect>)> {
    match (pc, input)
    case (Entering, Go) =>
      Some((if req.MayLookUp() then LookingUp else Fetching, Some(Publish(O.CacheCheck, None))))
    case (LookingUp, Cached(found)) =>
      Some((if found.Some? then Responding(Succeeded(found.value, true)) else Fetching, None))
    case (Fetching, Command(outcome)) =>
      Some((match outcome
            case CommandFound => Announcing
            case CommandMissing => Responding(FailedWith(O.FailedPrecondition))
            case CommandMalformed => Responding(FailedWith(O.Internal)), None))
    case (Announcing, Go) => Some((Running, Some(Publish(O.Executing, None))))
    case (Running, Ran(calls, result, _)) =>
      Some((Concluding(req, result), Some(Called(calls))))
    case (Storing(ar), Stored(ok)) =>
      Some((Responding(Succeeded(ar, false)), if ok then Some(Wrote(ar)) else None))
    case (Responding(response), Go) => Some((Finished(response), Some(Publish(O.Completed, Some(response)))))
    case _ => None
  }

  function Plus(trace: seq<Effect>, effect: Option<Effect>): seq<Effect> {
    match effect
    case None => trace
    case Some(e) => trace + [e]
  }

  // ---- The traces of runAction ----

  const CHECKING := Publish(O.CacheCheck, None)
  const EXECUTING := Publish(O.Executing, None)

  /** What had happened when runAction settled on its response: a cache hit or a missing Command; or one
      finished MicroVM run; or that and a write of its successful result to the cache. */
  predicate Settled(req: Request, trace: seq<Effect>, response: O.Response, limit: nat) {
    || (&& trace == [CHECKING] && response.cachedResult
        && response.result.Some? && response.code == O.OK && req.MayLookUp())
    || (trace == [CHECKING] && response in {FailedWith(O.FailedPrecondition), FailedWith(O.Internal)})
    || (&& |trace| >= 3 && trace[..2] == [CHECKING, EXECUTING]
        && trace[2].Called? && Vm.Lifecycle(trace[2].calls, limit)
        && !response.cachedResult
        && match response.result
           case None => |trace| == 3 && response.code in {O.Canceled, O.Internal}
           case Some(ar) =>
             && response.code == O.OK
             && (|trace| == 3 ||
                 (|trace| == 4 && trace[3] == Wrote(ar) && !req.action.doNotCache && ar.exitCode == 0)))
  }

  predicate Shape(req: Request, pc: Pc, trace: seq<Effect>, limit: nat) {
    match pc
    case Entering => trace == []
    case LookingUp => trace == [CHECKING] && req.MayLookUp()
    case Fetching => trace == [CHECKING]
    case Announcing => trace == [CHECKING]
    case Running => trace == [CHECKING, EXECUTING]
    case Storing(ar) =>
      && |trace| == 3 && trace[..2] == [CHECKING, EXECUTING]
      && trace[2].Called? && Vm.Lifecycle(trace[2].calls, limit)
      && !req.action.doNotCache && ar.exitCode == 0
    case Responding(response) => Settled(req, trace, response, limit)
    case Finished(response) =>
      && trace != []
      && Settled(req, trace[..|trace| - 1], response, limit)
      && trace[|trace| - 1] == Publish(O.Completed, Some(response))
  }

  /** A MicroVM run is reported once it is over, and then as its last call went; it did try to launch, because
      the Command marshals.  `canceled` says whether its context was cancelled by then, and only then can its
      error be that. */
  predicate Acceptable(input: Input, limit: nat) {
    Whole(input, limit) && (input.Ran? ==> Justified(input.calls, input.result, input.canceled) == true)
  }

  predicate Justified(calls: seq<Vm.Call>, result: Vm.Result<Cas.ActionResult>, canceled: bool) {
    calls != [] && Vm.Reports(calls, result) && Vm.CanceledOnlyIf(result, canceled)
  }

  predicate Whole(input: Input, limit: nat) {
    input.Ran? ==> Vm.Lifecycle(input.calls, limit)
  }

  lemma AdvanceKeepsShape(req: Request, pc: Pc, trace: seq<Effect>, input: Input, limit: nat)
    requires Shape(req, pc, trace, limit) && Whole(input, limit) && Advance(req, pc, input).Some?
    ensures var (next, effect) := Advance(req, pc, input).value; Shape(req, next, Plus(trace, effect), limit)
  {
    var (next, effect) := Advance(req, pc, input).value;
    var longer := Plus(trace, effect);
    if pc.Responding? {
      assert longer[..|longer| - 1] == trace;
    } else if pc.Running? {
      assert longer[..2] == trace;
    } else if pc.Storing? && effect.Some? {
      assert longer[..2] == trace[..2];
    }
  }

  /** All inputs of a runAction in turn. */
  function RunFrom(req: Request, pc: Pc, trace: seq<Effect>, inputs: seq<Input>): Option<(Pc, seq<Effect>)>
    decreases |inputs|
  {
    if inputs == [] then Some((pc, trace))
    else match Advance(req, pc, inputs[0])
      case None => None
      case Some((next, effect)) => RunFrom(req, next, Plus(trace, effect), inputs[1..])
  }

  lemma {:induction false} RunFromSnoc(req: Request, pc: Pc, trace: seq<Effect>, inputs: seq<Input>, last: Input)
    requires RunFrom(req, pc, trace, inputs).Some?
    ensures var (mid, soFar) := RunFrom(req, pc, trace, inputs).value;
      RunFrom(req, pc, trace, inputs + [last]) ==
        match Advance(req, mid, last) case None => None case Some((next, effect)) => Some((next, Plus(soFar, effect)))
    decreases |inputs|
  {
    if inputs == [] {
      assert inputs + [last] == [last] && [last][1..] == [];
    } else {
      assert (inputs + [last])[1..] == inputs[1..] + [last] && (inputs + [last])[0] == inputs[0];
      var (next, effect) := Advance(req, pc, inputs[0]).value;
      RunFromSnoc(req, next, Plus(trace, effect), inputs[1..], last);
    }
  }

  /** Every step leads closer to the end: no runAction takes more than seven. */
  function StepsLeft(pc: Pc): nat {
    match pc
    case Entering => 7
    case LookingUp => 6
    case Fetching => 5
    case Announcing => 4
    case Running => 3
    case Storing(_) => 2
    case Responding(_) => 1
    case Finished(_) => 0
  }

  lemma {:induction false} RunEnds(req: Request, pc: Pc, trace: seq<Effect>, inputs: seq<Input>)
    requires RunFrom(req, pc, trace, inputs).Some?
    ensures |inputs| + StepsLeft(RunFrom(req, pc, trace, inputs).value.0) <= StepsLeft(pc)
    decreases |inputs|
  {
    if inputs != [] {
      var (next, effect) := Advance(req, pc, inputs[0]).value;
      RunEnds(req, next, Plus(trace, effect), inputs[1..]);
    }
  }

  // ---- What a trace says of the entry, the cache and the cloud ----

  function PublishesIn(trace: seq<Effect>): seq<Effect> {
    if trace == [] then []
    else PublishesIn(trace[..|trace| - 1]) + (if trace[|trace| - 1].Publish? then [trace[|trace| - 1]] else [])
  }

  function CallsIn(trace: seq<Effect>): seq<Vm.Call> {
    if trace == [] then []
    else CallsIn(trace[..|trace| - 1]) + (if trace[|trace| - 1].Called? then trace[|trace| - 1].calls else [])
  }

  function CacheAfter(cache: map<Text, Cas.ActionResult>, hash: Text, trace: seq<Effect>): map<Text, Cas.ActionResult> {
    if trace == [] then cache
    else
      var before := CacheAfter(cache, hash, trace[..|trace| - 1]);
      match trace[|trace| - 1]
      case Wrote(ar) => before[hash := ar]
      case _ => before
  }

  lemma OneMoreEffect(cache: map<Text, Cas.ActionResult>, hash: Text, trace: seq<Effect>, e: Effect)
    ensures PublishesIn(trace + [e]) == PublishesIn(trace) + (if e.Publish? then [e] else [])
    ensures CallsIn(trace + [e]) == CallsIn(trace) + (if e.Called? then e.calls else [])
    ensures CacheAfter(cache, hash, trace + [e]) ==
      if e.Wrote? then CacheAfter(cache, hash, trace)[hash := e.ar] else CacheAfter(cache, hash, trace)
  {
    assert (trace + [e])[..|trace|] == trace;
  }

  /** The updates of an entry, without their identities. */
  function Labels(log: seq<O.Operation>): seq<Effect> {
    if log == [] then []
    else Labels(log[..|log| - 1]) + [Publish(log[|log| - 1].stage, log[|log| - 1].response)]
  }

  lemma OneMoreLabel(log: seq<O.Operation>, op: O.Operation)
    ensures Labels(log + [op]) == Labels(log) + [Publish(op.stage, op.response)]
  {
    assert (log + [op])[..|log|] == log;
  }

  // ---- runAction on the real objects ----

  /** The outside as far as runAction touches it. */
  datatype Outside = Outside(labels: seq<Effect>, cache: map<Text, Cas.ActionResult>, calls: seq<Vm.Call>)

  function Touched(o: Outside, hash: Text, effect: Option<Effect>): Outside {
    match effect
    case None => o
    case Some(Publish(stage, response)) => o.(labels := o.labels + [Publish(stage, response)])
    case Some(Called(calls)) => o.(calls := o.calls + calls)
    case Some(Wrote(ar)) => o.(cache := o.cache[hash := ar])
  }

  /** The record of a run in progress: the inputs so far, where they led and what they did. */
  datatype Record = Record(inputs: seq<Input>, pc: Pc, trace: seq<Effect>)

  /** The record is one of Advance's runs, and the outside is what its effects made of `start`. */
  ghost predicate Faithful(req: Request, record: Record, start: Outside, now: Outside, limit: nat) {
    && RunFrom(req, Entering, [], record.inputs) == Some((record.pc, record.trace))
    && (forall i :: 0 <= i < |record.inputs| ==> Acceptable(record.inputs[i], limit))
    && now == Outcome(start, req.actionDigest.hash, record.trace)
  }

  lemma Begin(req: Request, start: Outside, limit: nat)
    ensures Faithful(req, Record([], Entering, []), start, start, limit)
  {
    assert start.labels + [] == start.labels && start.calls + [] == start.calls;
  }

  /** What the effects of a trace make of the outside. */
  function Outcome(start: Outside, hash: Text, trace: seq<Effect>): Outside {
    Outside(start.labels + PublishesIn(trace), CacheAfter(start.cache, hash, trace), start.calls + CallsIn(trace))
  }

  lemma OneMoreOutcome(start: Outside, hash: Text, trace: seq<Effect>, effect: Option<Effect>)
    ensures Outcome(start, hash, Plus(trace, effect)) == Touched(Outcome(start, hash, trace), hash, effect)
  {
    if effect.Some? {
      var e := effect.value;
      OneMoreEffect(start.cache, hash, trace, e);
      assert start.labels + (PublishesIn(trace) + [e]) == start.labels + PublishesIn(trace) + [e];
      assert PublishesIn(trace) + [] == PublishesIn(trace) && CallsIn(trace) + [] == CallsIn(trace);
      if e.Called? {
        assert start.calls + (CallsIn(trace) + e.calls) == start.calls + CallsIn(trace) + e.calls;
      }
    }
  }

  /** The next step of the run, with its effect carried out, keeps the record faithful. */
  lemma Step(req: Request, record: Record, input: Input, start: Outside, before: Outside,
      limit: nat) returns (next: Record)
    requires Faithful(req, record, start, before, limit)
    requires Advance(req, record.pc, input).Some? && Acceptable(input, limit)
    ensures next.pc == Advance(req, record.pc, input).value.0 && next.inputs == record.inputs + [input]
    ensures Faithful(req, next, start, Touched(before, req.actionDigest.hash, Advance(req, record.pc, input).value.1),
        limit)
  {
    RunFromSnoc(req, Entering, [], record.inputs, input);
    var (pc, effect) := Advance(req, record.pc, input).value;
    next := Record(record.inputs + [input], pc, Plus(record.trace, effect));
    OneMoreOutcome(start, req.actionDigest.hash, record.trace, effect);
  }

  /** What the fetch of the Command finds. */
  function CommandAt(blobs: Cas.Blobs, req: Request, parse: Bytes -> Option<Bytes>): CommandOutcome {
    match Cas.Lookup(blobs, req.action.commandDigest)
    case None => CommandMissing
    case Some(data) => if parse(data).Some? then CommandFound else CommandMalformed
  }

  /** The task of a request: its Command, its input root, and its timeout or a quarter of an hour. */
  predicate IsTaskOf(task: Vm.Task, blobs: Cas.Blobs, req: Request, parse: Bytes -> Option<Bytes>) {
    && Cas.Lookup(blobs, req.action.commandDigest).Some?
    && Some(task.command) == parse(Cas.Lookup(blobs, req.action.commandDigest).value)
    && task.inputRoot == req.action.inputRoot
    && match req.action.timeout
       case None => task.seconds == 900
       case Some(t) => task.seconds == if t >= 0 then t / 1_000_000_000 else -(-t / 1_000_000_000)
  }

  /** Everything dispatched since is the task of the request. */
  predicate OnlyItsTask(calls: seq<Vm.Call>, since: nat, blobs: Cas.Blobs, req: Request,
      parse: Bytes -> Option<Bytes>)
  {
    forall i :: since <= i < |calls| && calls[i].Dispatch? ==> IsTaskOf(calls[i].task, blobs, req, parse)
  }

  /** A clean success of an action that may be cached is written to the cache, if the store takes it, and nothing
      else is. */
  predicate Written(req: Request, response: O.Response, reliable: bool, before: map<Text, Cas.ActionResult>,
      after: map<Text, Cas.ActionResult>)
  {
    match response.result
    case None => after == before
    case Some(ar) =>
      if ar.exitCode != 0 || req.action.doNotCache || !Cas.CleanResult(ar) then after == before
      else after == before[req.actionDigest.hash := ar] || (!reliable && after == before)
  }

  lemma OnlyItsTaskSince(before: seq<Vm.Call>, made: seq<Vm.Call>, blobs: Cas.Blobs, req: Request,
      parse: Bytes -> Option<Bytes>)
    requires OnlyItsTask(before + made, |before|, blobs, req, parse)
    ensures OnlyItsTask(made, 0, blobs, req, parse)
  {
    forall i | 0 <= i < |made| && made[i].Dispatch? ensures IsTaskOf(made[i].task, blobs, req, parse) {
      assert (before + made)[|before| + i] == made[i];
    }
  }

  /** The answer is from the cache exactly if the request may look there and the action is there and can be read;
      otherwise the Command is what was learned, and the cache gains at most the answer. */
  predicate Answered(req: Request, inputs: seq<Input>, response: O.Response, outcome: CommandOutcome, reliable: bool,
      before: map<Text, Cas.ActionResult>, after: map<Text, Cas.ActionResult>)
  {
    && (response.cachedResult ==>
          && req.actionDigest.hash in before && after == before
          && response.result == Some(before[req.actionDigest.hash]))
    && (reliable && BeforeCommand(req) == 2 && req.actionDigest.hash in before ==> response.cachedResult)
    && (!response.cachedResult ==> Learned(req, inputs, outcome) && Written(req, response, reliable, before, after))
  }

  lemma RunsItsTask(before: seq<Vm.Call>, made: seq<Vm.Call>, blobs: Cas.Blobs, req: Request,
      parse: Bytes -> Option<Bytes>, data: Bytes)
    requires Cas.Lookup(blobs, req.action.commandDigest) == Some(data) && parse(data).Some?
    requires Vm.OnlyTask(made,
      Vm.Task(parse(data).value, req.action.inputRoot, Vm.TruncatedSeconds(TimeoutOf(req.action))))
    ensures OnlyItsTask(before + made, |before|, blobs, req, parse)
  {
  }

  /** The log goes on from `before` with messages about this request. */
  predicate GoesOn(before: seq<O.Operation>, log: seq<O.Operation>, req: Request) {
    && before <= log
    && forall i :: |before| <= i < |log| ==> log[i].name == req.name && log[i].action == req.actionDigest
  }

  lemma GoesOnTwice(a: seq<O.Operation>, b: seq<O.Operation>, c: seq<O.Operation>, req: Request)
    requires GoesOn(a, b, req) && GoesOn(b, c, req)
    ensures GoesOn(a, c, req)
  {
  }

  /** The three things runAction touches. */
  class ActionServer {
    const store: Cas.Store
    const world: Vm.World
    const entry: O.OpEntry

    constructor (store: Cas.Store, world: Vm.World, entry: O.OpEntry)
      ensures this.store == store && this.world == world && this.entry == entry
    {
      this.store, this.world, this.entry := store, world, entry;
    }

    ghost function Now(): Outside
      reads entry, store, world
    {
      Outside(Labels(entry.log), store.action, world.calls)
    }

    ghost predicate Ready()
      reads entry, entry.changed, entry.history
    {
      entry.Valid() && !entry.done
    }

    /** entry.publish(s.operation(...)); `made` numbers the messages. */
    method Update(made: nat, req: Request, stage: O.Stage, response: Option<O.Response>)
      requires Ready()
      modifies entry, entry.changed
      ensures entry.Valid() && fresh(entry.changed) && (entry.done <==> response.Some?)
      ensures Now() == old(Now()).(labels := old(Now()).labels + [Publish(stage, response)])
      ensures GoesOn(old(entry.log), entry.log, req)
    {
      var op := O.Operation(made, req.name, req.actionDigest, stage, response);
      OneMoreLabel(entry.log, op);
      assert entry.View().log == entry.log;
      entry.Publish(op);
      assert entry.log == entry.View().log;
    }

    /** The last update, and the return. */
    method Respond(made: nat, req: Request, response: O.Response, ghost record: Record, ghost start: Outside,
        ghost limit: nat)
      returns (ghost final: Record)
      requires Ready() && Faithful(req, record, start, Now(), limit) && record.pc == Responding(response)
      modifies entry, entry.changed
      ensures entry.Valid() && entry.done && GoesOn(old(entry.log), entry.log, req)
      ensures Faithful(req, final, start, Now(), limit) && final.pc == Finished(response)
      ensures record.inputs <= final.inputs
    {
      final := Step(req, record, Go, start, Now(), limit);
      Update(made, req, O.Completed, Some(response));
    }

    /** s.exec.Run(ctx, command, action.GetInputRootDigest(), timeout). */
    method RunVm(req: Request, data: Bytes, parse: Bytes -> Option<Bytes>, timeout: int, ghost record: Record,
        ghost start: Outside)
      returns (result: Vm.Result<Cas.ActionResult>, ghost next: Record)
      requires Faithful(req, record, start, Now(), Vm.PollLimit(timeout)) && record.pc == Running
      requires Cas.Lookup(store.blobs, req.action.commandDigest) == Some(data) && parse(data).Some?
      modifies world
      ensures Faithful(req, next, start, Now(), Vm.PollLimit(timeout)) && next.pc == Concluding(req, result)
      ensures record.inputs <= next.inputs && Vm.CanceledOnlyIf(result, world.canceled)
      ensures OnlyItsTask(world.calls, |old(world.calls)|, store.blobs, req, parse)
    {
      ghost var calls;
      result, calls := Vm.Run(world, parse(data), req.action.inputRoot, TimeoutOf(req.action), timeout);
      RunsItsTask(old(world.calls), calls, store.blobs, req, parse, data);
      ghost var before := Outside(Labels(entry.log), store.action, old(world.calls));
      next := Step(req, record, Ran(calls, result, world.canceled), start, before, Vm.PollLimit(timeout));
    }

    /** From the EXECUTING update to the last one. */
    method ExecuteCommand(made: nat, req: Request, data: Bytes, parse: Bytes -> Option<Bytes>, timeout: int,
        ghost record: Record, ghost start: Outside)
      returns (ghost final: Record)
      requires Ready() && Faithful(req, record, start, Now(), Vm.PollLimit(timeout)) && record.pc == Announcing
      requires Cas.Lookup(store.blobs, req.action.commandDigest) == Some(data) && parse(data).Some?
      modifies entry, entry.changed, store`action, world
      ensures entry.Valid() && entry.done && GoesOn(old(entry.log), entry.log, req)
      ensures Faithful(req, final, start, Now(), Vm.PollLimit(timeout)) && final.pc.Finished?
      ensures record.inputs <= final.inputs && !final.pc.response.cachedResult
      ensures final.pc.response.code == O.Canceled ==> world.canceled
      ensures OnlyItsTask(world.calls, |old(world.calls)|, store.blobs, req, parse)
      ensures Written(req, final.pc.response, store.reliable, old(store.action), store.action)
    {
      ghost var r := Step(req, record, Go, start, Now(), Vm.PollLimit(timeout));
      Update(made, req, O.Executing, None);
      ghost var log := entry.log;
      final := RunAndConclude(made + 1, req, data, parse, timeout, r, start);
      GoesOnTwice(old(entry.log), log, entry.log, req);
    }

    /** The MicroVM run, and what comes of it. */
    method RunAndConclude(made: nat, req: Request, data: Bytes, parse: Bytes -> Option<Bytes>, timeout: int,
        ghost record: Record, ghost start: Outside)
      returns (ghost final: Record)
      requires Ready() && Faithful(req, record, start, Now(), Vm.PollLimit(timeout)) && record.pc == Running
      requires Cas.Lookup(store.blobs, req.action.commandDigest) == Some(data) && parse(data).Some?
      modifies entry, entry.changed, store`action, world
      ensures entry.Valid() && entry.done && GoesOn(old(entry.log), entry.log, req)
      ensures Faithful(req, final, start, Now(), Vm.PollLimit(timeout)) && final.pc.Finished?
      ensures record.inputs <= final.inputs && !final.pc.response.cachedResult
      ensures final.pc.response.code == O.Canceled ==> world.canceled
      ensures OnlyItsTask(world.calls, |old(world.calls)|, store.blobs, req, parse)
      ensures Written(req, final.pc.response, store.reliable, old(store.action), store.action)
    {
      var result;
      ghost var r;
      result, r := RunVm(req, data, parse, timeout, record, start);
      final := Conclude(made, req, result, r, start, Vm.PollLimit(timeout));
    }

    /** What runAction does with what the MicroVM gave. */
    method Conclude(made: nat, req: Request, result: Vm.Result<Cas.ActionResult>, ghost record: Record,
        ghost start: Outside, ghost limit: nat)
      returns (ghost final: Record)
      requires Ready() && Faithful(req, record, start, Now(), limit) && record.pc == Concluding(req, result)
      modifies entry, entry.changed, store`action
      ensures entry.Valid() && entry.done && GoesOn(old(entry.log), entry.log, req)
      ensures Faithful(req, final, start, Now(), limit) && final.pc.Finished?
      ensures record.inputs <= final.inputs
      ensures final.pc.response ==
        match result
        case Err(e) => O.Response(None, false, if Vm.IsCanceled(e) then O.Canceled else O.Internal)
        case Ok(ar) => O.Response(Some(ar), false, O.OK)
      ensures Written(req, final.pc.response, store.reliable, old(store.action), store.action)
    {
      ghost var r := record;
      if result.Err? {
        var code := if Vm.IsCanceled(result.error) then O.Canceled else O.Internal;
        final := Respond(made, req, FailedWith(code), r, start, limit);
        return;
      }
      final := Succeed(made, req, result.value, r, start, limit);
    }

    /** The result goes to the cache, if it may, and to the client. */
    method Succeed(made: nat, req: Request, ar: Cas.ActionResult, ghost record: Record, ghost start: Outside,
        ghost limit: nat)
      returns (ghost final: Record)
      requires Ready() && Faithful(req, record, start, Now(), limit) && record.pc == Concluding(req, Ok(ar))
      modifies entry, entry.changed, store`action
      ensures entry.Valid() && entry.done && GoesOn(old(entry.log), entry.log, req)
      ensures Faithful(req, final, start, Now(), limit) && final.pc.Finished? && record.inputs <= final.inputs
      ensures final.pc.response == O.Response(Some(ar), false, O.OK)
      ensures Written(req, final.pc.response, store.reliable, old(store.action), store.action)
    {
      ghost var r := record;
      if !req.action.doNotCache && ar.exitCode == 0 {
        ghost var before := Now();
        var ok := store.PutActionResult(req.actionDigest, ar);
        r := Step(req, r, Stored(ok), start, before, limit);
      }
      final := Respond(made, req, Succeeded(ar, false), r, start, limit);
    }

    /** From the fetch of the Command on. */
    method FetchCommand(made: nat, req: Request, parse: Bytes -> Option<Bytes>, timeout: int, ghost record: Record,
        ghost start: Outside)
      returns (ghost final: Record)
      requires Ready() && Faithful(req, record, start, Now(), Vm.PollLimit(timeout)) && record.pc == Fetching
      modifies entry, entry.changed, store`action, world
      ensures entry.Valid() && entry.done && GoesOn(old(entry.log), entry.log, req)
      ensures Faithful(req, final, start, Now(), Vm.PollLimit(timeout)) && final.pc.Finished?
      ensures record.inputs + [Command(CommandAt(store.blobs, req, parse))] <= final.inputs
      ensures !final.pc.response.cachedResult
      ensures final.pc.response.code == O.Canceled ==> world.canceled
      ensures CommandAt(store.blobs, req, parse).CommandMissing? ==>
        final.pc.response == O.Response(None, false, O.FailedPrecondition)
      ensures CommandAt(store.blobs, req, parse).CommandMalformed? ==>
        final.pc.response == O.Response(None, false, O.Internal)
      ensures !CommandAt(store.blobs, req, parse).CommandFound? ==> world.calls == old(world.calls)
      ensures OnlyItsTask(world.calls, |old(world.calls)|, store.blobs, req, parse)
      ensures Written(req, final.pc.response, store.reliable, old(store.action), store.action)
    {
      ghost var limit, r := Vm.PollLimit(timeout), record;
      var data := store.Get(req.action.commandDigest);
      var outcome :=
        if data.None? then CommandMissing
        else if parse(data.value).Some? then CommandFound
        else CommandMalformed;
      r := Step(req, r, Command(outcome), start, Now(), limit);
      match outcome {
        case CommandMissing => final := Respond(made, req, FailedWith(O.FailedPrecondition), r, start, limit);
        case CommandMalformed => final := Respond(made, req, FailedWith(O.Internal), r, start, limit);
        case CommandFound => final := ExecuteCommand(made, req, data.value, parse, timeout, r, start);
      }
    }

    /** The cache check, and the rest if it misses. */
    method CheckCache(made: nat, req: Request, parse: Bytes -> Option<Bytes>, timeout: int, ghost record: Record,
        ghost start: Outside)
      returns (ghost final: Record)
      requires Ready() && Faithful(req, record, start, Now(), Vm.PollLimit(timeout))
      requires record.pc == (if req.MayLookUp() then LookingUp else Fetching) && record.inputs == [Go]
      modifies entry, entry.changed, store`action, world
      ensures entry.Valid() && entry.done && GoesOn(old(entry.log), entry.log, req)
      ensures Faithful(req, final, start, Now(), Vm.PollLimit(timeout)) && final.pc.Finished?
      ensures Answered(req, final.inputs, final.pc.response, CommandAt(store.blobs, req, parse), store.reliable,
        old(store.action), store.action) == true
      ensures OnlyItsTask(world.calls, |old(world.calls)|, store.blobs, req, parse)
      ensures final.pc.response.code == O.Canceled ==> world.canceled
    {
      ghost var limit, r := Vm.PollLimit(timeout), record;
      if !req.skipCacheLookup && !req.action.doNotCache {
        var found := store.GetActionResult(req.actionDigest);
        r := Step(req, r, Cached(found), start, Now(), limit);
        if found.Some? {
          final := Respond(made, req, Succeeded(found.value, true), r, start, limit);
          return;
        }
      }
      final := FetchCommand(made, req, parse, timeout, r, start);
    }

    /** The first update, and what follows. */
    method TakeSteps(made: nat, req: Request, parse: Bytes -> Option<Bytes>, timeout: int)
      returns (ghost final: Record)
      requires Ready()
      modifies entry, entry.changed, store`action, world
      ensures entry.Valid() && entry.done && GoesOn(old(entry.log), entry.log, req)
      ensures Faithful(req, final, old(Now()), Now(), Vm.PollLimit(timeout)) && final.pc.Finished?
      ensures Answered(req, final.inputs, final.pc.response, CommandAt(store.blobs, req, parse), store.reliable,
        old(store.action), store.action) == true
      ensures OnlyItsTask(world.calls, |old(world.calls)|, store.blobs, req, parse)
      ensures final.pc.response.code == O.Canceled ==> world.canceled
    {
      ghost var limit, start, r := Vm.PollLimit(timeout), Now(), Record([], Entering, []);
      Begin(req, start, limit);
      r := Step(req, r, Go, start, Now(), limit);
      Update(made, req, O.CacheCheck, None);
      ghost var log := entry.log;
      final := CheckCache(made + 1, req, parse, timeout, r, start);
      GoesOnTwice(old(entry.log), log, entry.log, req);
    }

    /** runAction.  What it learned, published, called and answered is as Told says; the Command is the one its
        digest leads to, what is dispatched is the task of the request, and every message is about it. */
    method RunAction(made: nat, req: Request, parse: Bytes -> Option<Bytes>, timeout: int)
      returns (ghost final: Record, ghost labels: seq<Effect>, ghost calls: seq<Vm.Call>)
      requires Ready()
      modifies entry, entry.changed, store`action, world
      ensures entry.Valid() && entry.done && GoesOn(old(entry.log), entry.log, req)
      ensures Faithful(req, final, old(Now()), Now(), Vm.PollLimit(timeout)) && final.pc.Finished?
      ensures Now().labels == old(Now()).labels + labels && Now().calls == old(Now()).calls + calls
      ensures Told(req, final.inputs, final.pc.response, labels, calls, Vm.PollLimit(timeout))
      ensures Answered(req, final.inputs, final.pc.response, CommandAt(store.blobs, req, parse), store.reliable,
        old(store.action), store.action) == true
      ensures OnlyItsTask(world.calls, |old(world.calls)|, store.blobs, req, parse)
      ensures final.pc.response.code == O.Canceled ==> world.canceled
    {
      ghost var start := Now();
      final := TakeSteps(made, req, parse, timeout);
      labels, calls := Tell(req, final, start, Now(), Vm.PollLimit(timeout));
    }
  }

  // ---- A finished run, without its steps ----

  /** How many inputs come before the Command: the first, and the cache's answer if it is asked. */
  function BeforeCommand(req: Request): nat {
    if req.skipCacheLookup || req.action.doNotCache then 1 else 2
  }

  predicate Learned(req: Request, inputs: seq<Input>, outcome: CommandOutcome) {
    BeforeCommand(req) < |inputs| && inputs[BeforeCommand(req)] == Command(outcome)
  }

  /** What a finished run learned, published, called and answered.  A hit in the cache, if it may look, is the
      answer.  Otherwise the Command decides: if it is missing or malformed nothing is called, and if it is there
      the run says so, and answers what one MicroVM run reported. */
  predicate Told(req: Request, inputs: seq<Input>, response: O.Response, labels: seq<Effect>, calls: seq<Vm.Call>,
      limit: nat)
  {
    var k, last := BeforeCommand(req), Publish(O.Completed, Some(response));
    && |inputs| > k && inputs[0] == Go && (k == 2 ==> inputs[1].Cached?)
    && if k == 2 && inputs[1].found.Some? then
         && response == O.Response(inputs[1].found, true, O.OK)
         && labels == [Publish(O.CacheCheck, None), last] && calls == []
       else
         match inputs[k]
         case Command(CommandFound) =>
           && |inputs| > k + 2 && inputs[k + 2].Ran?
           && labels == [Publish(O.CacheCheck, None), Publish(O.Executing, None), last]
           && calls == inputs[k + 2].calls && ReportedRun(calls, limit) && Vm.Reports(calls, inputs[k + 2].result)
           && response == ResponseTo(inputs[k + 2].result)
         case Command(outcome) =>
           && response == O.Response(None, false, if outcome.CommandMissing? then O.FailedPrecondition else O.Internal)
           && labels == [Publish(O.CacheCheck, None), last] && calls == []
         case _ => false
  }

  /** One whole MicroVM run, which at least tried to launch. */
  predicate ReportedRun(calls: seq<Vm.Call>, limit: nat) {
    calls != [] && Vm.Lifecycle(calls, limit) && Vm.OneMachine(calls)
  }

  /** The agent's own result, or Canceled for an error that wraps context.Canceled, or Internal. */
  function ResponseTo(result: Vm.Result<Cas.ActionResult>): O.Response {
    match result
    case Ok(ar) => O.Response(Some(ar), false, O.OK)
    case Err(ContextDone) => O.Response(None, false, O.Canceled)
    case Err(NotLaunched(true)) => O.Response(None, false, O.Canceled)
    case Err(GetFailed(true)) => O.Response(None, false, O.Canceled)
    case Err(TokenFailed(true)) => O.Response(None, false, O.Canceled)
    case Err(AgentFailed(true)) => O.Response(None, false, O.Canceled)
    case Err(_) => O.Response(None, false, O.Internal)
  }

  /** The trace behind Told. */
  predicate TracedAs(req: Request, inputs: seq<Input>, response: O.Response, trace: seq<Effect>) {
    var k, last := BeforeCommand(req), Publish(O.Completed, Some(response));
    && |inputs| > k && inputs[0] == Go && (k == 2 ==> inputs[1].Cached?)
    && if k == 2 && inputs[1].found.Some? then
         response == O.Response(inputs[1].found, true, O.OK) && trace == [CHECKING, last]
       else
         match inputs[k]
         case Command(CommandFound) =>
           && |inputs| > k + 2 && inputs[k + 2].Ran? && response == ResponseTo(inputs[k + 2].result)
           && |trace| >= 4 && trace[..3] == [CHECKING, EXECUTING, Called(inputs[k + 2].calls)]
           && Closes(trace[3..], response)
         case Command(outcome) =>
           && response == O.Response(None, false, if outcome.CommandMissing? then O.FailedPrecondition else O.Internal)
           && trace == [CHECKING, last]
         case _ => false
  }

  /** The end of a run that executed something: perhaps a write to the cache, and the last update. */
  predicate Closes(tail: seq<Effect>, response: O.Response) {
    var last := Publish(O.Completed, Some(response));
    tail == [last] || (response.result.Some? && tail == [Wrote(response.result.value), last])
  }

  lemma {:induction false} RunAt(req: Request, inputs: seq<Input>, j: nat, pc: Pc, trace: seq<Effect>,
      end: (Pc, seq<Effect>))
    requires j <= |inputs| && RunFrom(req, pc, trace, inputs[j..]) == Some(end)
    requires end.0.Finished? && !pc.Finished?
    ensures j < |inputs| && Advance(req, pc, inputs[j]).Some?
    ensures var (next, effect) := Advance(req, pc, inputs[j]).value;
      RunFrom(req, next, Plus(trace, effect), inputs[j + 1..]) == Some(end)
  {
    assert |inputs[j..]| == |inputs| - j;
    if j < |inputs| {
      assert inputs[j..][1..] == inputs[j + 1..] && inputs[j..][0] == inputs[j];
    }
  }

  lemma {:induction false} FromResponding(req: Request, inputs: seq<Input>, j: nat, response: O.Response,
      trace: seq<Effect>, end: (Pc, seq<Effect>))
    requires j <= |inputs| && RunFrom(req, Responding(response), trace, inputs[j..]) == Some(end)
    requires end.0.Finished?
    ensures end == (Finished(response), trace + [Publish(O.Completed, Some(response))])
  {
    RunAt(req, inputs, j, Responding(response), trace, end);
    assert |inputs[j + 1..]| == |inputs| - (j + 1);
  }

  lemma {:induction false} FromRunning(req: Request, inputs: seq<Input>, j: nat, trace: seq<Effect>,
      end: (Pc, seq<Effect>)) returns (tail: seq<Effect>)
    requires j <= |inputs| && RunFrom(req, Running, trace, inputs[j..]) == Some(end) && end.0.Finished?
    ensures j < |inputs| && inputs[j].Ran?
    ensures end.0.response == ResponseTo(inputs[j].result)
    ensures end.1 == trace + [Called(inputs[j].calls)] + tail && Closes(tail, end.0.response)
  {
    RunAt(req, inputs, j, Running, trace, end);
    var result, longer := inputs[j].result, trace + [Called(inputs[j].calls)];
    var next := Concluding(req, result);
    if next.Storing? {
      RunAt(req, inputs, j + 1, next, longer, end);
      var more := if inputs[j + 1].ok then longer + [Wrote(result.value)] else longer;
      FromResponding(req, inputs, j + 2, Succeeded(result.value, false), more, end);
      tail := end.1[|longer|..];
    } else {
      FromResponding(req, inputs, j + 1, next.response, longer, end);
      tail := end.1[|longer|..];
    }
  }

  lemma {:induction false} FromFetching(req: Request, inputs: seq<Input>, k: nat, end: (Pc, seq<Effect>))
    requires k <= |inputs| && RunFrom(req, Fetching, [CHECKING], inputs[k..]) == Some(end) && end.0.Finished?
    requires k == BeforeCommand(req) && inputs[0] == Go && (k == 2 ==> inputs[1] == Cached(None))
    ensures TracedAs(req, inputs, end.0.response, end.1)
  {
    RunAt(req, inputs, k, Fetching, [CHECKING], end);
    match inputs[k].outcome
    case CommandFound =>
      RunAt(req, inputs, k + 1, Announcing, [CHECKING], end);
      var tail := FromRunning(req, inputs, k + 2, [CHECKING] + [EXECUTING], end);
      assert end.1[3..] == tail;
    case CommandMissing => FromResponding(req, inputs, k + 1, FailedWith(O.FailedPrecondition), [CHECKING], end);
    case CommandMalformed => FromResponding(req, inputs, k + 1, FailedWith(O.Internal), [CHECKING], end);
  }

  /** Every finished run of the state machine leaves the trace its inputs call for. */
  lemma {:induction false} FinishedIsTraced(req: Request, inputs: seq<Input>, end: (Pc, seq<Effect>))
    requires RunFrom(req, Entering, [], inputs) == Some(end) && end.0.Finished?
    ensures TracedAs(req, inputs, end.0.response, end.1)
  {
    assert inputs[0..] == inputs;
    RunAt(req, inputs, 0, Entering, [], end);
    assert [] + [CHECKING] == [CHECKING];
    if BeforeCommand(req) == 2 {
      RunAt(req, inputs, 1, LookingUp, [CHECKING], end);
      if inputs[1].found.Some? {
        FromResponding(req, inputs, 2, Succeeded(inputs[1].found.value, true), [CHECKING], end);
      } else {
        FromFetching(req, inputs, 2, end);
      }
    } else {
      FromFetching(req, inputs, 1, end);
    }
  }

  lemma ShortEffects(last: Effect)
    requires last.Publish?
    ensures PublishesIn([CHECKING, last]) == [CHECKING, last] && CallsIn([CHECKING, last]) == []
  {
    CheckedEffects();
    OneMoreEffect(map[], [], [CHECKING], last);
    assert [CHECKING] + [last] == [CHECKING, last];
  }

  lemma LongEffects(calls: seq<Vm.Call>, tail: seq<Effect>, response: O.Response, trace: seq<Effect>)
    requires |trace| >= 3 && trace[..3] == [CHECKING, EXECUTING, Called(calls)] && Closes(tail, response)
    requires trace[3..] == tail
    ensures PublishesIn(trace) == [CHECKING, EXECUTING, Publish(O.Completed, Some(response))]
    ensures CallsIn(trace) == calls
  {
    var front, last := trace[..3], Publish(O.Completed, Some(response));
    assert front[..2] == [CHECKING, EXECUTING];
    ExecutedEffects(front);
    assert calls + [] == calls;
    assert [CHECKING, EXECUTING] + [] == [CHECKING, EXECUTING];
    assert [CHECKING, EXECUTING] + [last] == [CHECKING, EXECUTING, last];
    if tail == [last] {
      OneMoreEffect(map[], [], front, last);
      assert trace == front + [last];
    } else {
      OneMoreEffect(map[], [], front, tail[0]);
      OneMoreEffect(map[], [], front + [tail[0]], last);
      assert trace == front + [tail[0]] + [last];
    }
  }

  lemma {:induction false} TracedIsTold(req: Request, inputs: seq<Input>, response: O.Response, trace: seq<Effect>,
      limit: nat)
    requires TracedAs(req, inputs, response, trace)
    requires forall i :: 0 <= i < |inputs| ==> Acceptable(inputs[i], limit)
    ensures Told(req, inputs, response, PublishesIn(trace), CallsIn(trace), limit)
  {
    var k, last := BeforeCommand(req), Publish(O.Completed, Some(response));
    if !(k == 2 && inputs[1].found.Some?) && inputs[k] == Command(CommandFound) {
      LongEffects(inputs[k + 2].calls, trace[3..], response, trace);
      assert Acceptable(inputs[k + 2], limit);
      Vm.LifecycleIsOneMachine(inputs[k + 2].calls, limit);
    } else {
      ShortEffects(last);
    }
  }

  /** The same of a record and the outside. */
  lemma Tell(req: Request, final: Record, start: Outside, now: Outside, limit: nat)
    returns (labels: seq<Effect>, calls: seq<Vm.Call>)
    requires Faithful(req, final, start, now, limit) && final.pc.Finished?
    ensures now.labels == start.labels + labels && now.calls == start.calls + calls
    ensures labels == PublishesIn(final.trace) && calls == CallsIn(final.trace)
    ensures Told(req, final.inputs, final.pc.response, labels, calls, limit)
  {
    labels, calls := PublishesIn(final.trace), CallsIn(final.trace);
    FinishedIsTraced(req, final.inputs, (final.pc, final.trace));
    TracedIsTold(req, final.inputs, final.pc.response, final.trace, limit);
  }

  // ---- What every run comes to ----

  lemma CheckedEffects()
    ensures PublishesIn([CHECKING]) == [CHECKING] && CallsIn([CHECKING]) == []
  {
    OneMoreEffect(map[], [], [], CHECKING);
    assert [] + [CHECKING] == [CHECKING];
  }

  lemma ExecutedEffects(trace: seq<Effect>)
    requires |trace| == 3 && trace[..2] == [CHECKING, EXECUTING] && trace[2].Called?
    ensures PublishesIn(trace) == [CHECKING, EXECUTING] && CallsIn(trace) == trace[2].calls
  {
    CheckedEffects();
    OneMoreEffect(map[], [], [CHECKING], EXECUTING);
    assert trace[..2] == [CHECKING] + [EXECUTING];
    OneMoreEffect(map[], [], trace[..2], trace[2]);
    assert trace == trace[..2] + [trace[2]];
  }

  lemma SettledEffects(req: Request, trace: seq<Effect>, response: O.Response, limit: nat)
    requires Settled(req, trace, response, limit)
    ensures |trace| == 1 ==> PublishesIn(trace) == [CHECKING] && CallsIn(trace) == []
    ensures |trace| != 1 ==> PublishesIn(trace) == [CHECKING, EXECUTING] && Vm.Lifecycle(CallsIn(trace), limit)
  {
    if |trace| == 1 {
      CheckedEffects();
      assert trace == [CHECKING];
    } else {
      var front := trace[..3];
      assert front[..2] == trace[..2] && front[2] == trace[2];
      ExecutedEffects(front);
      if |trace| == 4 {
        OneMoreEffect(map[], [], front, trace[3]);
        assert trace == front + [trace[3]];
        assert [CHECKING, EXECUTING] + [] == [CHECKING, EXECUTING] && trace[2].calls + [] == trace[2].calls;
      } else {
        assert trace == front;
      }
    }
  }

  /** The updates of a finished run are CACHE_CHECK, perhaps EXECUTING, and one COMPLETED with the response;
      its MicroVM, if it had one, was gone before that; and a response from the cache made no calls at all. */
  lemma FinishedRun(req: Request, response: O.Response, trace: seq<Effect>, limit: nat)
    requires Shape(req, Finished(response), trace, limit)
    ensures Vm.Lifecycle(CallsIn(trace), limit) && Vm.OneMachine(CallsIn(trace)) && trace[|trace| - 1].Publish?
    ensures PublishesIn(trace) == [CHECKING, Publish(O.Completed, Some(response))]
         || PublishesIn(trace) == [CHECKING, EXECUTING, Publish(O.Completed, Some(response))]
    ensures |PublishesIn(trace)| == 2 ==> CallsIn(trace) == []
    ensures response.cachedResult ==> |PublishesIn(trace)| == 2
  {
    var front, last := trace[..|trace| - 1], trace[|trace| - 1];
    assert trace == front + [last];
    SettledEffects(req, front, response, limit);
    OneMoreEffect(map[], [], front, last);
    assert CallsIn(front) + [] == CallsIn(front);
    assert [CHECKING, EXECUTING] + [last] == [CHECKING, EXECUTING, last];
    Vm.LifecycleIsOneMachine(CallsIn(trace), limit);
  }

  /** At every point of a run its calls so far are none, or all those of one machine from launch to terminate. */
  lemma OneMachineAtRest(req: Request, pc: Pc, trace: seq<Effect>, limit: nat)
    requires Shape(req, pc, trace, limit)
    ensures Vm.Lifecycle(CallsIn(trace), limit) && Vm.OneMachine(CallsIn(trace))
  {
    match pc {
      case Entering =>
      case Running =>
        CheckedEffects();
        OneMoreEffect(map[], [], [CHECKING], EXECUTING);
        assert trace == [CHECKING] + [EXECUTING];
      case Storing(_) => ExecutedEffects(trace);
      case Responding(response) => SettledEffects(req, trace, response, limit);
      case Finished(response) => FinishedRun(req, response, trace, limit);
      case _ => CheckedEffects();
    }
    Vm.LifecycleIsOneMachine(CallsIn(trace), limit);
  }

  // ---- Execute ----

  datatype Refusal = Unimplemented | InvalidDigest(error: DigestError) | ActionMissing | ActionMalformed

  /** What Execute says before it starts an operation. */
  function Admitted(enabled: bool, blobs: Cas.Blobs, d: Digest,
      decode: Bytes -> Option<Action>): Result<Action, Refusal> {
    if !enabled then Err(Unimplemented)
    else match Validate(d)
      case Some(e) => Err(InvalidDigest(e))
      case None =>
        match Cas.Lookup(blobs, d)
        case None => Err(ActionMissing)
        case Some(data) => if decode(data).Some? then Ok(decode(data).value) else Err(ActionMalformed)
  }

  /** Exactly the requests with a valid digest of a stored Action that decodes are admitted by a server that
      executes at all; of the others each has its refusal, and the first that applies is given. */
  lemma AdmittedMeans(enabled: bool, blobs: Cas.Blobs, d: Digest, decode: Bytes -> Option<Action>, action: Action)
    ensures var r := Admitted(enabled, blobs, d, decode);
      && (r == Ok(action) <==>
            && enabled && Validate(d).None? && Cas.Lookup(blobs, d).Some?
            && decode(Cas.Lookup(blobs, d).value) == Some(action))
      && (r == Err(Unimplemented) <==> !enabled)
      && (r.Err? && r.error.InvalidDigest? <==> enabled && Validate(d).Some?)
      && (r == Err(ActionMissing) <==> enabled && Validate(d).None? && Cas.Lookup(blobs, d).None?)
  {
    if r :| r == Admitted(enabled, blobs, d, decode) && r.Ok? {
      assert decode(Cas.Lookup(blobs, d).value) == Some(r.value);
    }
  }

  method FetchAction(store: Cas.Store, d: Digest, decode: Bytes -> Option<Action>) returns (r: Result<Action, Refusal>)
    requires Validate(d).None?
    ensures r == Err(ActionMissing) <==> Cas.Lookup(store.blobs, d).None?
    ensures r == Err(ActionMalformed) <==>
      Cas.Lookup(store.blobs, d).Some? && decode(Cas.Lookup(store.blobs, d).value).None?
    ensures forall a: Action :: r == Ok(a) <==>
      Cas.Lookup(store.blobs, d).Some? && decode(Cas.Lookup(store.blobs, d).value) == Some(a)
  {
    var data := store.Get(d);
    if data.None? {
      return Err(ActionMissing);
    }
    var action := decode(data.value);
    r := if action.Some? then Ok(action.value) else Err(ActionMalformed);
  }

  /** Execute, with the goroutine it starts run to its end.  A refused request registers nothing and touches
      nothing; an admitted one leaves, under its name, an entry whose updates are about it and are those of its
      run, which is told in full; its MicroVM, if any, is gone. */
  method Execute(manager: O.OperationManager, store: Cas.Store, world: Vm.World, enabled: bool, name: Text, d: Digest,
      skipCacheLookup: bool, decode: Bytes -> Option<Action>, parse: Bytes -> Option<Bytes>, timeout: int)
    returns (r: Result<O.OpEntry, Refusal>, ghost inputs: seq<Input>, ghost made: seq<Vm.Call>)
    requires manager.Valid() && name !in manager.ops
    modifies manager, store`action, world
    ensures manager.Valid() && world.calls == old(world.calls) + made
    ensures match Admitted(enabled, old(store.blobs), d, decode)
      case Err(e) => r == Err(e) && manager.ops == old(manager.ops) && store.action == old(store.action) && made == []
      case Ok(action) =>
        && r.Ok? && fresh(r.value) && manager.ops == old(manager.ops)[name := r.value]
        && var req := Request(name, d, skipCacheLookup, action);
          && RanItsCourse(r.value, req, inputs, made, Vm.PollLimit(timeout))
          && OnlyItsTask(made, 0, store.blobs, req, parse)
          && Answered(req, inputs, r.value.latest.value.response.value, CommandAt(store.blobs, req, parse),
               store.reliable, old(store.action), store.action) == true
  {
    inputs, made := [], [];
    if !enabled {
      return Err(Unimplemented), inputs, made;
    }
    var invalid := Validate(d);
    if invalid.Some? {
      return Err(InvalidDigest(invalid.value)), inputs, made;
    }
    var fetched := FetchAction(store, d, decode);
    if fetched.Err? {
      return Err(fetched.error), inputs, made;
    }
    var entry := manager.New(name);
    var req := Request(name, d, skipCacheLookup, fetched.value);
    inputs, made := RunToTheEnd(store, world, entry, req, parse, timeout);
    r := Ok(entry);
  }

  /** The goroutine that Execute starts. */
  method RunToTheEnd(store: Cas.Store, world: Vm.World, entry: O.OpEntry, req: Request,
      parse: Bytes -> Option<Bytes>, timeout: int)
    returns (ghost inputs: seq<Input>, ghost made: seq<Vm.Call>)
    requires entry.Valid() && !entry.done && entry.log == []
    modifies entry, entry.changed, store`action, world
    ensures world.calls == old(world.calls) + made
    ensures RanItsCourse(entry, req, inputs, made, Vm.PollLimit(timeout))
    ensures OnlyItsTask(made, 0, store.blobs, req, parse)
    ensures Answered(req, inputs, entry.latest.value.response.value, CommandAt(store.blobs, req, parse),
      store.reliable, old(store.action), store.action) == true
  {
    var server := new ActionServer(store, world, entry);
    ghost var final, labels;
    final, labels, made := server.RunAction(0, req, parse, timeout);
    inputs := final.inputs;
    assert [] + labels == labels;
    LatestTells(req, inputs, final.pc.response, entry.log, made, Vm.PollLimit(timeout));
    OnlyItsTaskSince(old(world.calls), made, store.blobs, req, parse);
  }

  lemma {:induction false} LatestTells(req: Request, inputs: seq<Input>, response: O.Response, log: seq<O.Operation>,
      calls: seq<Vm.Call>, limit: nat)
    requires Told(req, inputs, response, Labels(log), calls, limit)
    ensures log != [] && log[|log| - 1].response == Some(response)
  {
    assert log != [];
    assert Labels(log)[|Labels(log)| - 1] == Publish(log[|log| - 1].stage, log[|log| - 1].response);
  }

  /** The entry is done, with messages about this request alone, which tell the run. */
  ghost predicate RanItsCourse(entry: O.OpEntry, req: Request, inputs: seq<Input>, calls: seq<Vm.Call>, limit: nat)
    reads entry, entry.changed, entry.history
  {
    && entry.Valid() && entry.done && GoesOn([], entry.log, req)
    && entry.latest.Some? && entry.latest.value.response.Some?
    && Told(req, inputs, entry.latest.value.response.value, Labels(entry.log), calls, limit)
  }
}
