/** One MicroVM per action (internal/microvm/executor.go): the calls Run makes, its two polling loops, and
    the deferred terminate. */
module MicroVm {
  import opened Digests
  import Cas

  /** Nanoseconds, like time.Duration. */
  const SECOND: int := 1_000_000_000

  datatype VmState = Running | Pending | Terminating | Terminated

  /** What a call yields.  A failed call may wrap context.Canceled. */
  datatype Answer<+T> = Got(value: T) | Failed(canceled: bool)

  /** What is posted to the agent: the Command's octets, the input root, and the timeout in seconds. */
  datatype Task = Task(command: Bytes, inputRoot: Digest, seconds: int)

  /** The calls of one Run to the cloud and to the agent, with the part of their outcome that matters.  A token
      is Got(false) if the response lacks the header. */
  datatype Call =
    | Launch(id: nat, first: VmState)
    | LaunchFailed(canceled: bool)
    | Get(id: nat, state: Answer<VmState>)
    | Token(id: nat, token: Answer<bool>)
    | Health(id: nat, ok: bool)
    | Dispatch(id: nat, task: Task, reply: Answer<Cas.ActionResult>)
    | Terminate(id: nat)

  // ---- The lifecycle ----

  datatype Phase = Starting | Started | Authorised | Healthy | Dispatched | Doomed

  /** Where the machine of a Run is: not launched yet, up, or over, whether it was terminated or never came
      up.  `polls` counts the polls of the current waiting loop. */
  datatype Vm = NoVm | Up(id: nat, phase: Phase, polls: nat) | Over

  /** The most polls a loop with this timeout makes when every sleep takes a second or more. */
  function PollLimit(timeout: int): nat {
    if timeout < 0 then 1 else timeout / SECOND + 2
  }

  /** The machine as a launch leaves it. */
  function Launched(id: nat, state: VmState): Vm {
    Up(id, if state.Running? then Started else Starting, 0)
  }

  /** A Run gives up only after a failure, a wait that was too long, or the reply. */
  predicate MayEnd(vm: Vm)
    requires vm.Up?
  {
    match vm.phase
    case Starting => vm.polls > 0
    case Started => false
    case _ => true
  }

  /** What a call does to the machine; None if the call breaks the protocol. */
  function Next(vm: Vm, call: Call, limit: nat): Option<Vm> {
    match (vm, call)
    case (NoVm, LaunchFailed(_)) => Some(Over)
    case (NoVm, Launch(id, state)) => Some(Launched(id, state))
    case (Up(id, Starting, n), Get(i, answer)) =>
      if i != id || n >= limit then None
      else if answer == Got(Running) then Some(Up(id, Started, 0))
      else if answer == Got(Pending) then Some(Up(id, Starting, n + 1))
      else Some(Up(id, Doomed, 0))
    case (Up(id, Started, n), Token(i, answer)) =>
      if i != id then None else Some(Up(id, if answer == Got(true) then Authorised else Doomed, 0))
    case (Up(id, Authorised, n), Health(i, ok)) =>
      if i != id || n >= limit then None
      else if ok then Some(Up(id, Healthy, 0))
      else Some(Up(id, Authorised, n + 1))
    case (Up(id, Healthy, _), Dispatch(i, _, _)) => if i != id then None else Some(Up(id, Dispatched, 0))
    case (Up(id, _, _), Terminate(i)) => if i != id || !MayEnd(vm) then None else Some(Over)
    case _ => None
  }

  function After(vm: Vm, calls: seq<Call>, limit: nat): Option<Vm>
    decreases |calls|
  {
    if calls == [] then Some(vm)
    else match Next(vm, calls[0], limit)
      case None => None
      case Some(next) => After(next, calls[1..], limit)
  }

  /** The calls of a finished Run: they keep to the protocol and leave no machine behind. */
  predicate Lifecycle(calls: seq<Call>, limit: nat) {
    calls == [] || After(NoVm, calls, limit) == Some(Over)
  }

  lemma {:induction false} AfterAppend(vm: Vm, a: seq<Call>, b: seq<Call>, limit: nat)
    ensures After(vm, a + b, limit) ==
      match After(vm, a, limit) case None => None case Some(mid) => After(mid, b, limit)
    decreases |a|
  {
    if a == [] {
      assert a + b == b;
    } else {
      assert (a + b)[1..] == a[1..] + b && (a + b)[0] == a[0];
      match Next(vm, a[0], limit)
      case None =>
      case Some(next) => AfterAppend(next, a[1..], b, limit);
    }
  }

  // ---- The executor ----

  /** A failed call may wrap context.Canceled. */
  datatype Error = NotLaunched(canceled: bool) | GetFailed(canceled: bool) | TokenFailed(canceled: bool)
    | AgentFailed(canceled: bool) | Gone(state: VmState) | TimedOut | ContextDone | TokenMissing
    | MarshalFailed | BadRequest

  /** errors.Is(err, context.Canceled).  The context has no deadline, so it only ends by cancellation. */
  predicate IsCanceled(e: Error) {
    match e
    case NotLaunched(c) => c
    case GetFailed(c) => c
    case TokenFailed(c) => c
    case AgentFailed(c) => c
    case ContextDone => true
    case _ => false
  }

  type Result<+T> = Digests.Result<T, Error>

  predicate CanceledOnlyIf<T>(r: Result<T>, canceled: bool) {
    r.Err? && IsCanceled(r.error) ==> canceled
  }

  /** The cloud API, the agent, the clock and the context of the run, answering as they please; `calls` is the
      trace of the calls.  The context may be cancelled at any time, and only then do calls fail with
      context.Canceled.  `parses` says whether the endpoint of a machine is a URL. */
  class World {
    const parses: bool
    var now: int
    var canceled: bool
    var launched: nat
    var calls: seq<Call>

    constructor (parses: bool)
      ensures calls == [] && this.parses == parses
    {
      this.parses := parses;
      now, canceled, launched, calls := 0, false, 0, [];
    }

    /** Time passes, and somebody may cancel. */
    method Tick(atLeast: nat)
      modifies this`now, this`canceled
      ensures now >= old(now) + atLeast && (old(canceled) ==> canceled)
    {
      var later :| later >= now + atLeast;
      now := later;
      if * {
        canceled := true;
      }
    }

    /** What a call answers. */
    method Ask<T(0)>() returns (answer: Answer<T>)
      modifies this`now, this`canceled
      ensures now >= old(now) && (old(canceled) ==> canceled) && (answer == Failed(true) ==> canceled)
    {
      Tick(0);
      answer := *;
      if answer == Failed(true) && !canceled {
        answer := Failed(false);
      }
    }

    method RunMicrovm() returns (answer: Answer<(nat, VmState)>)
      modifies this
      ensures now >= old(now) && (old(canceled) ==> canceled) && (answer == Failed(true) ==> canceled)
      ensures calls == old(calls) +
        [if answer.Failed? then LaunchFailed(answer.canceled) else Launch(answer.value.0, answer.value.1)]
      ensures answer.Got? ==> answer.value.0 == old(launched) < launched
    {
      var state: Answer<VmState> := Ask();
      if state.Failed? {
        calls := calls + [LaunchFailed(state.canceled)];
        return Failed(state.canceled);
      }
      calls := calls + [Launch(launched, state.value)];
      answer := Got((launched, state.value));
      launched := launched + 1;
    }

    method GetMicrovm(id: nat) returns (answer: Answer<VmState>)
      modifies this`now, this`canceled, this`calls
      ensures (old(canceled) ==> canceled) && now >= old(now) && (answer == Failed(true) ==> canceled)
      ensures calls == old(calls) + [Get(id, answer)]
    {
      answer := Ask();
      calls := calls + [Get(id, answer)];
    }

    method CreateMicrovmAuthToken(id: nat) returns (answer: Answer<bool>)
      modifies this`now, this`canceled, this`calls
      ensures (old(canceled) ==> canceled) && now >= old(now) && (answer == Failed(true) ==> canceled)
      ensures calls == old(calls) + [Token(id, answer)]
    {
      answer := Ask();
      calls := calls + [Token(id, answer)];
    }

    method GetHealth(id: nat) returns (ok: bool)
      modifies this`now, this`canceled, this`calls
      ensures (old(canceled) ==> canceled) && now >= old(now) && calls == old(calls) + [Health(id, ok)]
    {
      Tick(0);
      ok := *;
      calls := calls + [Health(id, ok)];
    }

    /** Everything but a result that unmarshals counts as a failure. */
    method PostTask(id: nat, task: Task) returns (answer: Answer<Cas.ActionResult>)
      modifies this`now, this`canceled, this`calls
      ensures (old(canceled) ==> canceled) && now >= old(now) && (answer == Failed(true) ==> canceled)
      ensures calls == old(calls) + [Dispatch(id, task, answer)]
    {
      answer := Ask();
      calls := calls + [Dispatch(id, task, answer)];
    }

    method TerminateMicrovm(id: nat)
      modifies this`now, this`canceled, this`calls
      ensures (old(canceled) ==> canceled) && now >= old(now) && calls == old(calls) + [Terminate(id)]
    {
      Tick(0);
      calls := calls + [Terminate(id)];
    }

    /** False when the context ends first. */
    method Sleep(d: nat) returns (ok: bool)
      modifies this`now, this`canceled
      ensures now >= old(now) + (if ok then d else 0) && (old(canceled) ==> canceled)
      ensures !ok ==> canceled
    {
      Tick(0);
      ok := *;
      if ok || !canceled {
        ok := true;
        Tick(d);
      }
    }
  }

  // ---- What a Run reports ----

  /** The call after which a Run gives up with this error. */
  predicate FailedAt(call: Call, e: Error) {
    match e
    case GetFailed(canceled) => call.Get? && call.state == Failed(canceled)
    case Gone(state) => call.Get? && call.state == Got(state) && state in {Terminating, Terminated}
    case TokenFailed(canceled) => call.Token? && call.token == Failed(canceled)
    case TokenMissing => call.Token? && call.token == Got(false)
    case AgentFailed(canceled) => call.Dispatch? && call.reply == Failed(canceled)
    case TimedOut => StillWaiting(call)
    case ContextDone => StillWaiting(call)
    case BadRequest => call.Health? || (call.Token? && call.token == Got(true))
    case _ => false
  }

  predicate StillWaiting(call: Call) {
    (call.Get? && call.state == Got(Pending)) || (call.Health? && !call.ok)
  }

  /** The result is what the last of the calls answered. */
  predicate Tells(call: Call, r: Result<Cas.ActionResult>) {
    match r
    case Ok(ar) => call.Dispatch? && call.reply == Got(ar)
    case Err(e) => FailedAt(call, e)
  }

  /** A Run reports what the last call before the terminate answered, and fails only for a reason. */
  predicate Reports(made: seq<Call>, r: Result<Cas.ActionResult>) {
    if made == [] then r == Err(MarshalFailed)
    else if |made| == 1 then made[0].LaunchFailed? && r == Err(NotLaunched(made[0].canceled))
    else Tells(made[|made| - 2], r)
  }

  /** A report that fits the calls. */
  function ReportOf(made: seq<Call>): Result<Cas.ActionResult> {
    if made == [] then Err(MarshalFailed)
    else if |made| == 1 then Err(NotLaunched(made[0].LaunchFailed? && made[0].canceled))
    else match made[|made| - 2]
      case Get(_, Failed(canceled)) => Err(GetFailed(canceled))
      case Get(_, Got(state)) => Err(if state in {Terminating, Terminated} then Gone(state) else TimedOut)
      case Token(_, Failed(canceled)) => Err(TokenFailed(canceled))
      case Token(_, Got(present)) => Err(if present then BadRequest else TokenMissing)
      case Health(_, ok) => Err(if ok then BadRequest else TimedOut)
      case Dispatch(_, _, Failed(canceled)) => Err(AgentFailed(canceled))
      case Dispatch(_, _, Got(ar)) => Ok(ar)
      case _ => Err(MarshalFailed)
  }

  /** The call failed with context.Canceled. */
  predicate Wraps(call: Call) {
    match call
    case LaunchFailed(canceled) => canceled
    case Get(_, answer) => answer == Failed(true)
    case Token(_, answer) => answer == Failed(true)
    case Dispatch(_, _, answer) => answer == Failed(true)
    case _ => false
  }

  /** Every finished run has something to report, and cancellation only if a call failed with it. */
  lemma SomethingToReport(made: seq<Call>, limit: nat)
    requires Lifecycle(made, limit)
    ensures Reports(made, ReportOf(made))
    ensures ReportOf(made).Err? && IsCanceled(ReportOf(made).error) ==> exists i :: 0 <= i < |made| && Wraps(made[i])
  {
    LifecycleIsOneMachine(made, limit);
    if |made| > 1 {
      BeforeTheEnd(made, limit);
      SomethingToTell(made[|made| - 2], made);
    } else if |made| == 1 {
      assert made[0].LaunchFailed? && Wraps(made[0]) == made[0].canceled;
    }
  }

  lemma SomethingToTell(call: Call, made: seq<Call>)
    requires |made| > 1 && call == made[|made| - 2]
    requires !call.Launch? && !call.Terminate? && !call.LaunchFailed? && (call.Get? ==> call.state != Got(Running))
    ensures Tells(call, ReportOf(made))
    ensures ReportOf(made).Err? && IsCanceled(ReportOf(made).error) ==> Wraps(call)
  {
    if call.Get? && call.state.Got? {
      assert !call.state.value.Running?;
    }
  }

  /** The call before the terminate is one after which a Run may end. */
  lemma BeforeTheEnd(made: seq<Call>, limit: nat)
    requires Lifecycle(made, limit) && |made| > 1
    ensures var call := made[|made| - 2];
      !call.Launch? && !call.Terminate? && !call.LaunchFailed? && (call.Get? ==> call.state != Got(Running))
  {
    var n := |made| - 2;
    var mid := AfterSuffix(NoVm, made, n, limit);
    assert made[n..][0] == made[n] && made[n..][1..] == made[n + 1..];
    var next := Next(mid, made[n], limit).value;
    assert made[n + 1..] == [made[n + 1]];
    AfterOne(next, made[n + 1], limit);
    assert n == 0 ==> mid == NoVm;
    if n > 0 {
      NotBackToNoVm(made[..n], limit);
    }
  }

  lemma AfterOne(vm: Vm, call: Call, limit: nat)
    ensures After(vm, [call], limit) == Next(vm, call, limit)
  {
    assert [call][1..] == [];
  }

  lemma {:induction false} NotBackToNoVm(calls: seq<Call>, limit: nat)
    requires calls != [] && After(NoVm, calls, limit).Some?
    ensures !After(NoVm, calls, limit).value.NoVm?
  {
    var n := |calls| - 1;
    var mid := AfterSuffix(NoVm, calls, n, limit);
    assert calls[n..][0] == calls[n] && calls[n..][1..] == [];
  }

  /** It gives up waiting only when its time is over, its context is cancelled, or it has no URL to ask. */
  predicate GivesUpDuly<T>(r: Result<T>, since: int, now: int, timeout: int, canceled: bool, parses: bool) {
    && (r == Err(TimedOut) ==> now > since + timeout)
    && (r == Err(ContextDone) ==> canceled)
    && (r == Err(BadRequest) ==> !parses)
  }

  /** Polls so far, and what they say about the clock. */
  ghost predicate Polling(start: int, now: int, polls: nat, timeout: int) {
    now >= start + polls * SECOND && (polls > 0 ==> timeout >= (polls - 1) * SECOND)
  }

  lemma PollsBounded(start: int, now: int, polls: nat, timeout: int)
    requires Polling(start, now, polls, timeout)
    ensures polls < PollLimit(timeout)
  {
    if polls > 0 {
      assert (polls - 1) * SECOND <= timeout;
    }
  }

  /** waitRunning. */
  method WaitRunning(world: World, id: nat, timeout: int) returns (r: Result<()>, ghost polled: seq<Call>)
    modifies world`now, world`canceled, world`calls
    ensures world.calls == old(world.calls) + polled && world.now >= old(world.now)
    ensures After(Up(id, Starting, 0), polled, PollLimit(timeout)).Some?
    ensures After(Up(id, Starting, 0), polled, PollLimit(timeout)).value.Up?
    ensures After(Up(id, Starting, 0), polled, PollLimit(timeout)).value.id == id
    ensures r.Ok? <==> After(Up(id, Starting, 0), polled, PollLimit(timeout)) == Some(Up(id, Started, 0))
    ensures polled != [] && |polled| <= (if timeout < 0 then 1 else timeout / 1_000_000_000 + 2)
    ensures NothingDispatched(polled) && (r.Err? ==> FailedAt(polled[|polled| - 1], r.error))
    ensures r.Err? ==> MayEnd(After(Up(id, Starting, 0), polled, PollLimit(timeout)).value)
    ensures GivesUpDuly(r, old(world.now), world.now, timeout, world.canceled, world.parses)
    ensures (old(world.canceled) ==> world.canceled) && CanceledOnlyIf(r, world.canceled)
  {
    var deadline := world.now + timeout;
    ghost var start, limit := world.now, PollLimit(timeout);
    polled := [];
    while true
      invariant world.calls == old(world.calls) + polled && (old(world.canceled) ==> world.canceled)
      invariant Polling(start, world.now, |polled|, timeout) && NothingDispatched(polled)
      invariant After(Up(id, Starting, 0), polled, limit) == Some(Up(id, Starting, |polled|))
      decreases limit - |polled|
    {
      PollsBounded(start, world.now, |polled|, timeout);
      var answer := world.GetMicrovm(id);
      AfterAppend(Up(id, Starting, 0), polled, [Get(id, answer)], limit);
      assert [Get(id, answer)][1..] == [];
      polled := polled + [Get(id, answer)];
      if answer.Failed? {
        return Err(GetFailed(answer.canceled)), polled;
      }
      match answer.value {
        case Running => return Ok(()), polled;
        case Terminating => return Err(Gone(Terminating)), polled;
        case Terminated => return Err(Gone(Terminated)), polled;
        case Pending =>
      }
      world.Tick(0);
      if world.now > deadline {
        return Err(TimedOut), polled;
      }
      var ok := world.Sleep(SECOND);
      if !ok {
        return Err(ContextDone), polled;
      }
    }
  }

  /** waitHealthy. */
  method WaitHealthy(world: World, id: nat, timeout: int) returns (r: Result<()>, ghost polled: seq<Call>)
    modifies world`now, world`canceled, world`calls
    ensures world.calls == old(world.calls) + polled && world.now >= old(world.now)
    ensures After(Up(id, Authorised, 0), polled, PollLimit(timeout)).Some?
    ensures After(Up(id, Authorised, 0), polled, PollLimit(timeout)).value.Up?
    ensures After(Up(id, Authorised, 0), polled, PollLimit(timeout)).value.id == id
    ensures r.Ok? <==> After(Up(id, Authorised, 0), polled, PollLimit(timeout)) == Some(Up(id, Healthy, 0))
    ensures |polled| <= (if timeout < 0 then 1 else timeout / 1_000_000_000 + 2)
    ensures NothingDispatched(polled)
    ensures r.Ok? ==> polled != [] && polled[|polled| - 1] == Health(id, true)
    ensures r.Err? ==> MayEnd(After(Up(id, Authorised, 0), polled, PollLimit(timeout)).value)
    ensures r.Err? ==> if polled == [] then r.error == BadRequest else FailedAt(polled[|polled| - 1], r.error)
    ensures GivesUpDuly(r, old(world.now), world.now, timeout, world.canceled, world.parses)
    ensures (old(world.canceled) ==> world.canceled) && CanceledOnlyIf(r, world.canceled)
  {
    var deadline := world.now + timeout;
    ghost var start, limit := world.now, PollLimit(timeout);
    polled := [];
    while true
      invariant world.calls == old(world.calls) + polled && (old(world.canceled) ==> world.canceled)
      invariant Polling(start, world.now, |polled|, timeout) && NothingDispatched(polled)
      invariant After(Up(id, Authorised, 0), polled, limit) == Some(Up(id, Authorised, |polled|))
      invariant polled != [] ==> polled[|polled| - 1].Health?
      decreases limit - |polled|
    {
      if !world.parses {
        return Err(BadRequest), polled;
      }
      PollsBounded(start, world.now, |polled|, timeout);
      var healthy := world.GetHealth(id);
      AfterAppend(Up(id, Authorised, 0), polled, [Health(id, healthy)], limit);
      assert [Health(id, healthy)][1..] == [];
      polled := polled + [Health(id, healthy)];
      if healthy {
        return Ok(()), polled;
      }
      world.Tick(0);
      if world.now > deadline {
        return Err(TimedOut), polled;
      }
      var ok := world.Sleep(SECOND);
      if !ok {
        return Err(ContextDone), polled;
      }
    }
  }

  /** The token. */
  method Authorise(world: World, id: nat, timeout: int) returns (r: Result<()>, ghost asked: seq<Call>)
    modifies world`now, world`canceled, world`calls
    ensures world.calls == old(world.calls) + asked && world.now >= old(world.now)
    ensures After(Up(id, Started, 0), asked, PollLimit(timeout)) ==
      Some(Up(id, if r.Ok? then Authorised else Doomed, 0))
    ensures |asked| == 1 && asked[0].Token?
    ensures if r.Ok? then asked[0].token == Got(true) else FailedAt(asked[0], r.error)
    ensures GivesUpDuly(r, old(world.now), world.now, timeout, world.canceled, world.parses)
    ensures (old(world.canceled) ==> world.canceled) && CanceledOnlyIf(r, world.canceled)
  {
    var answer := world.CreateMicrovmAuthToken(id);
    asked := [Token(id, answer)];
    assert asked[1..] == [];
    match answer
    case Failed(canceled) => r := Err(TokenFailed(canceled));
    case Got(present) => r := if present then Ok(()) else Err(TokenMissing);
  }

  predicate NothingDispatched(calls: seq<Call>) {
    forall i :: 0 <= i < |calls| ==> !calls[i].Dispatch?
  }

  /** Whatever is dispatched is this task. */
  predicate OnlyTask(calls: seq<Call>, task: Task) {
    forall i :: 0 <= i < |calls| && calls[i].Dispatch? ==> calls[i].task == task
  }

  /** The calls leave the machine up, and the result is what the last of them answered. */
  predicate Drives(start: Vm, calls: seq<Call>, limit: nat, r: Result<Cas.ActionResult>)
    requires start.Up?
  {
    && calls != [] && Tells(calls[|calls| - 1], r)
    && match After(start, calls, limit)
       case Some(Up(id, phase, polls)) => id == start.id && MayEnd(Up(id, phase, polls))
       case _ => false
  }

  lemma DrivesAfter(start: Vm, a: seq<Call>, mid: Vm, b: seq<Call>, limit: nat, r: Result<Cas.ActionResult>)
    requires start.Up? && mid.Up? && mid.id == start.id
    requires After(start, a, limit) == Some(mid) && Drives(mid, b, limit, r)
    ensures Drives(start, a + b, limit, r)
  {
    AfterAppend(start, a, b, limit);
  }

  lemma OnlyTaskAfter(a: seq<Call>, b: seq<Call>, task: Task)
    requires NothingDispatched(a) && OnlyTask(b, task)
    ensures OnlyTask(a + b, task)
  {
  }

  /** The health checks, and the dispatch; `token` is the call that went before. */
  method Dispense(world: World, id: nat, task: Task, timeout: int, ghost token: Call)
    returns (r: Result<Cas.ActionResult>, ghost driven: seq<Call>)
    requires token == Token(id, Got(true))
    modifies world`now, world`canceled, world`calls
    ensures world.calls == old(world.calls) + driven && world.now >= old(world.now)
    ensures Drives(Up(id, Started, 0), [token] + driven, PollLimit(timeout), r) && OnlyTask(driven, task)
    ensures GivesUpDuly(r, old(world.now), world.now, timeout, world.canceled, world.parses)
    ensures (old(world.canceled) ==> world.canceled) && CanceledOnlyIf(r, world.canceled)
  {
    var healthy;
    healthy, driven := WaitHealthy(world, id, timeout);
    AuthorisedBefore(id, token, driven, PollLimit(timeout));
    if healthy.Err? {
      return Err(healthy.error), driven;
    }
    if !world.parses {
      return Err(BadRequest), driven;
    }
    var answer := world.PostTask(id, task);
    AfterAppend(Up(id, Authorised, 0), driven, [Dispatch(id, task, answer)], PollLimit(timeout));
    assert [Dispatch(id, task, answer)][1..] == [];
    driven := driven + [Dispatch(id, task, answer)];
    AuthorisedBefore(id, token, driven, PollLimit(timeout));
    match answer
    case Failed(canceled) => r := Err(AgentFailed(canceled));
    case Got(ar) => r := Ok(ar);
  }

  lemma AuthorisedBefore(id: nat, token: Call, calls: seq<Call>, limit: nat)
    requires token == Token(id, Got(true))
    ensures After(Up(id, Started, 0), [token] + calls, limit) == After(Up(id, Authorised, 0), calls, limit)
  {
    assert ([token] + calls)[1..] == calls;
  }

  /** The token, and what follows it. */
  method AuthoriseAndDispense(world: World, id: nat, task: Task, timeout: int)
    returns (r: Result<Cas.ActionResult>, ghost driven: seq<Call>)
    modifies world`now, world`canceled, world`calls
    ensures world.calls == old(world.calls) + driven && world.now >= old(world.now)
    ensures Drives(Up(id, Started, 0), driven, PollLimit(timeout), r) && OnlyTask(driven, task)
    ensures GivesUpDuly(r, old(world.now), world.now, timeout, world.canceled, world.parses)
    ensures (old(world.canceled) ==> world.canceled) && CanceledOnlyIf(r, world.canceled)
  {
    var authorised;
    authorised, driven := Authorise(world, id, timeout);
    if authorised.Err? {
      return Err(authorised.error), driven;
    }
    ghost var rest;
    assert driven == [driven[0]] && driven[0] == Token(id, Got(true));
    r, rest := Dispense(world, id, task, timeout, driven[0]);
    OnlyTaskAfter(driven, rest, task);
    driven := driven + rest;
  }

  /** The body of Run between the launch and the deferred terminate. */
  method Drive(world: World, id: nat, state: VmState, task: Task, timeout: int)
    returns (r: Result<Cas.ActionResult>, ghost driven: seq<Call>)
    modifies world`now, world`canceled, world`calls
    ensures world.calls == old(world.calls) + driven && world.now >= old(world.now)
    ensures Drives(Launched(id, state), driven, PollLimit(timeout), r) && OnlyTask(driven, task)
    ensures GivesUpDuly(r, old(world.now), world.now, timeout, world.canceled, world.parses)
    ensures (old(world.canceled) ==> world.canceled) && CanceledOnlyIf(r, world.canceled)
  {
    if state == Running {
      r, driven := AuthoriseAndDispense(world, id, task, timeout);
      return;
    }
    var running;
    running, driven := WaitRunning(world, id, timeout);
    if running.Err? {
      return Err(running.error), driven;
    }
    ghost var rest;
    r, rest := AuthoriseAndDispense(world, id, task, timeout);
    DrivesAfter(Up(id, Starting, 0), driven, Up(id, Started, 0), rest, PollLimit(timeout), r);
    OnlyTaskAfter(driven, rest, task);
    driven := driven + rest;
  }

  /** Executor.Run.  `command` is the marshalled Command, if it marshals; `made` are the calls: at most one launch,
      one dispatch, of the task asked for, and one terminate for the machine launched.  It reports what the last
      call before the terminate answered: a result exactly if that is what the agent replied, and an error only
      for a reason. */
  method Run(world: World, command: Option<Bytes>, inputRoot: Digest, actionTimeout: int, timeout: int)
    returns (r: Result<Cas.ActionResult>, ghost made: seq<Call>)
    modifies world
    ensures world.calls == old(world.calls) + made
    ensures Lifecycle(made, PollLimit(timeout)) && OneMachine(made)
    ensures made == [] <==> command.None?
    ensures command.Some? ==> OnlyTask(made, Task(command.value, inputRoot, TruncatedSeconds(actionTimeout)))
    ensures Reports(made, r) && forall ar :: r == Ok(ar) <==> Replied(made, ar)
    ensures GivesUpDuly(r, old(world.now), world.now, timeout, world.canceled, world.parses)
    ensures CanceledOnlyIf(r, world.canceled)
  {
    made := [];
    if command.None? {
      return Err(MarshalFailed), made;
    }
    var launch := world.RunMicrovm();
    if launch.Failed? {
      return Err(NotLaunched(launch.canceled)), [LaunchFailed(launch.canceled)];
    }
    var (id, state) := launch.value;
    var task := Task(command.value, inputRoot, TruncatedSeconds(actionTimeout));
    ghost var driven;
    r, driven := Drive(world, id, state, task, timeout);
    world.TerminateMicrovm(id);
    made := [Launch(id, state)] + driven + [Terminate(id)];
    Bracketed(id, state, driven, PollLimit(timeout), r);
    LifecycleIsOneMachine(made, PollLimit(timeout));
    ReportsTheReply(made, r, PollLimit(timeout));
  }

  /** timeout / time.Second in whole seconds: Go truncates. */
  function TruncatedSeconds(d: int): (s: int)
    ensures d >= 0 ==> s * 1_000_000_000 <= d < (s + 1) * 1_000_000_000
    ensures d < 0 ==> (s - 1) * 1_000_000_000 < d <= s * 1_000_000_000
  {
    if d < 0 then -(-d / SECOND) else d / SECOND
  }

  /** The agent replied this result to the task it was given. */
  predicate Replied(calls: seq<Call>, ar: Cas.ActionResult) {
    exists i :: 0 <= i < |calls| && calls[i].Dispatch? && calls[i].reply == Got(ar)
  }

  lemma ReportsTheReply(made: seq<Call>, r: Result<Cas.ActionResult>, limit: nat)
    requires Lifecycle(made, limit) && Reports(made, r)
    ensures forall ar :: r == Ok(ar) <==> Replied(made, ar)
  {
    forall i | 0 <= i < |made| && made[i].Dispatch? ensures i == |made| - 2 {
      DispatchIsGuarded(made, i, limit);
    }
  }

  lemma Bracketed(id: nat, state: VmState, driven: seq<Call>, limit: nat, r: Result<Cas.ActionResult>)
    requires Drives(Launched(id, state), driven, limit, r)
    ensures Lifecycle([Launch(id, state)] + driven + [Terminate(id)], limit)
    ensures Reports([Launch(id, state)] + driven + [Terminate(id)], r)
  {
    var calls := [Launch(id, state)] + driven + [Terminate(id)];
    assert calls == [Launch(id, state)] + (driven + [Terminate(id)]);
    assert calls[1..] == driven + [Terminate(id)];
    AfterAppend(Launched(id, state), driven, [Terminate(id)], limit);
    assert [Terminate(id)][1..] == [];
    assert calls[|calls| - 2] == driven[|driven| - 1];
  }

  // ---- What the lifecycle means ----

  function Subject(call: Call): Option<nat> {
    match call
    case Launch(id, _) => Some(id)
    case LaunchFailed(_) => None
    case Get(id, _) => Some(id)
    case Token(id, _) => Some(id)
    case Health(id, _) => Some(id)
    case Dispatch(id, _, _) => Some(id)
    case Terminate(id) => Some(id)
  }

  /** calls[j] terminates the machine, and every call from i up to it is for the machine and neither launches
      nor terminates anything. */
  predicate TerminatedAt(calls: seq<Call>, i: nat, j: nat, id: nat) {
    && i <= j < |calls| && calls[j] == Terminate(id)
    && forall k :: i <= k < j ==> Subject(calls[k]) == Some(id) && !calls[k].Launch? && !calls[k].Terminate?
  }

  /** Two of these calls dispatch. */
  predicate DispatchesTwice(calls: seq<Call>) {
    exists i, j :: 0 <= i < j < |calls| && calls[i].Dispatch? && calls[j].Dispatch?
  }

  /** Without mention of the protocol: nothing is launched, or the first call launches one machine, the last is
      the only one that terminates it, all between are for it, and at most one of them dispatches. */
  predicate OneMachine(calls: seq<Call>) {
    || calls == [] || (|calls| == 1 && calls[0].LaunchFailed?)
    || (calls[0].Launch? && TerminatedAt(calls, 1, |calls| - 1, calls[0].id) && !DispatchesTwice(calls))
  }

  lemma AfterOver(calls: seq<Call>, limit: nat)
    requires After(Over, calls, limit).Some?
    ensures calls == []
  {
  }

  lemma {:induction false} UpUntilTerminated(vm: Vm, calls: seq<Call>, limit: nat)
    requires vm.Up? && After(vm, calls, limit) == Some(Over)
    ensures calls != [] && TerminatedAt(calls, 0, |calls| - 1, vm.id)
    decreases |calls|
  {
    if calls[0].Terminate? {
      AfterOver(calls[1..], limit);
    } else {
      UpUntilTerminated(Next(vm, calls[0], limit).value, calls[1..], limit);
      forall i | 0 <= i < |calls| - 1
        ensures Subject(calls[i]) == Some(vm.id) && !calls[i].Launch? && !calls[i].Terminate?
      {
        if i > 0 { assert calls[1..][i - 1] == calls[i]; }
      }
    }
  }

  lemma {:induction false} AfterSuffix(vm: Vm, calls: seq<Call>, i: nat, limit: nat) returns (mid: Vm)
    requires i <= |calls| && After(vm, calls, limit).Some?
    ensures After(vm, calls[..i], limit) == Some(mid)
    ensures After(mid, calls[i..], limit) == After(vm, calls, limit)
  {
    AfterAppend(vm, calls[..i], calls[i..], limit);
    assert calls[..i] + calls[i..] == calls;
    mid := After(vm, calls[..i], limit).value;
  }

  /** Whoever launches does so first, and its last call is the one terminate of the machine, with nothing but
      calls for that machine between. */
  lemma LaunchedIsTerminated(calls: seq<Call>, i: nat, limit: nat)
    requires Lifecycle(calls, limit) && i < |calls| && calls[i].Launch?
    ensures i == 0 && TerminatedAt(calls, 1, |calls| - 1, calls[0].id)
  {
    var up := Next(NoVm, calls[0], limit).value;
    if up == Over {
      AfterOver(calls[1..], limit);
    } else {
      UpUntilTerminated(up, calls[1..], limit);
      forall k | 1 <= k < |calls| ensures calls[k] == calls[1..][k - 1] {
      }
    }
  }

  lemma LifecycleIsOneMachine(calls: seq<Call>, limit: nat)
    requires Lifecycle(calls, limit)
    ensures OneMachine(calls)
  {
    if calls != [] && calls[0].LaunchFailed? {
      AfterOver(calls[1..], limit);
      assert calls == [calls[0]] + calls[1..];
    } else if calls != [] {
      LaunchedIsTerminated(calls, 0, limit);
      forall i | 0 <= i < |calls| && calls[i].Dispatch? ensures i == |calls| - 2 {
        DispatchIsGuarded(calls, i, limit);
      }
    }
  }

  /** The same of a MicroVM run that may be under way: one launch first, then calls for that machine, at most
      one of them a dispatch, and nothing after the terminate. */
  predicate OneMachineSoFar(calls: seq<Call>) {
    || calls == [] || (|calls| == 1 && calls[0].LaunchFailed?)
    || (calls[0].Launch? && ForMachine(calls[1..], calls[0].id) && !DispatchesTwice(calls))
  }

  predicate ForMachine(calls: seq<Call>, id: nat) {
    forall k :: 0 <= k < |calls| ==>
      Subject(calls[k]) == Some(id) && !calls[k].Launch? && (calls[k].Terminate? ==> k == |calls| - 1)
  }

  lemma {:induction false} UpIsForMachine(vm: Vm, calls: seq<Call>, limit: nat)
    requires vm.Up? && After(vm, calls, limit).Some?
    ensures ForMachine(calls, vm.id)
    decreases |calls|
  {
    if calls != [] {
      var rest := calls[1..];
      if calls[0].Terminate? {
        AfterOver(rest, limit);
      } else {
        UpIsForMachine(Next(vm, calls[0], limit).value, rest, limit);
        forall k | 0 <= k < |calls|
          ensures Subject(calls[k]) == Some(vm.id) && !calls[k].Launch?
          ensures calls[k].Terminate? ==> k == |calls| - 1
        {
          if k > 0 { assert calls[k] == rest[k - 1]; }
        }
      }
    }
  }

  /** What comes right after a dispatch, if anything, terminates. */
  lemma AfterDispatch(calls: seq<Call>, i: nat, limit: nat)
    requires After(NoVm, calls, limit).Some? && i < |calls| && calls[i].Dispatch?
    ensures |calls| <= i + 2 && (|calls| == i + 2 ==> calls[i + 1] == Terminate(calls[i].id))
  {
    var mid := AfterSuffix(NoVm, calls, i, limit);
    assert calls[i..][0] == calls[i] && calls[i..][1..] == calls[i + 1..];
    var next := Next(mid, calls[i], limit).value;
    if calls[i + 1..] != [] {
      assert calls[i + 1..][0] == calls[i + 1] && calls[i + 1..][1..] == calls[i + 2..];
      AfterOver(calls[i + 2..], limit);
    }
  }

  lemma ProtocolIsOneMachine(calls: seq<Call>, limit: nat)
    requires After(NoVm, calls, limit).Some? || Lifecycle(calls, limit)
    ensures OneMachineSoFar(calls) && !DispatchesTwice(calls)
  {
    if calls != [] {
      if calls[0].LaunchFailed? {
        AfterOver(calls[1..], limit);
        assert calls == [calls[0]] + calls[1..];
      } else {
        UpIsForMachine(Next(NoVm, calls[0], limit).value, calls[1..], limit);
        forall i | 0 <= i < |calls| && calls[i].Dispatch?
          ensures |calls| <= i + 2 && (|calls| == i + 2 ==> calls[i + 1].Terminate?)
        {
          AfterDispatch(calls, i, limit);
        }
      }
    }
  }

  /** The machine was seen running and then healthy in these calls. */
  predicate SeenRunning(calls: seq<Call>, id: nat) {
    Launch(id, Running) in calls || Get(id, Got(Running)) in calls
  }

  predicate PhaseSeen(vm: Vm, calls: seq<Call>) {
    vm.Up? ==>
      && (vm.phase !in {Starting, Doomed} ==> SeenRunning(calls, vm.id))
      && (vm.phase in {Authorised, Healthy, Dispatched} ==> Token(vm.id, Got(true)) in calls)
      && (vm.phase in {Healthy, Dispatched} ==> Health(vm.id, true) in calls)
  }

  lemma {:induction false} PhasesSeen(calls: seq<Call>, limit: nat)
    requires After(NoVm, calls, limit).Some?
    ensures PhaseSeen(After(NoVm, calls, limit).value, calls)
    decreases |calls|
  {
    if calls != [] {
      var front, last := calls[..|calls| - 1], calls[|calls| - 1];
      assert calls == front + [last];
      AfterAppend(NoVm, front, [last], limit);
      assert [last][1..] == [];
      PhasesSeen(front, limit);
      assert last in calls && forall c :: c in front ==> c in calls;
    }
  }

  /** The task is dispatched only to a machine seen running, with a token, and seen healthy, and the next call,
      which is the last, terminates the machine. */
  lemma DispatchIsGuarded(calls: seq<Call>, i: nat, limit: nat)
    requires Lifecycle(calls, limit) && i < |calls| && calls[i].Dispatch?
    ensures SeenRunning(calls[..i], calls[i].id)
    ensures Token(calls[i].id, Got(true)) in calls[..i] && Health(calls[i].id, true) in calls[..i]
    ensures i + 2 == |calls| && calls[i + 1] == Terminate(calls[i].id)
  {
    var mid := AfterSuffix(NoVm, calls, i, limit);
    PhasesSeen(calls[..i], limit);
    assert calls[i..][0] == calls[i] && calls[i..][1..] == calls[i + 1..];
    AfterDispatch(calls, i, limit);
  }

  function Gets(calls: seq<Call>): nat {
    if calls == [] then 0 else (if calls[0].Get? then 1 else 0) + Gets(calls[1..])
  }

  function Healths(calls: seq<Call>): nat {
    if calls == [] then 0 else (if calls[0].Health? then 1 else 0) + Healths(calls[1..])
  }

  lemma {:induction false} PollsLeft(vm: Vm, calls: seq<Call>, limit: nat)
    requires vm.Up? && vm.polls <= limit && After(vm, calls, limit).Some?
    requires forall k :: 0 <= k < |calls| ==> !calls[k].Terminate?
    ensures Gets(calls) <= (if vm.phase.Starting? then limit - vm.polls else 0)
    ensures Healths(calls) <= (if vm.phase.Authorised? then limit - vm.polls else
                               if vm.phase in {Starting, Started} then limit else 0)
    decreases |calls|
  {
    if calls != [] {
      PollsLeft(Next(vm, calls[0], limit).value, calls[1..], limit);
    }
  }

  /** A call that ends the hope of a result. */
  predicate Hopeless(call: Call) {
    match call
    case Get(_, answer) => answer !in {Got(Running), Got(Pending)}
    case Token(_, answer) => answer != Got(true)
    case _ => call.Dispatch?
  }

  /** A run goes on polling only where it is told to wait, and gives up at once where waiting is no use. */
  lemma GoesOnOnlyWithHope(calls: seq<Call>, i: nat, limit: nat)
    requires Lifecycle(calls, limit) && i < |calls|
    ensures Hopeless(calls[i]) ==> i + 2 == |calls| && calls[i + 1].Terminate?
    ensures i + 1 < |calls| && calls[i + 1].Get? ==>
      calls[i].Launch? || (calls[i].Get? && calls[i].state == Got(Pending))
    ensures i + 1 < |calls| && calls[i + 1].Health? ==>
      (calls[i].Token? && calls[i].token == Got(true)) || (calls[i].Health? && !calls[i].ok)
  {
    var mid := AfterSuffix(NoVm, calls, i, limit);
    assert calls[i..][0] == calls[i] && calls[i..][1..] == calls[i + 1..];
    var next := Next(mid, calls[i], limit).value;
    if i + 1 < |calls| {
      assert calls[i + 1..][0] == calls[i + 1] && calls[i + 1..][1..] == calls[i + 2..];
      if calls[i + 1].Terminate? {
        AfterOver(calls[i + 2..], limit);
      }
    }
  }

  /** Each waiting loop of a run polls no more than the limit, and a machine launched RUNNING is not polled. */
  lemma PollsWithinLimit(calls: seq<Call>, limit: nat)
    requires Lifecycle(calls, limit) && calls != [] && calls[0].Launch?
    ensures Gets(calls) <= (if calls[0].first.Running? then 0 else limit) && Healths(calls) <= limit
  {
    var up := Next(NoVm, calls[0], limit).value;
    LaunchedIsTerminated(calls, 0, limit);
    var own := calls[1..|calls| - 1];
    var last := [calls[|calls| - 1]];
    assert calls[1..] == own + last;
    AfterAppend(up, own, last, limit);
    forall k | 0 <= k < |own| ensures !own[k].Terminate? {
      assert own[k] == calls[k + 1];
    }
    PollsLeft(up, own, limit);
    PollsAppend(own, last);
    assert last[1..] == [];
  }

  lemma {:induction false} PollsAppend(a: seq<Call>, b: seq<Call>)
    ensures Gets(a + b) == Gets(a) + Gets(b) && Healths(a + b) == Healths(a) + Healths(b)
    decreases |a|
  {
    if a == [] {
      assert a + b == b;
    } else {
      assert (a + b)[1..] == a[1..] + b;
      PollsAppend(a[1..], b);
    }
  }

  /** The most calls a MicroVM run makes from here on. */
  function CallsLeft(vm: Vm, limit: nat): (n: nat)
    ensures n <= 2 * limit + 6
  {
    match vm
    case NoVm => 2 * limit + 6
    case Over => 0
    case Up(_, phase, polls) =>
      var more: nat := if polls <= limit then limit - polls else 0;
      match phase
      case Starting => more + limit + 5
      case Started => limit + 4
      case Authorised => more + 3
      case Healthy => 2
      case _ => 1
  }

  lemma CallLowersLeft(vm: Vm, calls: seq<Call>, call: Call, limit: nat)
    requires After(vm, calls, limit).Some? && After(vm, calls + [call], limit).Some?
    ensures CallsLeft(After(vm, calls + [call], limit).value, limit) < CallsLeft(After(vm, calls, limit).value, limit)
  {
    AfterAppend(vm, calls, [call], limit);
    assert [call][1..] == [];
  }
}
