/** The server as one system: any number of runActions in flight, the waiters on their operations, clients
    that cancel and delete, and outside writers of the action cache
    (internal/server/execution.go, internal/server/operations.go and internal/server/actioncache.go). */
module Server {
  import opened Digests
  import Cas
  import O = Operations
  import Vm = MicroVm
  import opened Execution

  /** A runAction in flight.  Run i publishes to entry i.  `inputs` are what it has learned, `lookedUpAt` is how
      many writes the action cache had seen when the run looked it up, and `underWay` are the calls so far of the
      MicroVM run it waits for. */
  datatype Run = Run(req: Request, pc: Pc, inputs: seq<Input>, trace: seq<Effect>, lookedUpAt: Option<nat>,
    underWay: seq<Vm.Call>)

  /** A write to the action cache, by a run or from outside. */
  datatype Write = Write(hash: Text, ar: Cas.ActionResult, writer: Option<nat>)

  datatype State = State(ops: O.State, runs: seq<Run>, cache: map<Text, Cas.ActionResult>, writes: seq<Write>)

  const INITIAL := State(O.INITIAL, [], map[], [])

  datatype Event =
    | Execute(req: Request)
    | Take(r: nat, input: Input)
    | Reach(r: nat, call: Vm.Call)
    | UpdateActionResult(hash: Text, ar: Cas.ActionResult)
    | Client(ev: O.Event)

  function LastWrite(writes: seq<Write>, hash: Text): Option<Cas.ActionResult> {
    if writes == [] then None
    else if writes[|writes| - 1].hash == hash then Some(writes[|writes| - 1].ar)
    else LastWrite(writes[..|writes| - 1], hash)
  }

  /** What a run may learn in a state: the cache answers with what it holds or not at all (a miss or an
      error), a MicroVM run is reported with the calls it made, when it is over, and its context is the one that
      CancelOperation ends. */
  predicate Learns(s: State, r: nat, input: Input, limit: nat)
    requires r < |s.runs|
  {
    match input
    case Cached(Some(ar)) =>
      var hash := s.runs[r].req.actionDigest.hash;
      hash in s.cache && s.cache[hash] == ar
    case Ran(calls, _, canceled) =>
      calls == s.runs[r].underWay && canceled == (r in s.ops.cancelled) && Acceptable(input, limit)
    case _ => true
  }

  predicate Enabled(s: State, ev: Event, limit: nat) {
    match ev
    case Execute(req) => O.Enabled(s.ops, O.New(req.name))
    case Take(r, input) =>
      && r < |s.runs| && r < |s.ops.entries|
      && Execution.Advance(s.runs[r].req, s.runs[r].pc, input).Some?
      && Learns(s, r, input, limit)
    case Reach(r, call) =>
      // the MicroVM run makes its next call, which fails with context.Canceled only if its context was cancelled
      && r < |s.runs| && s.runs[r].pc.Running? && Vm.After(Vm.NoVm, s.runs[r].underWay + [call], limit).Some?
      && (Vm.Wraps(call) ==> r in s.ops.cancelled)
    case UpdateActionResult(_, _) => true
    case Client(op) => O.Enabled(s.ops, op) && !op.New? && !op.Publish?
  }

  /** The operation message a run publishes. */
  function Message(s: State, r: nat, stage: O.Stage, response: Option<O.Response>): O.Operation
    requires r < |s.runs|
  {
    O.Operation(s.ops.made, s.runs[r].req.name, s.runs[r].req.actionDigest, stage, response)
  }

  /** A run after its next step; `writes` counts the writes to the cache so far. */
  function Moved(run: Run, input: Input, writes: nat): Run
    requires Execution.Advance(run.req, run.pc, input).Some?
  {
    var (pc, effect) := Execution.Advance(run.req, run.pc, input).value;
    Run(run.req, pc, run.inputs + [input], Plus(run.trace, effect),
        if input.Cached? then Some(writes) else run.lookedUpAt, if input.Ran? then [] else run.underWay)
  }

  function Apply(s: State, ev: Event, limit: nat): State
    requires Enabled(s, ev, limit)
  {
    match ev
    case Execute(req) =>
      // the run starts, and the stream that called Execute attaches to its entry
      var ops := O.Apply(s.ops, O.New(req.name));
      s.(ops := O.Apply(ops, O.Attach(|s.ops.entries|)), runs := s.runs + [Run(req, Entering, [], [], None, [])])
    case Take(r, input) =>
      var run := s.runs[r];
      var (pc, effect) := Execution.Advance(run.req, run.pc, input).value;
      var hash := run.req.actionDigest.hash;
      var t := s.(runs := s.runs[r := Moved(run, input, |s.writes|)]);
      (match effect
       case Some(Publish(stage, response)) => t.(ops := O.Apply(s.ops, O.Publish(r, Message(s, r, stage, response))))
       case Some(Wrote(ar)) => t.(cache := s.cache[hash := ar], writes := s.writes + [Write(hash, ar, Some(r))])
       case _ => t)
    case Reach(r, call) => s.(runs := s.runs[r := s.runs[r].(underWay := s.runs[r].underWay + [call])])
    case UpdateActionResult(hash, ar) =>
      s.(cache := s.cache[hash := ar], writes := s.writes + [Write(hash, ar, None)])
    case Client(op) => s.(ops := O.Apply(s.ops, op))
  }

  function RunSystem(s: State, evs: seq<Event>, limit: nat): Option<State>
    decreases |evs|
  {
    if evs == [] then Some(s)
    else if Enabled(s, evs[0], limit) then RunSystem(Apply(s, evs[0], limit), evs[1..], limit)
    else None
  }

  // ---- Invariants ----

  /** A cached response is the last value written for its action before the lookup; runs that must not look
      up never do. */
  predicate LookupPolicy(run: Run, writes: seq<Write>) {
    && (run.lookedUpAt.Some? ==> run.req.MayLookUp() && run.lookedUpAt.value <= |writes|)
    && (match ResponseOf(run.pc)
        case Some(response) =>
          response.cachedResult ==>
            && run.lookedUpAt.Some?
            && response.result == LastWrite(writes[..run.lookedUpAt.value], run.req.actionDigest.hash)
        case None => true)
  }

  function ResponseOf(pc: Pc): Option<O.Response> {
    match pc
    case Responding(response) => Some(response)
    case Finished(response) => Some(response)
    case _ => None
  }

  predicate CancelPolicy(run: Run, cancelled: bool) {
    var response := ResponseOf(run.pc);
    response.Some? && response.value.code == O.Canceled ==> cancelled
  }

  /** A write by a run is that run's successful result, under its action, and the run may cache. */
  predicate WritePolicy(s: State, w: Write) {
    match w.writer
    case None => true
    case Some(r) =>
      && r < |s.runs| && w.ar.exitCode == 0
      && !s.runs[r].req.action.doNotCache && w.hash == s.runs[r].req.actionDigest.hash
      && Wrote(w.ar) in s.runs[r].trace
  }

  predicate RunInv(s: State, r: nat, limit: nat)
    requires r < |s.runs| && r < |s.ops.entries|
  {
    && Shape(s.runs[r].req, s.runs[r].pc, s.runs[r].trace, limit)
    && InStep(s.ops.entries[r], s.runs[r])
    && LookupPolicy(s.runs[r], s.writes)
    && CancelPolicy(s.runs[r], r in s.ops.cancelled)
    && InProtocol(s.runs[r], limit)
    && Traced(s.runs[r], limit)
    && About(s.ops.entries[r].log, s.runs[r].req)
    && (forall i :: 0 <= i < |s.runs[r].underWay| && Vm.Wraps(s.runs[r].underWay[i]) ==> r in s.ops.cancelled)
  }

  /** What the run has learned has led it where it is. */
  predicate Traced(run: Run, limit: nat) {
    && RunFrom(run.req, Entering, [], run.inputs) == Some((run.pc, run.trace))
    && forall i :: 0 <= i < |run.inputs| ==> Acceptable(run.inputs[i], limit)
  }

  /** Every message is about the request. */
  predicate About(log: seq<O.Operation>, req: Request) {
    forall i :: 0 <= i < |log| ==> log[i].name == req.name && log[i].action == req.actionDigest
  }

  /** Only a Running run has calls under way, and they keep to the protocol. */
  predicate InProtocol(run: Run, limit: nat) {
    && Vm.After(Vm.NoVm, run.underWay, limit).Some?
    && (run.underWay != [] ==> run.pc.Running?)
  }

  /** Each part is kept whole. */
  ghost predicate Inv(s: State, limit: nat) {
    && O.Inv(s.ops) == true
    && |s.runs| == |s.ops.entries|
    && CacheIsLastWrites(s) == true
    && RunsInv(s, limit) == true
    && NamesLead(s) == true
    && WritesInv(s) == true
  }

  predicate RunsInv(s: State, limit: nat)
    requires |s.runs| == |s.ops.entries|
  {
    forall r :: 0 <= r < |s.runs| ==> RunInv(s, r, limit)
  }

  predicate WritesInv(s: State) {
    forall i :: 0 <= i < |s.writes| ==> WritePolicy(s, s.writes[i])
  }

  /** A registered name leads to the operation of that name. */
  predicate NamesLead(s: State) {
    NamesLeadTo(s.ops.names, s.runs)
  }

  predicate NamesLeadTo(names: map<Text, nat>, runs: seq<Run>) {
    forall name :: name in names ==> names[name] < |runs| && runs[names[name]].req.name == name
  }

  ghost predicate CacheIsLastWrites(s: State) {
    forall hash: Text :: LastWrite(s.writes, hash) == if hash in s.cache then Some(s.cache[hash]) else None
  }

  // ---- Preservation ----

  /** t is a later state that has done nothing to run r. */
  predicate Kept(s: State, t: State, r: nat) {
    && r < |s.runs| && r < |t.runs| && t.runs[r] == s.runs[r]
    && r < |s.ops.entries| && r < |t.ops.entries|
    && t.ops.entries[r] == s.ops.entries[r]
    && s.writes <= t.writes && s.ops.cancelled <= t.ops.cancelled
  }

  lemma RunKept(s: State, t: State, r: nat, limit: nat)
    requires Kept(s, t, r) && RunInv(s, r, limit)
    ensures RunInv(t, r, limit)
  {
    var run := s.runs[r];
    if run.lookedUpAt.Some? {
      assert t.writes[..run.lookedUpAt.value] == s.writes[..run.lookedUpAt.value];
    }
  }

  lemma WriteKept(s: State, t: State, w: Write)
    requires WritePolicy(s, w) && |s.runs| <= |t.runs|
    requires w.writer.Some? ==>
      var (a, b) := (s.runs[w.writer.value], t.runs[w.writer.value]); a.req == b.req && a.trace <= b.trace
    ensures WritePolicy(t, w)
  {
    if w.writer.Some? {
      var a, b := s.runs[w.writer.value].trace, t.runs[w.writer.value].trace;
      var i :| 0 <= i < |a| && a[i] == Wrote(w.ar);
      assert b[i] == a[i];
    }
  }

  lemma OneMoreWrite(writes: seq<Write>, w: Write, hash: Text)
    ensures LastWrite(writes + [w], hash) == if w.hash == hash then Some(w.ar) else LastWrite(writes, hash)
  {
    assert (writes + [w])[..|writes|] == writes;
  }

  lemma CacheWritten(s: State, t: State, w: Write)
    requires CacheIsLastWrites(s) && t.cache == s.cache[w.hash := w.ar] && t.writes == s.writes + [w]
    ensures CacheIsLastWrites(t)
  {
    forall hash: Text
      ensures LastWrite(t.writes, hash) == if hash in t.cache then Some(t.cache[hash]) else None
    {
      OneMoreWrite(s.writes, w, hash);
    }
  }

  lemma ExecuteKeepsInv(s: State, req: Request, limit: nat)
    requires Inv(s, limit) && Enabled(s, Execute(req), limit)
    ensures Inv(Apply(s, Execute(req), limit), limit)
  {
    var t := Apply(s, Execute(req), limit);
    var ops := O.Apply(s.ops, O.New(req.name));
    O.StepKeepsInv(s.ops, O.New(req.name));
    O.StepKeepsInv(ops, O.Attach(|s.ops.entries|));
    forall r | 0 <= r < |t.runs| ensures RunInv(t, r, limit) {
      if r < |s.runs| { RunKept(s, t, r, limit); }
    }
    forall i | 0 <= i < |t.writes| ensures WritePolicy(t, t.writes[i]) { WriteKept(s, t, s.writes[i]); }
  }

  lemma UpdateKeepsInv(s: State, hash: Text, ar: Cas.ActionResult, limit: nat)
    requires Inv(s, limit)
    ensures Inv(Apply(s, UpdateActionResult(hash, ar), limit), limit)
  {
    var t, w := Apply(s, UpdateActionResult(hash, ar), limit), Write(hash, ar, None);
    CacheWritten(s, t, w);
    forall r | 0 <= r < |t.runs| ensures RunInv(t, r, limit) { RunKept(s, t, r, limit); }
    forall i | 0 <= i < |t.writes| ensures WritePolicy(t, t.writes[i]) {
      if i < |s.writes| { WriteKept(s, t, s.writes[i]); }
    }
  }

  lemma ClientKeepsInv(s: State, op: O.Event, limit: nat)
    requires Inv(s, limit) && Enabled(s, Client(op), limit)
    ensures Inv(Apply(s, Client(op), limit), limit)
  {
    var t := Apply(s, Client(op), limit);
    O.StepKeepsInv(s.ops, op);
    ClientTouchesNoEntry(s.ops, op);
    forall r | 0 <= r < |t.runs| ensures RunInv(t, r, limit) { RunKept(s, t, r, limit); }
    forall i | 0 <= i < |t.writes| ensures WritePolicy(t, t.writes[i]) { WriteKept(s, t, s.writes[i]); }
  }

  lemma ClientTouchesNoEntry(s: O.State, op: O.Event)
    requires O.Enabled(s, op) && !op.New? && !op.Publish?
    ensures O.Apply(s, op).entries == s.entries && s.cancelled <= O.Apply(s, op).cancelled
  {
  }

  /** A publish adds its label to the entry, which is not done yet. */
  lemma {:induction false} PublishTouchesItsEntry(ops: O.State, r: nat, op: O.Operation)
    requires O.Enabled(ops, O.Publish(r, op)) && !ops.entries[r].done
    ensures var t := O.Apply(ops, O.Publish(r, op));
      && OnlyEntry(ops, t, r)
      && Labels(t.entries[r].log) == Labels(ops.entries[r].log) + [Publish(op.stage, op.response)]
      && (t.entries[r].done <==> op.response.Some?)
  {
    OneMoreLabel(ops.entries[r].log, op);
  }

  predicate OnlyEntry(ops: O.State, t: O.State, r: nat) {
    && |t.entries| == |ops.entries| && t.cancelled == ops.cancelled && r < |ops.entries|
    && forall q :: 0 <= q < |ops.entries| && q != r ==> t.entries[q] == ops.entries[q]
  }

  /** The entry says what its run has published. */
  predicate InStep(e: O.Entry, run: Run) {
    Labels(e.log) == PublishesIn(run.trace) && (e.done <==> run.pc.Finished?)
  }

  /** Only a Responding run publishes a response, and that finishes it; a finished run takes no step. */
  lemma OnlyTheLastPublishFinishes(req: Request, pc: Pc, input: Input)
    requires Execution.Advance(req, pc, input).Some?
    ensures var (next, effect) := Execution.Advance(req, pc, input).value;
      && !pc.Finished?
      && (next.Finished? <==> effect.Some? && effect.value.Publish? && effect.value.response.Some?)
  {
  }

  /** What a step of run r does to its entry. */
  lemma {:induction false} TakeTouchesItsEntry(s: State, r: nat, input: Input, limit: nat)
    requires Enabled(s, Take(r, input), limit) && InStep(s.ops.entries[r], s.runs[r])
    ensures var t := Apply(s, Take(r, input), limit);
      OnlyEntry(s.ops, t.ops, r) && InStep(t.ops.entries[r], t.runs[r])
  {
    var run := s.runs[r];
    OnlyTheLastPublishFinishes(run.req, run.pc, input);
    var (pc, effect) := Execution.Advance(run.req, run.pc, input).value;
    if effect.Some? {
      OneMoreEffect(map[], [], run.trace, effect.value);
      if effect.value.Publish? {
        PublishTouchesItsEntry(s.ops, r, Message(s, r, effect.value.stage, effect.value.response));
      } else {
        assert PublishesIn(run.trace) + [] == PublishesIn(run.trace);
      }
    }
  }

  lemma {:induction false} TakeKeepsOperations(s: State, r: nat, input: Input, limit: nat)
    requires O.Inv(s.ops) && Enabled(s, Take(r, input), limit)
    ensures O.Inv(Apply(s, Take(r, input), limit).ops)
  {
    var effect := Execution.Advance(s.runs[r].req, s.runs[r].pc, input).value.1;
    if effect.Some? && effect.value.Publish? {
      O.StepKeepsInv(s.ops, O.Publish(r, Message(s, r, effect.value.stage, effect.value.response)));
    }
  }

  /** A lookup finds the last write, if it finds anything. */
  lemma {:induction false} LookupStep(run: Run, input: Input, writes: seq<Write>, limit: nat)
    requires Execution.Advance(run.req, run.pc, input).Some? && Shape(run.req, run.pc, run.trace, limit)
    requires LookupPolicy(run, writes)
    requires input.Cached? && input.found.Some? ==> input.found == LastWrite(writes, run.req.actionDigest.hash)
    ensures LookupPolicy(Moved(run, input, |writes|), writes)
  {
    if input.Cached? {
      assert writes[..|writes|] == writes;
    }
  }

  lemma CancelStep(run: Run, input: Input, cancelled: bool)
    requires Execution.Advance(run.req, run.pc, input).Some? && CancelPolicy(run, cancelled)
    requires input.Ran? ==> input.canceled == cancelled && Vm.CanceledOnlyIf(input.result, input.canceled)
    ensures CancelPolicy(Moved(run, input, 0), cancelled)
  {
  }

  /** What a step of run r learns, it may act on. */
  lemma TakeKeepsPolicies(s: State, r: nat, input: Input, limit: nat)
    requires r < |s.runs| && r < |s.ops.entries| && RunInv(s, r, limit) && CacheIsLastWrites(s)
    requires Execution.Advance(s.runs[r].req, s.runs[r].pc, input).Some? && Learns(s, r, input, limit)
    ensures var next := Moved(s.runs[r], input, |s.writes|);
      LookupPolicy(next, s.writes) && CancelPolicy(next, r in s.ops.cancelled)
  {
    var run := s.runs[r];
    assert LastWrite(s.writes, run.req.actionDigest.hash)
      == if run.req.actionDigest.hash in s.cache then Some(s.cache[run.req.actionDigest.hash]) else None;
    LookupStep(run, input, s.writes, limit);
    CancelStep(run, input, r in s.ops.cancelled);
  }

  /** The write to the cache that a step makes, if any. */
  function NewWrites(run: Run, r: nat, input: Input): seq<Write>
    requires Execution.Advance(run.req, run.pc, input).Some?
  {
    match Execution.Advance(run.req, run.pc, input).value.1
    case Some(Wrote(ar)) => [Write(run.req.actionDigest.hash, ar, Some(r))]
    case _ => []
  }

  lemma NewWriteIsAllowed(s: State, t: State, r: nat, input: Input, limit: nat, w: Write)
    requires r < |s.runs| && Shape(s.runs[r].req, s.runs[r].pc, s.runs[r].trace, limit)
    requires Execution.Advance(s.runs[r].req, s.runs[r].pc, input).Some? && w in NewWrites(s.runs[r], r, input)
    requires t.runs == s.runs[r := Moved(s.runs[r], input, |s.writes|)]
    ensures WritePolicy(t, w)
  {
    var run := s.runs[r];
    var effect := Execution.Advance(run.req, run.pc, input).value.1;
    assert Plus(run.trace, effect)[|run.trace|] == effect.value;
  }

  lemma OldWriteIsKept(s: State, t: State, r: nat, input: Input, w: Write)
    requires WritePolicy(s, w) && r < |s.runs| && Execution.Advance(s.runs[r].req, s.runs[r].pc, input).Some?
    requires t.runs == s.runs[r := Moved(s.runs[r], input, |s.writes|)]
    ensures WritePolicy(t, w)
  {
    WriteKept(s, t, w);
  }

  lemma TakeKeepsCache(s: State, r: nat, input: Input, limit: nat)
    requires CacheIsLastWrites(s) && Enabled(s, Take(r, input), limit)
    ensures var t := Apply(s, Take(r, input), limit); s.writes <= t.writes && CacheIsLastWrites(t) == true
  {
    var t, run := Apply(s, Take(r, input), limit), s.runs[r];
    var effect := Execution.Advance(run.req, run.pc, input).value.1;
    if effect.Some? && effect.value.Wrote? {
      CacheWritten(s, t, Write(run.req.actionDigest.hash, effect.value.ar, Some(r)));
    }
  }

  lemma TakeKeepsWrites(s: State, t: State, r: nat, input: Input, limit: nat)
    requires r < |s.runs| && Shape(s.runs[r].req, s.runs[r].pc, s.runs[r].trace, limit) && WritesInv(s)
    requires Execution.Advance(s.runs[r].req, s.runs[r].pc, input).Some?
    requires t.runs == s.runs[r := Moved(s.runs[r], input, |s.writes|)]
    requires t.writes == s.writes + NewWrites(s.runs[r], r, input)
    ensures WritesInv(t)
  {
    forall i | 0 <= i < |t.writes| ensures WritePolicy(t, t.writes[i]) {
      if i < |s.writes| {
        OldWriteIsKept(s, t, r, input, s.writes[i]);
      } else {
        NewWriteIsAllowed(s, t, r, input, limit, t.writes[i]);
      }
    }
  }

  lemma TakeMovesItsRun(s: State, r: nat, input: Input, limit: nat)
    requires Enabled(s, Take(r, input), limit)
    ensures var t := Apply(s, Take(r, input), limit);
      && t.runs == s.runs[r := Moved(s.runs[r], input, |s.writes|)] && t.ops.names == s.ops.names
      && t.writes == s.writes + NewWrites(s.runs[r], r, input)
  {
  }

  lemma {:induction false} TakeKeepsTraced(run: Run, input: Input, writes: nat, limit: nat)
    requires Execution.Advance(run.req, run.pc, input).Some? && Traced(run, limit) && Acceptable(input, limit)
    ensures Traced(Moved(run, input, writes), limit)
  {
    RunFromSnoc(run.req, Entering, [], run.inputs, input);
  }

  lemma {:induction false} TakeKeepsAbout(s: State, r: nat, input: Input, limit: nat)
    requires Enabled(s, Take(r, input), limit) && About(s.ops.entries[r].log, s.runs[r].req)
    ensures r < |Apply(s, Take(r, input), limit).ops.entries|
    ensures About(Apply(s, Take(r, input), limit).ops.entries[r].log, s.runs[r].req)
  {
  }

  /** The only step from Running is to report the MicroVM run. */
  lemma TakeEndsItsCalls(run: Run, input: Input, writes: nat, limit: nat)
    requires Execution.Advance(run.req, run.pc, input).Some? && InProtocol(run, limit)
    ensures InProtocol(Moved(run, input, writes), limit)
  {
  }

  lemma TakeKeepsRun(s: State, t: State, r: nat, input: Input, limit: nat)
    requires Enabled(s, Take(r, input), limit) && RunInv(s, r, limit) && CacheIsLastWrites(s)
    requires OnlyEntry(s.ops, t.ops, r) && s.writes <= t.writes && r < |t.runs|
    requires t.runs[r] == Moved(s.runs[r], input, |s.writes|) && InStep(t.ops.entries[r], t.runs[r])
    requires About(t.ops.entries[r].log, t.runs[r].req)
    ensures RunInv(t, r, limit)
  {
    var run := s.runs[r];
    AdvanceKeepsShape(run.req, run.pc, run.trace, input, limit);
    TakeEndsItsCalls(run, input, |s.writes|, limit);
    TakeKeepsTraced(run, input, |s.writes|, limit);
    TakeKeepsPolicies(s, r, input, limit);
    LookupKept(t.runs[r], s.writes, t.writes);
  }

  lemma TakeKeepsInv(s: State, r: nat, input: Input, limit: nat)
    requires Inv(s, limit) && Enabled(s, Take(r, input), limit)
    ensures Inv(Apply(s, Take(r, input), limit), limit)
  {
    var t := Apply(s, Take(r, input), limit);
    assert RunInv(s, r, limit);
    TakeMovesItsRun(s, r, input, limit);
    TakeTouchesItsEntry(s, r, input, limit);
    TakeKeepsOperations(s, r, input, limit);
    TakeKeepsAbout(s, r, input, limit);
    TakeKeepsCache(s, r, input, limit);
    TakeKeepsWrites(s, t, r, input, limit);
    TakeKeepsRuns(s, t, r, input, limit);
  }

  /** A call of a MicroVM run changes nothing but the calls under way. */
  lemma ReachKeepsInv(s: State, r: nat, call: Vm.Call, limit: nat)
    requires Inv(s, limit) && Enabled(s, Reach(r, call), limit)
    ensures Inv(Apply(s, Reach(r, call), limit), limit)
  {
    var t := Apply(s, Reach(r, call), limit);
    forall q | 0 <= q < |t.runs| ensures RunInv(t, q, limit) {
      assert RunInv(s, q, limit);
      if q != r { RunKept(s, t, q, limit); }
    }
    forall i | 0 <= i < |t.writes| ensures WritePolicy(t, t.writes[i]) { WriteKept(s, t, s.writes[i]); }
  }

  lemma TakeKeepsRuns(s: State, t: State, r: nat, input: Input, limit: nat)
    requires Inv(s, limit) && Enabled(s, Take(r, input), limit) && |t.runs| == |t.ops.entries|
    requires OnlyEntry(s.ops, t.ops, r) && s.writes <= t.writes
    requires t.runs == s.runs[r := Moved(s.runs[r], input, |s.writes|)] && InStep(t.ops.entries[r], t.runs[r])
    requires About(t.ops.entries[r].log, t.runs[r].req)
    ensures RunsInv(t, limit) && NamesLeadTo(s.ops.names, t.runs)
  {
    assert RunInv(s, r, limit);
    TakeKeepsRun(s, t, r, input, limit);
    OthersKeptByTake(s, t, r, limit);
  }

  lemma OthersKeptByTake(s: State, t: State, r: nat, limit: nat)
    requires Inv(s, limit) && OnlyEntry(s.ops, t.ops, r) && s.writes <= t.writes
    requires |t.runs| == |s.runs| && forall q :: 0 <= q < |s.runs| && q != r ==> t.runs[q] == s.runs[q]
    ensures forall q :: 0 <= q < |t.runs| && q != r ==> RunInv(t, q, limit)
  {
    forall q | 0 <= q < |t.runs| && q != r ensures RunInv(t, q, limit) { RunKept(s, t, q, limit); }
  }

  lemma LookupKept(run: Run, writes: seq<Write>, more: seq<Write>)
    requires LookupPolicy(run, writes) && writes <= more
    ensures LookupPolicy(run, more)
  {
    if run.lookedUpAt.Some? {
      assert more[..run.lookedUpAt.value] == writes[..run.lookedUpAt.value];
    }
  }

  lemma StepKeepsInv(s: State, ev: Event, limit: nat)
    requires Inv(s, limit) && Enabled(s, ev, limit)
    ensures Inv(Apply(s, ev, limit), limit)
  {
    match ev
    case Execute(req) => ExecuteKeepsInv(s, req, limit);
    case Take(r, input) => TakeKeepsInv(s, r, input, limit);
    case Reach(r, call) => ReachKeepsInv(s, r, call, limit);
    case UpdateActionResult(hash, ar) => UpdateKeepsInv(s, hash, ar, limit);
    case Client(op) => ClientKeepsInv(s, op, limit);
  }

  lemma {:induction false} RunKeepsInv(s: State, evs: seq<Event>, limit: nat)
    requires Inv(s, limit) && RunSystem(s, evs, limit).Some?
    ensures Inv(RunSystem(s, evs, limit).value, limit)
    decreases |evs|
  {
    if evs != [] {
      StepKeepsInv(s, evs[0], limit);
      RunKeepsInv(Apply(s, evs[0], limit), evs[1..], limit);
    }
  }

  // ---- Over every run of the server ----

  /** The action-cache policy.  A response from the cache is the last value written for its action before the
      lookup and called no MicroVM; actions that opted out of caching and requests that skip the lookup never
      see the cache, and what runs write is a success of an action that did not opt out. */
  lemma CachePolicy(evs: seq<Event>, limit: nat)
    requires RunSystem(INITIAL, evs, limit).Some?
    ensures var s := RunSystem(INITIAL, evs, limit).value;
      && (forall r :: 0 <= r < |s.runs| ==> ObeysPolicy(s.runs[r], s.writes))
      && (forall i :: 0 <= i < |s.writes| ==> WritePolicy(s, s.writes[i]))
  {
    RunKeepsInv(INITIAL, evs, limit);
    var s := RunSystem(INITIAL, evs, limit).value;
    forall r | 0 <= r < |s.runs| ensures ObeysPolicy(s.runs[r], s.writes) {
      assert RunInv(s, r, limit);
      CachedMakesNoCalls(s.runs[r], limit);
    }
  }

  predicate ObeysPolicy(run: Run, writes: seq<Write>) {
    && (run.req.skipCacheLookup || run.req.action.doNotCache ==> run.lookedUpAt.None?)
    && var response := ResponseOf(run.pc);
       response.Some? && response.value.cachedResult ==>
         && !run.req.skipCacheLookup && !run.req.action.doNotCache
         && run.lookedUpAt.Some? && run.lookedUpAt.value <= |writes|
         && response.value.result == LastWrite(writes[..run.lookedUpAt.value], run.req.actionDigest.hash)
         && response.value.result.Some?
         && CallsIn(run.trace) == []
  }

  lemma {:induction false} CachedMakesNoCalls(run: Run, limit: nat)
    requires Shape(run.req, run.pc, run.trace, limit)
    ensures var response := ResponseOf(run.pc);
      response.Some? && response.value.cachedResult ==> CallsIn(run.trace) == [] && response.value.result.Some?
  {
    match run.pc
    case Responding(response) => SettledEffects(run.req, run.trace, response, limit);
    case Finished(response) => FinishedRun(run.req, response, run.trace, limit);
    case _ =>
  }

  /** All calls of a run, those of a MicroVM run under way included. */
  function CallsOf(run: Run): seq<Vm.Call> {
    CallsIn(run.trace) + run.underWay
  }

  /** Every action is run by at most one machine: in every reachable state, also between two calls of a MicroVM
      run, the calls of a run are none, or one launch and then calls for that machine with at most one dispatch
      and nothing after the terminate; and once the MicroVM run is over they end with the terminate. */
  lemma {:induction false} DispatchedAtMostOnce(evs: seq<Event>, limit: nat, r: nat)
    requires RunSystem(INITIAL, evs, limit).Some? && r < |RunSystem(INITIAL, evs, limit).value.runs|
    ensures var run := RunSystem(INITIAL, evs, limit).value.runs[r];
      && Vm.OneMachineSoFar(CallsOf(run)) && !Vm.DispatchesTwice(CallsOf(run))
      && (!run.pc.Running? ==> Vm.Lifecycle(CallsOf(run), limit) && Vm.OneMachine(CallsOf(run)))
  {
    RunKeepsInv(INITIAL, evs, limit);
    var s := RunSystem(INITIAL, evs, limit).value;
    assert RunInv(s, r, limit);
    CallsSoFar(s.runs[r], limit);
  }

  lemma CallsSoFar(run: Run, limit: nat)
    requires Shape(run.req, run.pc, run.trace, limit) && InProtocol(run, limit)
    ensures Vm.OneMachineSoFar(CallsOf(run)) && !Vm.DispatchesTwice(CallsOf(run))
    ensures !run.pc.Running? ==> Vm.Lifecycle(CallsOf(run), limit) && Vm.OneMachine(CallsOf(run))
  {
    if run.pc.Running? {
      CheckedEffects();
      OneMoreEffect(map[], [], [CHECKING], EXECUTING);
      assert run.trace == [CHECKING] + [EXECUTING];
      assert CallsOf(run) == run.underWay;
    } else {
      OneMachineAtRest(run.req, run.pc, run.trace, limit);
      assert CallsOf(run) == CallsIn(run.trace);
    }
    Vm.ProtocolIsOneMachine(CallsOf(run), limit);
  }

  function Progress(stage: O.Stage): nat {
    match stage
    case CacheCheck => 0
    case Executing => 1
    case Completed => 2
  }

  predicate StagesRise(ops: seq<O.Operation>) {
    forall i, j :: 0 <= i < j < |ops| ==> Progress(ops[i].stage) < Progress(ops[j].stage)
  }

  /** Which updates a run has published by now. */
  lemma {:induction false} PublishedSoFar(req: Request, pc: Pc, trace: seq<Effect>, limit: nat)
    requires Shape(req, pc, trace, limit)
    ensures PublishesIn(trace) in {[], [CHECKING], [CHECKING, EXECUTING]} ||
      (pc.Finished? && PublishesIn(trace) in
        {[CHECKING, Publish(O.Completed, Some(pc.response))],
         [CHECKING, EXECUTING, Publish(O.Completed, Some(pc.response))]})
  {
    match pc
    case Entering =>
    case Running =>
      CheckedEffects();
      OneMoreEffect(map[], [], [CHECKING], EXECUTING);
      assert trace == [CHECKING] + [EXECUTING];
    case Storing(_) => ExecutedEffects(trace);
    case Responding(response) => SettledEffects(req, trace, response, limit);
    case Finished(response) => FinishedRun(req, response, trace, limit);
    case _ => CheckedEffects();
  }

  lemma {:induction false} LabelsAt(log: seq<O.Operation>)
    ensures |Labels(log)| == |log|
    ensures forall i :: 0 <= i < |log| ==> Labels(log)[i] == Publish(log[i].stage, log[i].response)
    decreases |log|
  {
    if log != [] { LabelsAt(log[..|log| - 1]); }
  }

  lemma {:induction false} LogStagesRise(e: O.Entry, run: Run, limit: nat)
    requires InStep(e, run) && Shape(run.req, run.pc, run.trace, limit)
    ensures StagesRise(e.log)
  {
    PublishedSoFar(run.req, run.pc, run.trace, limit);
    LabelsAt(e.log);
  }

  lemma {:induction false} ReturnedMeansDelivered(x: O.Waiter, e: O.Entry, made: nat, run: Run, limit: nat)
    requires O.EntryInv(e, made) && O.WaiterInv(x, e) && x.pc.Returned?
    requires InStep(e, run) && Shape(run.req, run.pc, run.trace, limit)
    ensures Delivered(run, x.pc.last, limit)
  {
    FinishedRun(run.req, run.pc.response, run.trace, limit);
    LabelsAt(e.log);
  }

  /** Every stream sees the stages of its operation rise, however many updates it skips; and one that has
      returned was given, last, the response its run finished with, after the run's MicroVM was gone. */
  lemma {:induction false} EveryStreamSeesProgress(evs: seq<Event>, limit: nat, w: nat)
    requires RunSystem(INITIAL, evs, limit).Some? && w < |RunSystem(INITIAL, evs, limit).value.ops.waiters|
    ensures var s := RunSystem(INITIAL, evs, limit).value; var x := s.ops.waiters[w];
      && x.entry < |s.runs| && StagesRise(x.sent)
      && (x.pc.Returned? ==> Delivered(s.runs[x.entry], x.pc.last, limit))
  {
    RunKeepsInv(INITIAL, evs, limit);
    WaiterSees(RunSystem(INITIAL, evs, limit).value, limit, w);
  }

  lemma {:induction false} WaiterSees(s: State, limit: nat, w: nat)
    requires Inv(s, limit) && w < |s.ops.waiters|
    ensures var x := s.ops.waiters[w];
      && x.entry < |s.runs| && StagesRise(x.sent)
      && (x.pc.Returned? ==> Delivered(s.runs[x.entry], x.pc.last, limit))
  {
    var x := s.ops.waiters[w];
    assert O.WaiterAt(s.ops, x) && RunInv(s, x.entry, limit);
    var run, e := s.runs[x.entry], s.ops.entries[x.entry];
    LogStagesRise(e, run, limit);
    SentStagesRise(x, e, s.ops.made);
    if x.pc.Returned? {
      ReturnedMeansDelivered(x, e, s.ops.made, run, limit);
    }
  }

  /** The run is over, its MicroVM gone, and `last` is the update with its response. */
  predicate Delivered(run: Run, last: Option<O.Operation>, limit: nat) {
    && run.pc.Finished? && last.Some?
    && last.value.stage == O.Completed && last.value.response == Some(run.pc.response)
    && Vm.Lifecycle(CallsIn(run.trace), limit) && Vm.OneMachine(CallsIn(run.trace))
  }

  lemma {:induction false} EarlierIdEarlierPlace(e: O.Entry, made: nat, k: nat, m: nat)
    requires O.EntryInv(e, made) && k < |e.log| && m < |e.log| && e.log[k].id < e.log[m].id
    ensures k < m
  {
  }

  lemma {:induction false} SentStagesRise(x: O.Waiter, e: O.Entry, made: nat)
    requires O.EntryInv(e, made) && O.History(x, e) && StagesRise(e.log)
    ensures StagesRise(x.sent)
  {
    forall i, j | 0 <= i < j < |x.sent| ensures Progress(x.sent[i].stage) < Progress(x.sent[j].stage) {
      var k :| 0 <= k < x.seen && e.log[..x.seen][k] == x.sent[i];
      var m :| 0 <= m < x.seen && e.log[..x.seen][m] == x.sent[j];
      assert x.sent[i].id < x.sent[j].id;
      EarlierIdEarlierPlace(e, made, k, m);
    }
  }
}
