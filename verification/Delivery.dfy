/** The response of every action reaches whoever waits for it: the progress of the whole server
    (internal/server/execution.go and internal/server/operations.go). */
module Delivery {
  import opened Digests
  import O = Operations
  import Vm = MicroVm
  import Execution
  import opened Server

  // ---- How much there is left to do ----

  /** The most steps a run takes from here on, the calls of its MicroVM run among them. */
  function RunLeft(run: Run, limit: nat): nat
    requires InProtocol(run, limit)
  {
    Execution.StepsLeft(run.pc) +
      if run.pc.Running? then Vm.CallsLeft(Vm.After(Vm.NoVm, run.underWay, limit).value, limit)
      else if Execution.StepsLeft(run.pc) > 3 then Vm.CallsLeft(Vm.NoVm, limit)
      else 0
  }

  /** The most updates a run publishes from here on. */
  function UpdatesLeft(pc: Execution.Pc): nat {
    match pc
    case Entering => 3
    case Running => 1
    case Storing(_) => 1
    case Responding(_) => 1
    case Finished(_) => 0
    case _ => 2
  }

  /** The most updates an entry will have. */
  function MostUpdates(e: O.Entry, pc: Execution.Pc): nat {
    |e.log| + UpdatesLeft(pc)
  }

  function Beyond(most: nat, seen: nat): nat {
    if seen <= most then most - seen else 0
  }

  /** The most steps a waiter takes from here on, if its entry will have no more updates than `most`: three for
      each update, and two more for a first turn that finds none. */
  function WaiterLeft(x: O.Waiter, most: nat): nat {
    match x.pc
    case Looping => 3 * Beyond(most, x.seen) + if x.turns == 0 then 2 else 0
    case Sending(_, _, c) => 3 * Beyond(most, c) + 2
    case Blocked(_) => 3 * Beyond(most, x.seen) + 1
    case Returned(_) => 0
    case Failed => 0
  }

  predicate Waits(s: State, w: nat) {
    && w < |s.ops.waiters| && !s.ops.waiters[w].pc.Failed?
    && s.ops.waiters[w].entry < |s.runs| && s.ops.waiters[w].entry < |s.ops.entries|
  }

  /** The most steps that a waiter and the run it waits for take from here on. */
  function Left(s: State, w: nat, limit: nat): nat
    requires Waits(s, w) && InProtocol(s.runs[s.ops.waiters[w].entry], limit)
  {
    var x := s.ops.waiters[w];
    RunLeft(s.runs[x.entry], limit) + WaiterLeft(x, MostUpdates(s.ops.entries[x.entry], s.runs[x.entry].pc))
  }

  /** A step of run r or of waiter w. */
  predicate Own(r: nat, w: nat, ev: Event) {
    match ev
    case Take(q, _) => q == r
    case Reach(q, _) => q == r
    case Client(op) => O.OwnStep(w, op)
    case _ => false
  }

  predicate Abandons(w: nat, ev: Event) {
    ev.Client? && O.Abandons(w, ev.ev)
  }

  function Work(r: nat, w: nat, evs: seq<Event>): nat
    decreases |evs|
  {
    if evs == [] then 0 else (if Own(r, w, evs[0]) then 1 else 0) + Work(r, w, evs[1..])
  }

  // ---- Every step leaves less to do ----

  lemma AdvanceLowersLeft(run: Run, input: Execution.Input, writes: nat, limit: nat)
    requires Execution.Advance(run.req, run.pc, input).Some? && InProtocol(run, limit)
    ensures InProtocol(Moved(run, input, writes), limit)
    ensures RunLeft(Moved(run, input, writes), limit) < RunLeft(run, limit)
  {
  }

  /** What a run publishes it need not publish again. */
  lemma AdvanceUpdates(req: Execution.Request, pc: Execution.Pc, input: Execution.Input)
    requires Execution.Advance(req, pc, input).Some?
    ensures var (next, effect) := Execution.Advance(req, pc, input).value;
      UpdatesLeft(next) + (if effect.Some? && effect.value.Publish? then 1 else 0) <= UpdatesLeft(pc)
  {
  }

  lemma {:induction false} TakeUpdates(s: State, r: nat, input: Execution.Input, limit: nat)
    requires Enabled(s, Take(r, input), limit)
    ensures var t := Apply(s, Take(r, input), limit);
      && r < |t.runs| && r < |t.ops.entries|
      && t.runs[r] == Moved(s.runs[r], input, |s.writes|)
      && MostUpdates(t.ops.entries[r], t.runs[r].pc) <= MostUpdates(s.ops.entries[r], s.runs[r].pc)
  {
    AdvanceUpdates(s.runs[r].req, s.runs[r].pc, input);
  }

  lemma MoreUpdatesMoreLeft(x: O.Waiter, most: nat, more: nat)
    requires most <= more
    ensures WaiterLeft(x, most) <= WaiterLeft(x, more)
  {
  }

  /** A step of the run leaves its waiters where they are. */
  lemma {:induction false} TakeLowersLeft(s: State, w: nat, input: Execution.Input, limit: nat)
    requires Waits(s, w) && InProtocol(s.runs[s.ops.waiters[w].entry], limit)
    requires Enabled(s, Take(s.ops.waiters[w].entry, input), limit)
    ensures var t := Apply(s, Take(s.ops.waiters[w].entry, input), limit);
      && Waits(t, w) && t.ops.waiters[w] == s.ops.waiters[w] && InProtocol(t.runs[t.ops.waiters[w].entry], limit)
      && Left(t, w, limit) < Left(s, w, limit)
  {
    var x := s.ops.waiters[w];
    var r := x.entry;
    var t := Apply(s, Take(r, input), limit);
    TakeUpdates(s, r, input, limit);
    AdvanceLowersLeft(s.runs[r], input, |s.writes|, limit);
    MoreUpdatesMoreLeft(x, MostUpdates(t.ops.entries[r], t.runs[r].pc), MostUpdates(s.ops.entries[r], s.runs[r].pc));
  }

  lemma {:induction false} ReachLowersLeft(s: State, w: nat, call: Vm.Call, limit: nat)
    requires Waits(s, w) && InProtocol(s.runs[s.ops.waiters[w].entry], limit)
    requires Enabled(s, Reach(s.ops.waiters[w].entry, call), limit)
    ensures var t := Apply(s, Reach(s.ops.waiters[w].entry, call), limit);
      && Waits(t, w) && t.ops.waiters[w] == s.ops.waiters[w] && InProtocol(t.runs[t.ops.waiters[w].entry], limit)
      && Left(t, w, limit) < Left(s, w, limit)
  {
    Vm.CallLowersLeft(Vm.NoVm, s.runs[s.ops.waiters[w].entry].underWay, call, limit);
  }

  lemma SnapshotLowersWaiter(x: O.Waiter, e: O.Entry, made: nat, most: nat)
    requires O.EntryInv(e, made) && O.WaiterInv(x, e) && x.pc.Looping? && |e.log| <= most
    ensures WaiterLeft(O.AfterSnapshot(x, e), most) < WaiterLeft(x, most)
  {
    if x.kind.Stream? && (e.latest.None? || O.SameMessage(e.latest, x.lastSent)) {
      O.NothingNew(x, e, made);
    }
  }

  lemma WakeLowersWaiter(x: O.Waiter, e: O.Entry, made: nat, most: nat)
    requires O.EntryInv(e, made) && O.WaiterInv(x, e) && x.pc.Blocked?
    ensures WaiterLeft(x.(pc := O.Looping), most) < WaiterLeft(x, most)
  {
  }

  lemma SendLowersWaiter(x: O.Waiter, most: nat)
    requires x.pc.Sending?
    ensures WaiterLeft(O.AfterSend(x, true), most) < WaiterLeft(x, most)
  {
  }

  /** The waiter after a step of its own. */
  function Stepped(x: O.Waiter, e: O.Entry, op: O.Event): O.Waiter
    requires op.Snapshot? || (op.Send? && x.pc.Sending?) || op.Wake?
  {
    match op
    case Snapshot(_) => O.AfterSnapshot(x, e)
    case Send(_, ok) => O.AfterSend(x, ok)
    case Wake(_) => x.(pc := O.Looping)
  }

  lemma OwnStepMeans(s: O.State, w: nat, op: O.Event)
    requires O.Enabled(s, op) && O.OwnStep(w, op) && w < |s.waiters| && s.waiters[w].entry < |s.entries|
    ensures O.Apply(s, op).waiters[w] == Stepped(s.waiters[w], s.entries[s.waiters[w].entry], op)
  {
  }

  lemma OwnStepLowersWaiter(s: O.State, w: nat, op: O.Event, most: nat)
    requires O.Inv(s) && w < |s.waiters| && O.Enabled(s, op) && O.OwnStep(w, op)
    requires |s.entries[s.waiters[w].entry].log| <= most
    ensures var x, y := s.waiters[w], O.Apply(s, op).waiters[w];
      y.entry == x.entry && !y.pc.Failed? && WaiterLeft(y, most) < WaiterLeft(x, most)
  {
    var x := s.waiters[w];
    assert O.WaiterAt(s, x);
    OwnStepMeans(s, w, op);
    match op
    case Snapshot(_) => SnapshotLowersWaiter(x, s.entries[x.entry], s.made, most);
    case Wake(_) => WakeLowersWaiter(x, s.entries[x.entry], s.made, most);
    case Send(_, _) => SendLowersWaiter(x, most);
  }

  lemma {:induction false} ClientLowersLeft(s: State, w: nat, op: O.Event, limit: nat)
    requires Inv(s, limit) && Waits(s, w) && InProtocol(s.runs[s.ops.waiters[w].entry], limit)
    requires Enabled(s, Client(op), limit) && !O.Abandons(w, op)
    ensures var t := Apply(s, Client(op), limit);
      && Waits(t, w) && t.ops.waiters[w].entry == s.ops.waiters[w].entry
      && InProtocol(t.runs[t.ops.waiters[w].entry], limit)
      && Left(t, w, limit) + (if O.OwnStep(w, op) then 1 else 0) <= Left(s, w, limit)
  {
    var x := s.ops.waiters[w];
    ClientTouchesNoEntry(s.ops, op);
    if O.OwnStep(w, op) {
      OwnStepLowersWaiter(s.ops, w, op, MostUpdates(s.ops.entries[x.entry], s.runs[x.entry].pc));
    } else {
      O.OtherStepsLeaveWaiter(s.ops, w, op);
    }
  }

  /** Whatever others do changes neither the waiter nor the run it waits for. */
  lemma {:induction false} OthersLeaveBoth(s: State, w: nat, ev: Event, limit: nat)
    requires Waits(s, w) && |s.runs| == |s.ops.entries| && Enabled(s, ev, limit)
    requires !ev.Client? && !Own(s.ops.waiters[w].entry, w, ev)
    ensures var t, r := Apply(s, ev, limit), s.ops.waiters[w].entry;
      && Waits(t, w) && t.ops.waiters[w] == s.ops.waiters[w]
      && t.runs[r] == s.runs[r] && t.ops.entries[r] == s.ops.entries[r]
  {
  }

  lemma {:induction false} StepLowersLeft(s: State, w: nat, ev: Event, limit: nat)
    requires Inv(s, limit) && Waits(s, w) && InProtocol(s.runs[s.ops.waiters[w].entry], limit)
    requires Enabled(s, ev, limit) && !Abandons(w, ev)
    ensures var t, r := Apply(s, ev, limit), s.ops.waiters[w].entry;
      && Waits(t, w) && t.ops.waiters[w].entry == r && InProtocol(t.runs[r], limit)
      && Left(t, w, limit) + (if Own(r, w, ev) then 1 else 0) <= Left(s, w, limit)
  {
    var r := s.ops.waiters[w].entry;
    if ev.Client? {
      ClientLowersLeft(s, w, ev.ev, limit);
    } else if !Own(r, w, ev) {
      OthersLeaveBoth(s, w, ev, limit);
    } else if ev.Take? {
      TakeLowersLeft(s, w, ev.input, limit);
    } else {
      ReachLowersLeft(s, w, ev.call, limit);
    }
  }

  lemma {:induction false} WorkLowersLeft(s: State, evs: seq<Event>, w: nat, limit: nat)
    requires Inv(s, limit) && Waits(s, w) && InProtocol(s.runs[s.ops.waiters[w].entry], limit)
    requires RunSystem(s, evs, limit).Some? && forall i :: 0 <= i < |evs| ==> !Abandons(w, evs[i])
    ensures var t, r := RunSystem(s, evs, limit).value, s.ops.waiters[w].entry;
      && Waits(t, w) && t.ops.waiters[w].entry == r && InProtocol(t.runs[r], limit)
      && Work(r, w, evs) + Left(t, w, limit) <= Left(s, w, limit)
    decreases |evs|
  {
    if evs != [] {
      StepKeepsInv(s, evs[0], limit);
      StepLowersLeft(s, w, evs[0], limit);
      WorkLowersLeft(Apply(s, evs[0], limit), evs[1..], w, limit);
    }
  }

  // ---- How much it is at most ----

  lemma {:induction false} AtMostThreeUpdates(e: O.Entry, run: Run, limit: nat)
    requires InStep(e, run) && Execution.Shape(run.req, run.pc, run.trace, limit)
    ensures MostUpdates(e, run.pc) <= 3
  {
    LabelsAt(e.log);
    if run.trace == [Execution.CHECKING] {
      Execution.CheckedEffects();
    } else if run.pc.Entering? {
      assert run.trace == [];
    } else {
      PublishedSoFar(run.req, run.pc, run.trace, limit);
    }
  }

  // ---- Somebody can always go on ----

  /** A next step of the run, or of the waiter once the run has finished. */
  function NextOwn(s: State, w: nat, limit: nat): Event
    requires Waits(s, w) && InProtocol(s.runs[s.ops.waiters[w].entry], limit)
  {
    var r := s.ops.waiters[w].entry;
    if s.runs[r].pc.Finished? then Client(O.NextStep(s.ops, w)) else NextOfRun(s, r, limit)
  }

  function NextOfRun(s: State, r: nat, limit: nat): Event
    requires r < |s.runs| && InProtocol(s.runs[r], limit)
  {
    match s.runs[r].pc
    case LookingUp => Take(r, Execution.Cached(None))
    case Fetching => Take(r, Execution.Command(Execution.CommandFound))
    case Storing(_) => Take(r, Execution.Stored(true))
    case Running => NextCall(s, r, limit)
    case _ => Take(r, Execution.Go)
  }

  /** A MicroVM run can always be given up: a call may fail, or the machine is terminated. */
  function NextCall(s: State, r: nat, limit: nat): Event
    requires r < |s.runs| && InProtocol(s.runs[r], limit)
  {
    var calls := s.runs[r].underWay;
    match Vm.After(Vm.NoVm, calls, limit).value
    case NoVm => Reach(r, Vm.LaunchFailed(false))
    case Up(id, Starting, 0) => Reach(r, Vm.Get(id, Vm.Failed(false)))
    case Up(id, Started, _) => Reach(r, Vm.Token(id, Vm.Failed(false)))
    case Up(id, _, _) => Reach(r, Vm.Terminate(id))
    case Over => Take(r, Execution.Ran(calls, Vm.ReportOf(calls), r in s.ops.cancelled))
  }

  lemma NextCallEnabled(s: State, r: nat, limit: nat)
    requires r < |s.runs| && r < |s.ops.entries| && RunInv(s, r, limit) && s.runs[r].pc.Running? && limit > 0
    ensures Enabled(s, NextCall(s, r, limit), limit)
  {
    var calls, ev := s.runs[r].underWay, NextCall(s, r, limit);
    if ev.Reach? {
      Vm.AfterAppend(Vm.NoVm, calls, [ev.call], limit);
      Vm.AfterOne(Vm.After(Vm.NoVm, calls, limit).value, ev.call, limit);
    } else {
      Vm.SomethingToReport(calls, limit);
    }
  }

  lemma NextOfRunEnabled(s: State, r: nat, limit: nat)
    requires r < |s.runs| && r < |s.ops.entries| && RunInv(s, r, limit) && !s.runs[r].pc.Finished? && limit > 0
    ensures Enabled(s, NextOfRun(s, r, limit), limit)
    ensures NextOfRun(s, r, limit).Take? || NextOfRun(s, r, limit).Reach?
    ensures NextOfRun(s, r, limit).r == r
  {
    if s.runs[r].pc.Running? {
      NextCallEnabled(s, r, limit);
    }
  }

  lemma NextOfWaiterEnabled(s: State, w: nat, limit: nat)
    requires O.Inv(s.ops) && Waits(s, w) && !s.ops.waiters[w].pc.Returned?
    requires s.ops.entries[s.ops.waiters[w].entry].done
    ensures Enabled(s, Client(O.NextStep(s.ops, w)), limit) && O.OwnStep(w, O.NextStep(s.ops, w))
  {
    O.NextStepEnabled(s.ops, w);
  }

  lemma NextOwnEnabled(s: State, w: nat, limit: nat)
    requires O.Inv(s.ops) && Waits(s, w) && RunInv(s, s.ops.waiters[w].entry, limit) && limit > 0
    requires !s.ops.waiters[w].pc.Returned?
    ensures Enabled(s, NextOwn(s, w, limit), limit) && Own(s.ops.waiters[w].entry, w, NextOwn(s, w, limit))
  {
    var r := s.ops.waiters[w].entry;
    if s.runs[r].pc.Finished? {
      NextOfWaiterEnabled(s, w, limit);
    } else {
      NextOfRunEnabled(s, r, limit);
    }
  }

  lemma WaitsInProtocol(s: State, w: nat, limit: nat)
    requires Inv(s, limit) && w < |s.ops.waiters| && !s.ops.waiters[w].pc.Failed?
    ensures Waits(s, w) && RunInv(s, s.ops.waiters[w].entry, limit)
  {
    assert O.WaiterAt(s.ops, s.ops.waiters[w]);
  }

  lemma LeftAtMost(s: State, w: nat, limit: nat)
    requires Waits(s, w) && RunInv(s, s.ops.waiters[w].entry, limit)
    ensures Left(s, w, limit) <= 2 * limit + 24
  {
    var r := s.ops.waiters[w].entry;
    AtMostThreeUpdates(s.ops.entries[r], s.runs[r], limit);
  }

  lemma DeliveredOrEnabled(s: State, w: nat, limit: nat)
    requires Inv(s, limit) && Waits(s, w) && InProtocol(s.runs[s.ops.waiters[w].entry], limit) && limit > 0
    ensures var x := s.ops.waiters[w];
      if x.pc.Returned? then Delivered(s.runs[x.entry], x.pc.last, limit)
      else Enabled(s, NextOwn(s, w, limit), limit) && Own(x.entry, w, NextOwn(s, w, limit))
  {
    if s.ops.waiters[w].pc.Returned? {
      WaiterSees(s, limit, w);
    } else {
      WaitsInProtocol(s, w, limit);
      NextOwnEnabled(s, w, limit);
    }
  }

  /** Whoever waits for an action gets its response.  From any reachable state, whatever the other runs, clients
      and writers do in between, a waiter whose client stays and the run it waits for take together at most
      2 * limit + 24 steps, every call to the cloud and the agent counted, if a waiting loop polls at most `limit`
      times, and at least once; until the waiter has returned one of
      the two can go on; and then it was given the response of the finished run, with the machine gone. */
  lemma {:induction false} EveryResponseIsDelivered(s: State, evs: seq<Event>, w: nat, limit: nat)
    requires Inv(s, limit) && w < |s.ops.waiters| && !s.ops.waiters[w].pc.Failed? && limit > 0
    requires RunSystem(s, evs, limit).Some? && forall i :: 0 <= i < |evs| ==> !Abandons(w, evs[i])
    ensures var t, r := RunSystem(s, evs, limit).value, s.ops.waiters[w].entry;
      && Waits(t, w) && t.ops.waiters[w].entry == r && InProtocol(t.runs[r], limit)
      && Work(r, w, evs) <= 2 * limit + 24
      && (if t.ops.waiters[w].pc.Returned? then Delivered(t.runs[r], t.ops.waiters[w].pc.last, limit)
          else Enabled(t, NextOwn(t, w, limit), limit) && Own(r, w, NextOwn(t, w, limit)))
  {
    WaitsInProtocol(s, w, limit);
    LeftAtMost(s, w, limit);
    WorkLowersLeft(s, evs, w, limit);
    RunKeepsInv(s, evs, limit);
    DeliveredOrEnabled(RunSystem(s, evs, limit).value, w, limit);
  }
}
