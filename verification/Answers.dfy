/** What those who wait for an action are told, and whose action it is
    (internal/server/execution.go: Execute, WaitExecution; internal/server/operations.go: WaitOperation,
    CancelOperation). */
module Answers {
  import opened Digests
  import O = Operations
  import Vm = MicroVm
  import opened Execution
  import opened Server

  // ---- Every finished run ----

  /** In every interleaving a finished run is told in full by what it learned: the cache, or one MicroVM run whose
      result it answers, or the want of a Command; and these are the updates of its operation. */
  lemma {:induction false} EveryRunIsTold(evs: seq<Event>, limit: nat, r: nat)
    requires RunSystem(INITIAL, evs, limit).Some? && r < |RunSystem(INITIAL, evs, limit).value.runs|
    requires RunSystem(INITIAL, evs, limit).value.runs[r].pc.Finished?
    ensures var s := RunSystem(INITIAL, evs, limit).value; var run := s.runs[r];
      && r < |s.ops.entries|
      && Told(run.req, run.inputs, run.pc.response, Labels(s.ops.entries[r].log), CallsIn(run.trace), limit)
  {
    RunKeepsInv(INITIAL, evs, limit);
    var s := RunSystem(INITIAL, evs, limit).value;
    assert RunInv(s, r, limit);
    FinishedIsTold(s.runs[r], limit);
  }

  lemma {:induction false} FinishedIsTold(run: Run, limit: nat)
    requires Traced(run, limit) && run.pc.Finished?
    ensures Told(run.req, run.inputs, run.pc.response, PublishesIn(run.trace), CallsIn(run.trace), limit)
  {
    FinishedIsTraced(run.req, run.inputs, (run.pc, run.trace));
    TracedIsTold(run.req, run.inputs, run.pc.response, run.trace, limit);
  }

  // ---- Whose updates a waiter is sent ----

  /** Everything the waiter was sent, or returned with, is about this operation. */
  predicate HearsOf(x: O.Waiter, name: Text) {
    && (forall i :: 0 <= i < |x.sent| ==> x.sent[i].name == name)
    && (x.pc.Returned? && x.pc.last.Some? ==> x.pc.last.value.name == name)
  }

  lemma {:induction false} HearsOfItsRun(s: State, w: nat, limit: nat)
    requires Inv(s, limit) && w < |s.ops.waiters|
    ensures var x := s.ops.waiters[w]; x.entry < |s.runs| && HearsOf(x, s.runs[x.entry].req.name)
  {
    var x := s.ops.waiters[w];
    assert O.WaiterAt(s.ops, x) && RunInv(s, x.entry, limit);
    var e := s.ops.entries[x.entry];
    forall i | 0 <= i < |x.sent| ensures x.sent[i].name == s.runs[x.entry].req.name {
      var k :| 0 <= k < x.seen && e.log[..x.seen][k] == x.sent[i];
      assert e.log[k] == x.sent[i];
    }
  }

  /** Neither a request nor the kind and the entry of a waiter ever change. */
  predicate Settled(s: State, t: State, r: nat, w: nat)
    requires r < |s.runs| && w < |s.ops.waiters|
  {
    && r < |t.runs| && t.runs[r].req == s.runs[r].req
    && w < |t.ops.waiters| && SameWaiter(s.ops.waiters[w], t.ops.waiters[w])
  }

  predicate SameWaiter(x: O.Waiter, y: O.Waiter) { y.entry == x.entry && y.kind == x.kind }

  lemma {:induction false} StepSettles(s: State, ev: Event, limit: nat, r: nat, w: nat)
    requires Enabled(s, ev, limit) && r < |s.runs| && w < |s.ops.waiters|
    ensures Settled(s, Apply(s, ev, limit), r, w)
  {
  }

  lemma {:induction false} RunSettles(s: State, evs: seq<Event>, limit: nat, r: nat, w: nat)
    requires RunSystem(s, evs, limit).Some? && r < |s.runs| && w < |s.ops.waiters|
    ensures Settled(s, RunSystem(s, evs, limit).value, r, w)
    decreases |evs|
  {
    if evs != [] {
      StepSettles(s, evs[0], limit, r, w);
      RunSettles(Apply(s, evs[0], limit), evs[1..], limit, r, w);
    }
  }

  /** Whoever asks to wait for an operation by its name is only ever told of that operation, and is given, last,
      the response of a run of that name. */
  lemma {:induction false} JoinedHearsItsOperation(s: State, kind: O.Kind, name: Text, evs: seq<Event>, limit: nat)
    requires Inv(s, limit) && Enabled(s, Client(O.Join(kind, name)), limit)
    requires RunSystem(Apply(s, Client(O.Join(kind, name)), limit), evs, limit).Some?
    ensures var t, w := RunSystem(Apply(s, Client(O.Join(kind, name)), limit), evs, limit).value, |s.ops.waiters|;
      && w < |t.ops.waiters| && t.ops.waiters[w].entry < |t.runs|
      && var x := t.ops.waiters[w];
        && x.kind == kind && HearsOf(x, name) && t.runs[x.entry].req.name == name
        && (x.pc.Returned? ==> Delivered(t.runs[x.entry], x.pc.last, limit))
  {
    var ev, w := Client(O.Join(kind, name)), |s.ops.waiters|;
    JoinAttaches(s, kind, name, limit);
    var joined := Apply(s, ev, limit);
    HearsOfLater(joined, evs, limit, s.ops.names[name], w);
  }

  lemma JoinAttaches(s: State, kind: O.Kind, name: Text, limit: nat)
    requires Inv(s, limit) && Enabled(s, Client(O.Join(kind, name)), limit)
    ensures var t, w := Apply(s, Client(O.Join(kind, name)), limit), |s.ops.waiters|;
      && Inv(t, limit) && name in s.ops.names && s.ops.names[name] < |t.runs|
      && t.runs[s.ops.names[name]].req.name == name
      && w < |t.ops.waiters| && t.ops.waiters[w].entry == s.ops.names[name] && t.ops.waiters[w].kind == kind
  {
    StepKeepsInv(s, Client(O.Join(kind, name)), limit);
    assert name in s.ops.names;
  }

  lemma {:induction false} HearsOfLater(s: State, evs: seq<Event>, limit: nat, r: nat, w: nat)
    requires Inv(s, limit) && r < |s.runs| && w < |s.ops.waiters| && s.ops.waiters[w].entry == r
    requires RunSystem(s, evs, limit).Some?
    ensures var t := RunSystem(s, evs, limit).value;
      && Settled(s, t, r, w) && HearsOf(t.ops.waiters[w], s.runs[r].req.name)
      && (t.ops.waiters[w].pc.Returned? ==> Delivered(t.runs[r], t.ops.waiters[w].pc.last, limit))
  {
    var t := RunSystem(s, evs, limit).value;
    RunKeepsInv(s, evs, limit);
    RunSettles(s, evs, limit, r, w);
    HearsOfItsRun(t, w, limit);
    WaiterSees(t, limit, w);
  }

  /** The stream that Execute returns is only ever sent updates of the operation made for its request, and is
      given, last, the response of the run of that request. */
  lemma {:induction false} ExecutedHearsItsRun(s: State, req: Request, evs: seq<Event>, limit: nat)
    requires Inv(s, limit) && Enabled(s, Execute(req), limit)
    requires RunSystem(Apply(s, Execute(req), limit), evs, limit).Some?
    ensures var t, r, w := RunSystem(Apply(s, Execute(req), limit), evs, limit).value, |s.runs|, |s.ops.waiters|;
      && r < |t.runs| && t.runs[r].req == req
      && w < |t.ops.waiters| && t.ops.waiters[w].kind.Stream? && t.ops.waiters[w].entry == r
      && HearsOf(t.ops.waiters[w], req.name)
      && (t.ops.waiters[w].pc.Returned? ==> Delivered(t.runs[r], t.ops.waiters[w].pc.last, limit))
  {
    var r, w := |s.runs|, |s.ops.waiters|;
    StepKeepsInv(s, Execute(req), limit);
    HearsOfLater(Apply(s, Execute(req), limit), evs, limit, r, w);
  }

  // ---- Cancellation ----

  /** Somebody asked to cancel the operation of this name. */
  predicate Asked(evs: seq<Event>, name: Text) {
    exists i :: 0 <= i < |evs| && evs[i] == Client(O.Cancel(name))
  }

  lemma {:induction false} CancelledWasAsked(s: State, evs: seq<Event>, limit: nat, r: nat)
    requires Inv(s, limit) && RunSystem(s, evs, limit).Some? && r < |RunSystem(s, evs, limit).value.runs|
    requires r in RunSystem(s, evs, limit).value.ops.cancelled
    ensures r in s.ops.cancelled || Asked(evs, RunSystem(s, evs, limit).value.runs[r].req.name)
    decreases |evs|
  {
    if evs != [] {
      var next := Apply(s, evs[0], limit);
      StepKeepsInv(s, evs[0], limit);
      CancelledWasAsked(next, evs[1..], limit, r);
      var name := RunSystem(s, evs, limit).value.runs[r].req.name;
      if Asked(evs[1..], name) {
        var i :| 0 <= i < |evs[1..]| && evs[1..][i] == Client(O.Cancel(name));
        assert evs[i + 1] == Client(O.Cancel(name));
      } else if r !in s.ops.cancelled {
        OnlyCancelCancels(s, evs[0], limit, r);
        RequestKept(next, evs[1..], limit, r);
        assert evs[0] == Client(O.Cancel(name));
      }
    }
  }

  lemma {:induction false} OnlyCancelCancels(s: State, ev: Event, limit: nat, r: nat)
    requires Inv(s, limit) && Enabled(s, ev, limit)
    requires r !in s.ops.cancelled && r in Apply(s, ev, limit).ops.cancelled
    ensures r < |s.runs| && ev == Client(O.Cancel(s.runs[r].req.name)) && Apply(s, ev, limit).runs == s.runs
  {
  }

  lemma {:induction false} RequestKept(s: State, evs: seq<Event>, limit: nat, r: nat)
    requires RunSystem(s, evs, limit).Some? && r < |s.runs|
    ensures r < |RunSystem(s, evs, limit).value.runs| && RunSystem(s, evs, limit).value.runs[r].req == s.runs[r].req
    decreases |evs|
  {
    if evs != [] {
      RequestKept(Apply(s, evs[0], limit), evs[1..], limit, r);
    }
  }

  /** A run answers Canceled only if somebody asked to cancel the operation of its name. */
  lemma {:induction false} CanceledOnlyByRequest(evs: seq<Event>, limit: nat, r: nat)
    requires RunSystem(INITIAL, evs, limit).Some? && r < |RunSystem(INITIAL, evs, limit).value.runs|
    ensures var run := RunSystem(INITIAL, evs, limit).value.runs[r];
      run.pc.Finished? && run.pc.response.code == O.Canceled ==> Asked(evs, run.req.name)
  {
    RunKeepsInv(INITIAL, evs, limit);
    assert RunInv(RunSystem(INITIAL, evs, limit).value, r, limit);
    if r in RunSystem(INITIAL, evs, limit).value.ops.cancelled {
      CancelledWasAsked(INITIAL, evs, limit, r);
    }
  }

  /** A cancel request reaches the run of that name: from then on its context is cancelled. */
  lemma {:induction false} CancelReachesItsRun(s: State, name: Text, evs: seq<Event>, limit: nat)
    requires Inv(s, limit) && Enabled(s, Client(O.Cancel(name)), limit)
    requires RunSystem(Apply(s, Client(O.Cancel(name)), limit), evs, limit).Some?
    ensures var t := RunSystem(Apply(s, Client(O.Cancel(name)), limit), evs, limit).value;
      exists r :: r in t.ops.cancelled && r < |t.runs| && t.runs[r].req.name == name && s.ops.names[name] == r
  {
    var r := s.ops.names[name];
    var next := Apply(s, Client(O.Cancel(name)), limit);
    RequestKept(next, evs, limit, r);
    CancelledStays(next, evs, limit, r);
  }

  lemma {:induction false} CancelledStays(s: State, evs: seq<Event>, limit: nat, r: nat)
    requires RunSystem(s, evs, limit).Some? && r in s.ops.cancelled
    ensures r in RunSystem(s, evs, limit).value.ops.cancelled
    decreases |evs|
  {
    if evs != [] {
      CancelledStays(Apply(s, evs[0], limit), evs[1..], limit, r);
    }
  }

  // ---- Deletion ----

  /** Nobody starts another operation of this name. */
  predicate NotAgain(evs: seq<Event>, name: Text) {
    forall i :: 0 <= i < |evs| ==> !(evs[i].Execute? && evs[i].req.name == name)
  }

  /** A deleted operation cannot be found again, to wait for it, to cancel it, or to delete it, unless another one
      gets its name. */
  lemma {:induction false} DeletedIsGone(s: State, name: Text, evs: seq<Event>, limit: nat, kind: O.Kind)
    requires Enabled(s, Client(O.Delete(name)), limit) && NotAgain(evs, name)
    requires RunSystem(Apply(s, Client(O.Delete(name)), limit), evs, limit).Some?
    ensures var t := RunSystem(Apply(s, Client(O.Delete(name)), limit), evs, limit).value;
      && !Enabled(t, Client(O.Join(kind, name)), limit)
      && !Enabled(t, Client(O.Cancel(name)), limit) && !Enabled(t, Client(O.Delete(name)), limit)
  {
    StaysUnknown(Apply(s, Client(O.Delete(name)), limit), name, evs, limit);
  }

  lemma {:induction false} StaysUnknown(s: State, name: Text, evs: seq<Event>, limit: nat)
    requires name !in s.ops.names && NotAgain(evs, name) && RunSystem(s, evs, limit).Some?
    ensures name !in RunSystem(s, evs, limit).value.ops.names
    decreases |evs|
  {
    if evs != [] {
      assert !(evs[0].Execute? && evs[0].req.name == name);
      assert NotAgain(evs[1..], name);
      StaysUnknown(Apply(s, evs[0], limit), name, evs[1..], limit);
    }
  }
}
