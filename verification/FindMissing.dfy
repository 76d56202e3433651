/** FindMissingBlobs (internal/server/cas_service.go): one goroutine per digest, at most 32 at a time, each
    with its own slot of the answer, while other calls put blobs.  Every statement of a goroutine that touches
    shared memory is one step. */
module FindMissing {
  import opened Digests
  import Cas

  const CONCURRENCY: nat := 32

  /** What Contains tells: present, absent, or an error. */
  datatype Answer = Yes | No | Failure(error: nat)

  /** A goroutine: its check, its write, and its two deferred calls. */
  datatype Worker = Idle | Checking | Told(a: Answer) | Recorded(a: Answer) | Released(a: Answer) | Gone(a: Answer)

  datatype Reply = Missing(digests: seq<Digest>) | Failed(error: nat)

  /** Where the handler is: at wg.Add, at the send on the semaphore, at the go statement, in wg.Wait, or done. */
  datatype Main = Adding(i: nat) | Acquiring(i: nat) | Spawning(i: nat) | Waiting | Replied(reply: Reply)

  /** `history` holds every value the store has had since the call began. */
  datatype State = State(main: Main, workers: seq<Worker>, sem: nat, wg: nat,
    missing: seq<Option<Digest>>, firstErr: Option<nat>, blobs: Cas.Blobs, history: seq<Cas.Blobs>)

  datatype Event =
    | Add
    | Acquire
    | Spawn
    | Check(i: nat, fault: Option<nat>)
    | Record(i: nat)
    | Release(i: nat)
    | Exit(i: nat)
    | Answer
    | Put(d: Digest, data: Bytes)

  function Next(i: nat, n: nat): Main {
    if i < n then Adding(i) else Waiting
  }

  function Initial(n: nat, blobs: Cas.Blobs): State {
    State(Next(0, n), seq(n, i => Idle), 0, 0, seq(n, i => None), None, blobs, [blobs])
  }

  /** The digests whose slot was filled, in order. */
  function Compact(missing: seq<Option<Digest>>): seq<Digest> {
    if missing == [] then []
    else (if missing[0].Some? then [missing[0].value] else []) + Compact(missing[1..])
  }

  /** What the getters read of an entry of the request: a nil digest has no hash and size 0. */
  function Target(d: Option<Digest>): Digest {
    match d
    case None => Digest([], 0)
    case Some(digest) => digest
  }

  function Ask(m: Cas.Blobs, d: Digest, fault: Option<nat>): Answer {
    if fault.Some? then Failure(fault.value) else if Cas.Present(m, d) then Yes else No
  }

  predicate Enabled(digests: seq<Option<Digest>>, s: State, ev: Event) {
    match ev
    case Add => s.main.Adding?
    case Acquire => s.main.Acquiring? && s.sem < CONCURRENCY
    case Spawn => s.main.Spawning? && s.main.i < |s.workers|
    case Check(i, _) => i < |s.workers| && i < |digests| && s.workers[i].Checking?
    case Record(i) => i < |s.workers| && i < |digests| && i < |s.missing| && s.workers[i].Told?
    case Release(i) => i < |s.workers| && s.workers[i].Recorded? && s.sem > 0
    case Exit(i) => i < |s.workers| && s.workers[i].Released? && s.wg > 0
    case Answer => s.main.Waiting? && s.wg == 0
    case Put(_, _) => !s.main.Replied?
  }

  function Apply(digests: seq<Option<Digest>>, s: State, ev: Event): State
    requires Enabled(digests, s, ev)
  {
    match ev
    case Add => s.(wg := s.wg + 1, main := Acquiring(s.main.i))
    case Acquire => s.(sem := s.sem + 1, main := Spawning(s.main.i))
    case Spawn => s.(workers := s.workers[s.main.i := Checking], main := Next(s.main.i + 1, |digests|))
    case Check(i, fault) => s.(workers := s.workers[i := Told(Ask(s.blobs, Target(digests[i]), fault))])
    case Record(i) =>
      var t := s.(workers := s.workers[i := Recorded(s.workers[i].a)]);
      (match s.workers[i].a
       case Yes => t
       case No => t.(missing := s.missing[i := digests[i]])
       case Failure(e) => if s.firstErr.None? then t.(firstErr := Some(e)) else t)
    case Release(i) => s.(workers := s.workers[i := Released(s.workers[i].a)], sem := s.sem - 1)
    case Exit(i) => s.(workers := s.workers[i := Gone(s.workers[i].a)], wg := s.wg - 1)
    case Answer =>
      s.(main := Replied(if s.firstErr.Some? then Failed(s.firstErr.value) else Missing(Compact(s.missing))))
    case Put(d, data) =>
      var after := Cas.Stored(s.blobs, d, data);
      s.(blobs := after, history := s.history + [after])
  }

  function Run(digests: seq<Option<Digest>>, s: State, evs: seq<Event>): Option<State>
    decreases |evs|
  {
    if evs == [] then Some(s)
    else if Enabled(digests, s, evs[0]) then Run(digests, Apply(digests, s, evs[0]), evs[1..])
    else None
  }

  // ---- Sums over the goroutines ----

  function Total(workers: seq<Worker>, weight: Worker -> nat): nat {
    if workers == [] then 0 else weight(workers[0]) + Total(workers[1..], weight)
  }

  lemma {:induction false} TotalUpdate(workers: seq<Worker>, weight: Worker -> nat, i: nat, w: Worker)
    requires i < |workers|
    ensures Total(workers[i := w], weight) + weight(workers[i]) == Total(workers, weight) + weight(w)
    decreases |workers|
  {
    if i == 0 {
      assert workers[0 := w][1..] == workers[1..];
    } else {
      assert workers[i := w][1..] == workers[1..][i - 1 := w];
      TotalUpdate(workers[1..], weight, i - 1, w);
    }
  }

  lemma {:induction false} TotalWitness(workers: seq<Worker>, weight: Worker -> nat) returns (i: nat)
    requires Total(workers, weight) > 0
    ensures i < |workers| && weight(workers[i]) > 0
    decreases |workers|
  {
    if weight(workers[0]) > 0 {
      i := 0;
    } else {
      i := TotalWitness(workers[1..], weight);
      i := i + 1;
    }
  }

  lemma {:induction false} TotalConstant(n: nat, weight: Worker -> nat)
    ensures Total(seq(n, i => Idle), weight) == n * weight(Idle)
    decreases n
  {
    if n > 0 {
      assert seq(n, i => Idle)[1..] == seq(n - 1, i => Idle);
      TotalConstant(n - 1, weight);
      assert n * weight(Idle) == weight(Idle) + (n - 1) * weight(Idle);
    }
  }

  /** Holds a token of the semaphore. */
  function Token(w: Worker): nat { if w.Checking? || w.Told? || w.Recorded? then 1 else 0 }

  /** Still counted by the wait group. */
  function Awaited(w: Worker): nat { if Token(w) == 1 || w.Released? then 1 else 0 }

  function InFlight(w: Worker): nat { if w.Checking? then 1 else 0 }

  /** Steps a goroutine has yet to take; one not started counts its three in the handler's loop too. */
  function StepsLeft(w: Worker): nat {
    match w
    case Idle => 5
    case Checking => 4
    case Told(_) => 3
    case Recorded(_) => 2
    case Released(_) => 1
    case Gone(_) => 0
  }

  // ---- Invariant ----

  function Started(main: Main, n: nat): nat {
    match main
    case Adding(i) => i
    case Acquiring(i) => i
    case Spawning(i) => i
    case _ => n
  }

  ghost predicate Absent(history: seq<Cas.Blobs>, d: Digest) {
    exists k :: 0 <= k < |history| && !Cas.Present(history[k], d)
  }

  /** What an answer is good for. */
  ghost predicate Sound(a: Answer, d: Digest, blobs: Cas.Blobs, history: seq<Cas.Blobs>) {
    match a
    case Yes => Cas.Present(blobs, d)
    case No => Absent(history, d)
    case Failure(_) => true
  }

  predicate Wrote(w: Worker) { w.Recorded? || w.Released? || w.Gone? }

  predicate Answered(w: Worker) { w.Told? || Wrote(w) }

  ghost predicate SlotInv(d: Option<Digest>, w: Worker, slot: Option<Digest>, firstErr: Option<nat>, blobs: Cas.Blobs,
      history: seq<Cas.Blobs>)
  {
    && slot == (if Wrote(w) && w.a.No? then d else None)
    && (Answered(w) ==> Sound(w.a, Target(d), blobs, history))
    && (Wrote(w) && w.a.Failure? ==> firstErr.Some?)
  }

  predicate Errs(w: Worker, e: nat) { Wrote(w) && w.a == Failure(e) }

  ghost predicate Counted(s: State) {
    && s.sem == Total(s.workers, Token) + (if s.main.Spawning? then 1 else 0)
    && s.sem <= CONCURRENCY
    && s.wg == Total(s.workers, Awaited) + (if s.main.Acquiring? || s.main.Spawning? then 1 else 0)
  }

  ghost predicate Slots(digests: seq<Option<Digest>>, s: State) {
    && |s.workers| == |digests| && |s.missing| == |digests|
    && forall i :: 0 <= i < |digests| ==>
         SlotInv(digests[i], s.workers[i], s.missing[i], s.firstErr, s.blobs, s.history)
  }

  ghost predicate FirstError(s: State) {
    s.firstErr.Some? ==> exists i :: 0 <= i < |s.workers| && Errs(s.workers[i], s.firstErr.value)
  }

  ghost predicate Scheduled(digests: seq<Option<Digest>>, s: State) {
    && |s.workers| == |digests|
    && Started(s.main, |digests|) <= |digests|
    && (s.main.Adding? || s.main.Acquiring? || s.main.Spawning? ==> s.main.i < |digests|)
    && forall i :: 0 <= i < |digests| ==> (s.workers[i].Idle? <==> Started(s.main, |digests|) <= i)
  }

  ghost predicate Inv(digests: seq<Option<Digest>>, s: State) {
    && Scheduled(digests, s) && Counted(s) && Slots(digests, s) && FirstError(s)
    && ReplyInv(s)
  }

  lemma InitialInv(digests: seq<Option<Digest>>, blobs: Cas.Blobs)
    ensures Inv(digests, Initial(|digests|, blobs))
  {
    TotalConstant(|digests|, Token);
    TotalConstant(|digests|, Awaited);
  }

  /** A goroutine moves on; `w` is what it becomes. */
  lemma WorkerMoves(s: State, i: nat, w: Worker)
    requires i < |s.workers|
    ensures Total(s.workers[i := w], Token) + Token(s.workers[i]) == Total(s.workers, Token) + Token(w)
    ensures Total(s.workers[i := w], Awaited) + Awaited(s.workers[i]) == Total(s.workers, Awaited) + Awaited(w)
  {
    TotalUpdate(s.workers, Token, i, w);
    TotalUpdate(s.workers, Awaited, i, w);
  }

  lemma ScheduledKept(digests: seq<Option<Digest>>, s: State, ev: Event)
    requires Scheduled(digests, s) && Enabled(digests, s, ev)
    ensures Scheduled(digests, Apply(digests, s, ev))
  {
  }

  predicate OfWorker(ev: Event) { ev.Check? || ev.Record? || ev.Release? || ev.Exit? }

  /** What the goroutine of an event becomes. */
  function Moved(digests: seq<Option<Digest>>, s: State, ev: Event): Worker
    requires OfWorker(ev) && Enabled(digests, s, ev)
  {
    match ev
    case Check(i, fault) => Told(Ask(s.blobs, Target(digests[i]), fault))
    case Record(i) => Recorded(s.workers[i].a)
    case Release(i) => Released(s.workers[i].a)
    case Exit(i) => Gone(s.workers[i].a)
  }

  lemma EventMovesWorker(digests: seq<Option<Digest>>, s: State, ev: Event)
    requires OfWorker(ev) && Enabled(digests, s, ev)
    ensures Apply(digests, s, ev).workers == s.workers[ev.i := Moved(digests, s, ev)]
    ensures Apply(digests, s, ev).main == s.main
    ensures Apply(digests, s, ev).sem == s.sem - (if ev.Release? then 1 else 0)
    ensures Apply(digests, s, ev).wg == s.wg - (if ev.Exit? then 1 else 0)
  {
  }

  lemma CountsKept(digests: seq<Option<Digest>>, s: State, ev: Event)
    requires Counted(s) && Scheduled(digests, s) && Enabled(digests, s, ev)
    ensures Counted(Apply(digests, s, ev))
  {
    if OfWorker(ev) {
      EventMovesWorker(digests, s, ev);
      WorkerMoves(s, ev.i, Moved(digests, s, ev));
    } else if ev.Spawn? {
      WorkerMoves(s, s.main.i, Checking);
    }
  }

  /** Puts only add keys: what was present stays so, and what was absent at some moment was. */
  lemma PutKeepsSound(a: Answer, d: Digest, blobs: Cas.Blobs, history: seq<Cas.Blobs>, e: Digest, data: Bytes)
    requires Sound(a, d, blobs, history)
    ensures Sound(a, d, Cas.Stored(blobs, e, data), history + [Cas.Stored(blobs, e, data)])
  {
    if a.No? {
      var k :| 0 <= k < |history| && !Cas.Present(history[k], d);
      assert (history + [Cas.Stored(blobs, e, data)])[k] == history[k];
    }
  }

  lemma PutKeepsSlots(digests: seq<Option<Digest>>, s: State, d: Digest, data: Bytes)
    requires Slots(digests, s)
    ensures var after := Cas.Stored(s.blobs, d, data);
      Slots(digests, s.(blobs := after, history := s.history + [after]))
  {
    forall i | 0 <= i < |digests| && Answered(s.workers[i])
      ensures Sound(s.workers[i].a, Target(digests[i]), Cas.Stored(s.blobs, d, data),
          s.history + [Cas.Stored(s.blobs, d, data)])
    {
      PutKeepsSound(s.workers[i].a, Target(digests[i]), s.blobs, s.history, d, data);
    }
  }

  lemma AskIsSound(s: State, d: Digest, fault: Option<nat>)
    requires s.history != [] && s.history[|s.history| - 1] == s.blobs
    ensures Sound(Ask(s.blobs, d, fault), d, s.blobs, s.history)
  {
  }

  ghost predicate Current(s: State) {
    s.history != [] && s.history[|s.history| - 1] == s.blobs
  }

  lemma RecordKeepsSlots(digests: seq<Option<Digest>>, s: State, i: nat)
    requires Slots(digests, s) && Enabled(digests, s, Record(i))
    ensures Slots(digests, Apply(digests, s, Record(i)))
  {
    var t := Apply(digests, s, Record(i));
    assert SlotInv(digests[i], t.workers[i], t.missing[i], t.firstErr, t.blobs, t.history);
    forall j | 0 <= j < |digests| && j != i
      ensures SlotInv(digests[j], t.workers[j], t.missing[j], t.firstErr, t.blobs, t.history)
    {
      assert SlotInv(digests[j], s.workers[j], s.missing[j], s.firstErr, s.blobs, s.history);
    }
  }

  lemma SlotsKept(digests: seq<Option<Digest>>, s: State, ev: Event)
    requires Slots(digests, s) && Scheduled(digests, s) && Enabled(digests, s, ev) && Current(s)
    ensures Slots(digests, Apply(digests, s, ev))
  {
    match ev
    case Check(i, fault) => AskIsSound(s, Target(digests[i]), fault);
    case Put(d, data) => PutKeepsSlots(digests, s, d, data);
    case Record(i) => RecordKeepsSlots(digests, s, i);
    case _ =>
  }

  lemma FirstErrorKept(digests: seq<Option<Digest>>, s: State, ev: Event)
    requires Inv(digests, s) && Enabled(digests, s, ev)
    ensures FirstError(Apply(digests, s, ev))
  {
    var t := Apply(digests, s, ev);
    if s.firstErr.Some? {
      var i :| 0 <= i < |s.workers| && Errs(s.workers[i], s.firstErr.value);
      assert Errs(t.workers[i], s.firstErr.value);
    } else if t.firstErr.Some? {
      assert Errs(t.workers[ev.i], t.firstErr.value);
    }
  }

  ghost predicate ReplyInv(s: State) {
    s.main.Replied? ==>
      s.wg == 0 && s.main.reply == if s.firstErr.Some? then Failed(s.firstErr.value) else Missing(Compact(s.missing))
  }

  lemma StepKeepsInv(digests: seq<Option<Digest>>, s: State, ev: Event)
    requires Inv(digests, s) && Current(s) && Enabled(digests, s, ev)
    ensures Inv(digests, Apply(digests, s, ev)) && Current(Apply(digests, s, ev))
  {
    if s.main.Replied? {
      NobodyAfterReply(digests, s, ev);
      assert false;
    }
    ScheduledKept(digests, s, ev);
    CountsKept(digests, s, ev);
    SlotsKept(digests, s, ev);
    FirstErrorKept(digests, s, ev);
    ReplyKept(digests, s, ev);
  }

  lemma ReplyKept(digests: seq<Option<Digest>>, s: State, ev: Event)
    requires !s.main.Replied? && Enabled(digests, s, ev) && Current(s)
    ensures ReplyInv(Apply(digests, s, ev)) && Current(Apply(digests, s, ev))
  {
  }

  /** All goroutines have gone when the wait group is down to zero. */
  lemma {:induction false} NoneAwaited(workers: seq<Worker>, i: nat)
    requires Total(workers, Awaited) == 0 && i < |workers|
    ensures workers[i].Idle? || workers[i].Gone?
    decreases |workers|
  {
    if i > 0 { NoneAwaited(workers[1..], i - 1); }
  }

  lemma NobodyAfterReply(digests: seq<Option<Digest>>, s: State, ev: Event)
    requires Inv(digests, s) && s.main.Replied?
    ensures !Enabled(digests, s, ev)
  {
    match ev
    case Check(i, _) => if i < |s.workers| { NoneAwaited(s.workers, i); }
    case Record(i) => if i < |s.workers| { NoneAwaited(s.workers, i); }
    case Release(i) => if i < |s.workers| { NoneAwaited(s.workers, i); }
    case Exit(i) => if i < |s.workers| { NoneAwaited(s.workers, i); }
    case _ =>
  }

  lemma {:induction false} RunKeepsInv(digests: seq<Option<Digest>>, s: State, evs: seq<Event>)
    requires Inv(digests, s) && Current(s) && Run(digests, s, evs).Some?
    ensures Inv(digests, Run(digests, s, evs).value) && Current(Run(digests, s, evs).value)
    decreases |evs|
  {
    if evs != [] {
      StepKeepsInv(digests, s, evs[0]);
      RunKeepsInv(digests, Apply(digests, s, evs[0]), evs[1..]);
    }
  }

  // ---- The reply ----

  /** The digests that `keep` selects, in order and with their duplicates; nil entries are never among them. */
  function Select(digests: seq<Option<Digest>>, keep: seq<bool>): seq<Digest>
    requires |digests| == |keep|
  {
    if digests == [] then []
    else (if keep[0] && digests[0].Some? then [digests[0].value] else []) + Select(digests[1..], keep[1..])
  }

  lemma {:induction false} CompactSelects(digests: seq<Option<Digest>>, missing: seq<Option<Digest>>, keep: seq<bool>)
    requires |digests| == |missing| == |keep|
    requires forall i :: 0 <= i < |digests| ==> missing[i] == if keep[i] then digests[i] else None
    ensures Compact(missing) == Select(digests, keep)
    decreases |digests|
  {
    if digests != [] {
      CompactSelects(digests[1..], missing[1..], keep[1..]);
    }
  }

  /** A reply over a call: the digests it leaves out are present when it is made, and those it includes were
      absent at some moment of the call. */
  ghost predicate Truthful(digests: seq<Option<Digest>>, reply: seq<Digest>, keep: seq<bool>, now: Cas.Blobs,
      history: seq<Cas.Blobs>)
  {
    && |keep| == |digests| && reply == Select(digests, keep)
    && forall i :: 0 <= i < |digests| && digests[i].Some? ==>
         if keep[i] then Absent(history, digests[i].value) else Cas.Present(now, digests[i].value)
  }

  /** At the reply every goroutine has gone, with its answer recorded. */
  lemma AllAnswered(digests: seq<Option<Digest>>, s: State, i: nat)
    requires Inv(digests, s) && s.main.Replied? && i < |digests|
    ensures s.workers[i].Gone?
  {
    NoneAwaited(s.workers, i);
  }

  function Kept(s: State): seq<bool> {
    seq(|s.missing|, i requires 0 <= i < |s.missing| => s.missing[i].Some?)
  }

  /** Every check was made, and none failed. */
  predicate AllSucceeded(s: State) {
    forall i :: 0 <= i < |s.workers| ==> s.workers[i].Gone? && !s.workers[i].a.Failure?
  }

  /** In every interleaving with other calls' puts, a reply is truthful, and a failure is the error of one of
      the checks; it fails only if some check did. */
  lemma ReplyIsTruthful(digests: seq<Option<Digest>>, blobs: Cas.Blobs, evs: seq<Event>)
    requires Run(digests, Initial(|digests|, blobs), evs).Some?
    ensures var s := Run(digests, Initial(|digests|, blobs), evs).value;
      s.main.Replied? ==>
        match s.main.reply
        case Missing(reply) => Truthful(digests, reply, Kept(s), s.blobs, s.history) && AllSucceeded(s)
        case Failed(e) => exists i :: 0 <= i < |s.workers| && Errs(s.workers[i], e)
  {
    InitialInv(digests, blobs);
    RunKeepsInv(digests, Initial(|digests|, blobs), evs);
    var s := Run(digests, Initial(|digests|, blobs), evs).value;
    if s.main.Replied? && s.main.reply.Missing? {
      forall i | 0 <= i < |digests|
        ensures s.workers[i].Gone? && SlotInv(digests[i], s.workers[i], s.missing[i], s.firstErr, s.blobs, s.history)
      {
        AllAnswered(digests, s, i);
      }
      CompactSelects(digests, s.missing, Kept(s));
    }
  }

  /** The digests that are not in the store, in order and with their duplicates. */
  function AbsentOnes(digests: seq<Option<Digest>>, m: Cas.Blobs): seq<Digest> {
    if digests == [] then []
    else
      (match digests[0]
       case Some(d) => if Cas.Present(m, d) then [] else [d]
       case None => []) + AbsentOnes(digests[1..], m)
  }

  lemma {:induction false} SelectAbsent(digests: seq<Option<Digest>>, keep: seq<bool>, m: Cas.Blobs)
    requires |digests| == |keep|
    requires forall i :: 0 <= i < |digests| && digests[i].Some? ==> (keep[i] <==> !Cas.Present(m, digests[i].value))
    ensures Select(digests, keep) == AbsentOnes(digests, m)
    decreases |digests|
  {
    if digests != [] {
      SelectAbsent(digests[1..], keep[1..], m);
    }
  }

  lemma {:induction false} QuietHistory(digests: seq<Option<Digest>>, s: State, evs: seq<Event>)
    requires Run(digests, s, evs).Some? && forall i :: 0 <= i < |evs| ==> !evs[i].Put?
    ensures Run(digests, s, evs).value.history == s.history && Run(digests, s, evs).value.blobs == s.blobs
    decreases |evs|
  {
    if evs != [] {
      QuietHistory(digests, Apply(digests, s, evs[0]), evs[1..]);
    }
  }

  /** With no puts beside it, the reply is exactly the filter, whatever order the goroutines ran in. */
  lemma {:induction false} QuietReplyIsTheFilter(digests: seq<Option<Digest>>, blobs: Cas.Blobs, evs: seq<Event>)
    requires Run(digests, Initial(|digests|, blobs), evs).Some? && forall i :: 0 <= i < |evs| ==> !evs[i].Put?
    ensures var s := Run(digests, Initial(|digests|, blobs), evs).value;
      s.main.Replied? && s.main.reply.Missing? ==> s.main.reply.digests == AbsentOnes(digests, blobs)
  {
    var s := Run(digests, Initial(|digests|, blobs), evs).value;
    QuietHistory(digests, Initial(|digests|, blobs), evs);
    if s.main.Replied? && s.main.reply.Missing? {
      ReplyIsTruthful(digests, blobs, evs);
      assert s.history == [blobs];
      SelectAbsent(digests, Kept(s), blobs);
    }
  }

  // ---- The semaphore, and progress ----

  lemma {:induction false} InFlightHoldTokens(workers: seq<Worker>)
    ensures Total(workers, InFlight) <= Total(workers, Token)
    decreases |workers|
  {
    if workers != [] {
      InFlightHoldTokens(workers[1..]);
    }
  }

  /** At most 32 checks are ever in flight. */
  lemma AtMost32InFlight(digests: seq<Option<Digest>>, blobs: Cas.Blobs, evs: seq<Event>)
    requires Run(digests, Initial(|digests|, blobs), evs).Some?
    ensures Total(Run(digests, Initial(|digests|, blobs), evs).value.workers, InFlight) <= 32
  {
    InitialInv(digests, blobs);
    RunKeepsInv(digests, Initial(|digests|, blobs), evs);
    InFlightHoldTokens(Run(digests, Initial(|digests|, blobs), evs).value.workers);
  }

  /** A step of the call itself that can be taken now. */
  function WorkerStep(w: Worker, i: nat): Event {
    match w
    case Checking => Check(i, None)
    case Told(_) => Record(i)
    case Recorded(_) => Release(i)
    case _ => Exit(i)
  }

  lemma {:induction false} TotalAtLeast(workers: seq<Worker>, weight: Worker -> nat, i: nat)
    requires i < |workers|
    ensures weight(workers[i]) <= Total(workers, weight)
    decreases |workers|
  {
    if i > 0 { TotalAtLeast(workers[1..], weight, i - 1); }
  }

  lemma AwaitedCanMove(digests: seq<Option<Digest>>, s: State, i: nat)
    requires Inv(digests, s) && i < |s.workers| && Awaited(s.workers[i]) > 0
    ensures Enabled(digests, s, WorkerStep(s.workers[i], i)) && !WorkerStep(s.workers[i], i).Put?
  {
    TotalAtLeast(s.workers, Token, i);
    TotalAtLeast(s.workers, Awaited, i);
  }

  /** The call is never stuck: until it has replied, some step of its own can be taken, full semaphore or not. */
  lemma NeverStuck(digests: seq<Option<Digest>>, s: State) returns (ev: Event)
    requires Inv(digests, s) && !s.main.Replied?
    ensures Enabled(digests, s, ev) && !ev.Put?
  {
    match s.main
    case Adding(_) => ev := Add;
    case Spawning(_) => ev := Spawn;
    case Acquiring(_) =>
      ev := Acquire;
      if s.sem == CONCURRENCY {
        var i := TotalWitness(s.workers, Token);
        AwaitedCanMove(digests, s, i);
        ev := WorkerStep(s.workers[i], i);
      }
    case Waiting =>
      ev := Answer;
      if s.wg > 0 {
        var i := TotalWitness(s.workers, Awaited);
        AwaitedCanMove(digests, s, i);
        ev := WorkerStep(s.workers[i], i);
      }
  }

  /** Steps the handler itself has yet to take, beside those of the goroutines. */
  function MainLeft(main: Main, n: nat): int {
    match main
    case Adding(i) => 2 * (n - i) + 1
    case Acquiring(i) => 2 * (n - i)
    case Spawning(i) => 2 * (n - i) - 1
    case Waiting => 1
    case Replied(_) => 0
  }

  function CallLeft(digests: seq<Option<Digest>>, s: State): int {
    Total(s.workers, StepsLeft) + MainLeft(s.main, |digests|)
  }

  function OwnSteps(evs: seq<Event>): nat {
    if evs == [] then 0 else (if evs[0].Put? then 0 else 1) + OwnSteps(evs[1..])
  }

  lemma StepsCountDown(digests: seq<Option<Digest>>, s: State, ev: Event)
    requires Scheduled(digests, s) && Enabled(digests, s, ev)
    ensures CallLeft(digests, Apply(digests, s, ev)) == CallLeft(digests, s) - (if ev.Put? then 0 else 1)
  {
    if OfWorker(ev) {
      EventMovesWorker(digests, s, ev);
      TotalUpdate(s.workers, StepsLeft, ev.i, Moved(digests, s, ev));
    } else if ev.Spawn? {
      TotalUpdate(s.workers, StepsLeft, s.main.i, Checking);
    }
  }

  lemma {:induction false} RunCountsDown(digests: seq<Option<Digest>>, s: State, evs: seq<Event>)
    requires Inv(digests, s) && Current(s) && Run(digests, s, evs).Some?
    ensures CallLeft(digests, Run(digests, s, evs).value) == CallLeft(digests, s) - OwnSteps(evs)
    decreases |evs|
  {
    if evs != [] {
      StepKeepsInv(digests, s, evs[0]);
      StepsCountDown(digests, s, evs[0]);
      RunCountsDown(digests, Apply(digests, s, evs[0]), evs[1..]);
    }
  }

  lemma RepliedAtTheEnd(digests: seq<Option<Digest>>, s: State)
    requires Inv(digests, s)
    ensures CallLeft(digests, s) >= 0 && (s.main.Replied? <==> CallLeft(digests, s) == 0)
  {
    if s.main.Replied? && Total(s.workers, StepsLeft) > 0 {
      var i := TotalWitness(s.workers, StepsLeft);
      AllAnswered(digests, s, i);
    }
  }

  lemma StepsInAll(digests: seq<Option<Digest>>, blobs: Cas.Blobs)
    ensures CallLeft(digests, Initial(|digests|, blobs)) == 7 * |digests| + 1
  {
    TotalConstant(|digests|, StepsLeft);
  }

  /** The call takes at most 7n + 1 steps of its own, and has replied exactly when it has taken them all. */
  lemma {:induction false} CallEnds(digests: seq<Option<Digest>>, blobs: Cas.Blobs, evs: seq<Event>)
    requires Run(digests, Initial(|digests|, blobs), evs).Some?
    ensures OwnSteps(evs) <= 7 * |digests| + 1
    ensures Run(digests, Initial(|digests|, blobs), evs).value.main.Replied? <==> OwnSteps(evs) == 7 * |digests| + 1
  {
    var first := Initial(|digests|, blobs);
    InitialInv(digests, blobs);
    RunKeepsInv(digests, first, evs);
    RunCountsDown(digests, first, evs);
    StepsInAll(digests, blobs);
    RepliedAtTheEnd(digests, Run(digests, first, evs).value);
  }
}
