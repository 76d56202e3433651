/** Long-running operations and their waiters (internal/server/operations.go), as one shared-memory system:
    every method body that holds a mutex is one atomic step, and so is every channel operation and send. */
module Operations {
  import opened Digests
  import Cas

  // ---- Operations ----

  datatype Stage = CacheCheck | Executing | Completed

  datatype Code = OK | Canceled | Internal | FailedPrecondition

  datatype Response = Response(result: Option<Cas.ActionResult>, cachedResult: bool, code: Code)

  /** An Operation message, with the digest of its action.  `id` stands for the address of the message: stream
      compares pointers. */
  datatype Operation = Operation(id: nat, name: Text, action: Digest, stage: Stage, response: Option<Response>) {
    predicate Done() { response.Some? }
  }

  // ---- One entry ----

  /** What an opEntry holds, with its history: the channels closed so far and the updates published. */
  datatype Entry = Entry(latest: Option<Operation>, done: bool, changed: nat, closes: seq<nat>, log: seq<Operation>)

  const FRESH_ENTRY := Entry(None, false, 0, [], [])

  /** opEntry.publish.  Channels are numbered in the order they are made. */
  function Published(e: Entry, op: Operation): Entry {
    if e.done then e
    else Entry(Some(op), op.Done(), e.changed + 1, e.closes + [e.changed], e.log + [op])
  }

  /** A channel of an entry: made open, closed at most once. */
  class Channel {
    var closed: bool

    constructor ()
      ensures !closed
    {
      closed := false;
    }

    /** Go's close panics on a closed channel. */
    method Close()
      requires !closed
      modifies this
      ensures closed
    {
      closed := true;
    }
  }

  /** The opEntry itself. */
  class OpEntry {
    var latest: Option<Operation>
    var done: bool
    var changed: Channel
    ghost var history: seq<Channel>
    ghost var closes: seq<nat>
    ghost var log: seq<Operation>

    /** The channels replaced so far are closed, the current one is new and open, and `done` is that of the
        latest update. */
    ghost predicate Valid()
      reads this, changed, history
    {
      && !changed.closed
      && (forall c :: c in history ==> c.closed)
      && |history| == |log|
      && latest == (if log == [] then None else Some(log[|log| - 1]))
      && (done <==> latest.Some? && latest.value.Done())
    }

    ghost function View(): Entry
      reads this
    {
      Entry(latest, done, |history|, closes, log)
    }

    constructor ()
      ensures Valid() && View() == FRESH_ENTRY && fresh(changed)
    {
      latest, done := None, false;
      changed := new Channel();
      history, closes, log := [], [], [];
    }

    method Snapshot() returns (op: Option<Operation>, isDone: bool, channel: Channel)
      ensures op == latest && isDone == done && channel == changed
    {
      op, isDone, channel := latest, done, changed;
    }

    method Publish(op: Operation)
      requires Valid()
      modifies this, changed
      ensures Valid() && View() == Published(old(View()), op)
      ensures old(done) ==> changed == old(changed) && history == old(history)
      ensures !old(done) ==> old(changed).closed && fresh(changed) && history == old(history) + [old(changed)]
    {
      if done {
        return;
      }
      latest := Some(op);
      done := op.Done();
      changed.Close();
      history, closes, log := history + [changed], closes + [|history|], log + [op];
      changed := new Channel();
    }
  }

  /** The operations by name.  An entry outlives its name: those who hold it keep it when it is deleted. */
  class OperationManager {
    var ops: map<Text, OpEntry>
    ghost var entries: seq<OpEntry>
    ghost var names: map<Text, nat>

    /** Every name leads to one of the entries made so far. */
    ghost predicate Valid()
      reads this
    {
      && names.Keys == ops.Keys
      && forall name :: name in ops ==> names[name] < |entries| && entries[names[name]] == ops[name]
    }

    constructor ()
      ensures Valid() && ops == map[] && entries == [] && names == map[]
    {
      ops, entries, names := map[], [], map[];
    }

    /** `name` is the new UUID. */
    method New(name: Text) returns (e: OpEntry)
      requires Valid() && name !in ops
      modifies this
      ensures Valid() && fresh(e) && fresh(e.changed) && e.Valid() && e.View() == FRESH_ENTRY
      ensures entries == old(entries) + [e] && names == old(names)[name := |old(entries)|]
      ensures ops == old(ops)[name := e]
    {
      e := new OpEntry();
      names := names[name := |entries|];
      entries := entries + [e];
      ops := ops[name := e];
    }

    method Lookup(name: Text) returns (e: Option<OpEntry>)
      requires Valid()
      ensures e == if name in names then Some(entries[names[name]]) else None
    {
      e := if name in ops then Some(ops[name]) else None;
    }

    method Delete(name: Text) returns (ok: bool)
      requires Valid()
      modifies this
      ensures Valid() && entries == old(entries) && names == old(names) - {name}
      ensures ok <==> name in old(ops)
    {
      ok := name in ops;
      if ok {
        ops := ops - {name};
        names := names - {name};
      } else {
        assert names - {name} == names;
      }
    }
  }

  // ---- The system ----

  datatype Kind = Stream | Wait

  /** Where a waiter is in its loop. */
  datatype Pc = Looping | Sending(op: Operation, done: bool, channel: nat) | Blocked(channel: nat)
    | Returned(last: Option<Operation>) | Failed

  /** A waiter, with its history: the updates it has sent, how many updates had been published when it last
      settled down to wait, and how often its loop has turned. */
  datatype Waiter = Waiter(kind: Kind, entry: nat, pc: Pc, lastSent: Option<Operation>, sent: seq<Operation>,
    seen: nat, turns: nat)

  datatype State = State(entries: seq<Entry>, names: map<Text, nat>, waiters: seq<Waiter>, cancelled: set<nat>,
      made: nat)

  const INITIAL := State([], map[], [], {}, 0)

  datatype Event =
    | New(name: Text)
    | Publish(entry: nat, op: Operation)
    | Attach(e: nat)                 // Execute streams the entry it has just made
    | Join(kind: Kind, name: Text)   // WaitExecution or WaitOperation looks an entry up
    | Snapshot(w: nat)
    | Send(w: nat, ok: bool)
    | Wake(w: nat)
    | Disconnect(w: nat)
    | Cancel(name: Text)
    | Delete(name: Text)

  predicate SameMessage(a: Option<Operation>, b: Option<Operation>) {
    match (a, b)
    case (Some(x), Some(y)) => x.id == y.id
    case (None, None) => true
    case _ => false
  }

  predicate IsClosed(e: Entry, channel: nat) { channel in e.closes }

  predicate Enabled(s: State, ev: Event) {
    match ev
    case New(name) => name !in s.names
    case Publish(e, op) => e < |s.entries| && op.id == s.made
    case Attach(e) => e < |s.entries|
    case Join(_, name) => name in s.names && s.names[name] < |s.entries|
    case Snapshot(w) => w < |s.waiters| && s.waiters[w].pc.Looping? && s.waiters[w].entry < |s.entries|
    case Send(w, _) => w < |s.waiters| && s.waiters[w].pc.Sending?
    case Wake(w) =>
      && w < |s.waiters| && s.waiters[w].pc.Blocked? && s.waiters[w].entry < |s.entries|
      && IsClosed(s.entries[s.waiters[w].entry], s.waiters[w].pc.channel)
    case Disconnect(w) => w < |s.waiters| && s.waiters[w].pc.Blocked?
    case Cancel(name) => name in s.names
    case Delete(name) => name in s.names
  }

  /** The snapshot and what the loop does with it, up to the next send, select or return. */
  function AfterSnapshot(w: Waiter, e: Entry): Waiter {
    var turned := w.(turns := w.turns + 1);
    match w.kind
    case Stream =>
      if e.latest.Some? && !SameMessage(e.latest, w.lastSent)
      then turned.(pc := Sending(e.latest.value, e.done, e.changed))
      else turned.(pc := Blocked(e.changed), seen := e.changed)
    case Wait =>
      turned.(pc := if e.done then Returned(e.latest) else Blocked(e.changed), seen := e.changed)
  }

  function AfterSend(w: Waiter, ok: bool): Waiter
    requires w.pc.Sending?
  {
    if !ok then w.(pc := Failed)
    else
      var op := w.pc.op;
      w.(sent := w.sent + [op], lastSent := Some(op), seen := w.pc.channel,
         pc := if w.pc.done then Returned(Some(op)) else Blocked(w.pc.channel))
  }

  const NEW_WAITER := Waiter(Stream, 0, Looping, None, [], 0, 0)

  function Apply(s: State, ev: Event): State
    requires Enabled(s, ev)
  {
    match ev
    case New(name) => s.(entries := s.entries + [FRESH_ENTRY], names := s.names[name := |s.entries|])
    case Publish(e, op) => s.(entries := s.entries[e := Published(s.entries[e], op)], made := s.made + 1)
    case Attach(e) => s.(waiters := s.waiters + [NEW_WAITER.(entry := e)])
    case Join(kind, name) => s.(waiters := s.waiters + [NEW_WAITER.(kind := kind, entry := s.names[name])])
    case Snapshot(w) => s.(waiters := s.waiters[w := AfterSnapshot(s.waiters[w], s.entries[s.waiters[w].entry])])
    case Send(w, ok) => s.(waiters := s.waiters[w := AfterSend(s.waiters[w], ok)])
    case Wake(w) => s.(waiters := s.waiters[w := s.waiters[w].(pc := Looping)])
    case Disconnect(w) => s.(waiters := s.waiters[w := s.waiters[w].(pc := Failed)])
    case Cancel(name) => s.(cancelled := s.cancelled + {s.names[name]})
    case Delete(name) => s.(names := s.names - {name})
  }

  /** The run `evs` from `s`, if every event is enabled when it happens. */
  function Run(s: State, evs: seq<Event>): Option<State>
    decreases |evs|
  {
    if evs == [] then Some(s)
    else if Enabled(s, evs[0]) then Run(Apply(s, evs[0]), evs[1..])
    else None
  }

  // ---- Invariants ----

  /** Updates were published in the order of their identities. */
  predicate Ordered(ops: seq<Operation>) {
    forall i, j :: 0 <= i < j < |ops| ==> ops[i].id < ops[j].id
  }

  predicate NoneDone(ops: seq<Operation>) {
    forall i :: 0 <= i < |ops| ==> !ops[i].Done()
  }

  /** `done` holds exactly when the latest update is a done one, and only the last published update can be;
      every replaced channel was closed exactly once and the current one never. */
  predicate EntryInv(e: Entry, made: nat) {
    && (e.done <==> e.latest.Some? && e.latest.value.Done())
    && |e.log| == e.changed && |e.closes| == e.changed
    && (forall i :: 0 <= i < e.changed ==> e.closes[i] == i)
    && e.latest == (if e.log == [] then None else Some(e.log[|e.log| - 1]))
    && (forall i :: 0 <= i < |e.log| - 1 ==> !e.log[i].Done())
    && Ordered(e.log)
    && forall i :: 0 <= i < |e.log| ==> e.log[i].id < made
  }

  /** The waiter has been sent some of the first `seen` updates, in order, without repeats, up to the last
      of them. */
  predicate History(w: Waiter, e: Entry) {
    && w.seen <= |e.log|
    && Ordered(w.sent) && (forall i :: 0 <= i < |w.sent| ==> w.sent[i] in e.log[..w.seen])
    && w.lastSent == (if w.kind.Wait? || w.seen == 0 then None else Some(e.log[w.seen - 1]))
    && w.lastSent == (if w.sent == [] then None else Some(w.sent[|w.sent| - 1]))
  }

  predicate PcInv(w: Waiter, e: Entry) {
    match w.pc
    case Looping =>
      // an update newer than those it knows is published, unless this is its first turn
      NoneDone(w.sent) && (if w.turns == 0 then w.seen == 0 else w.seen < e.changed) && w.turns <= w.seen + 1
    case Sending(op, done, c) =>
      && w.kind.Stream? && NoneDone(w.sent) && w.seen < c <= |e.log|
      && op == e.log[c - 1] && (done <==> op.Done())
      && 0 < w.turns <= c + 1
    case Blocked(c) =>
      // it holds the open channel of an entry that is not done, or a closed channel
      && NoneDone(w.sent) && c == w.seen && 0 < w.turns <= c + 1
      && (c == e.changed ==> !e.done)
    case Returned(last) =>
      e.done && last == e.latest && w.seen == e.changed && w.turns <= w.seen + 1
    case Failed =>
      NoneDone(w.sent) && w.turns <= e.changed + 1
  }

  predicate WaiterInv(w: Waiter, e: Entry) {
    History(w, e) && PcInv(w, e)
  }

  predicate Inv(s: State) {
    && (forall i :: 0 <= i < |s.entries| ==> EntryInv(s.entries[i], s.made))
    && (forall name :: name in s.names ==> s.names[name] < |s.entries|)
    && (forall w :: 0 <= w < |s.waiters| ==> WaiterAt(s, s.waiters[w]))
  }

  predicate WaiterAt(s: State, w: Waiter) {
    w.entry < |s.entries| && WaiterInv(w, s.entries[w.entry])
  }

  // ---- Preservation ----

  lemma PublishedKeepsEntry(e: Entry, op: Operation, made: nat)
    requires EntryInv(e, made) && op.id == made
    ensures EntryInv(Published(e, op), made + 1)
  {
    if !e.done {
    }
  }

  /** An update changes nothing a waiter relies on, and it closes the channel of those that hold the current one. */
  lemma PublishedKeepsWaiter(w: Waiter, e: Entry, op: Operation, made: nat)
    requires EntryInv(e, made) && WaiterInv(w, e)
    ensures WaiterInv(w, Published(e, op))
  {
    if !e.done {
      var log := e.log + [op];
      assert log[..w.seen] == e.log[..w.seen];
    }
  }

  lemma SentWithin(w: Waiter, e: Entry, n: nat)
    requires History(w, e) && w.seen <= n <= |e.log|
    ensures forall i :: 0 <= i < |w.sent| ==> w.sent[i] in e.log[..n]
  {
    forall i | 0 <= i < |w.sent| ensures w.sent[i] in e.log[..n] {
      var k :| 0 <= k < w.seen && e.log[..w.seen][k] == w.sent[i];
      assert e.log[..n][k] == w.sent[i];
    }
  }

  /** A stream that finds the update it sent last has seen them all. */
  lemma NothingNew(w: Waiter, e: Entry, made: nat)
    requires EntryInv(e, made) && WaiterInv(w, e) && w.pc.Looping? && w.kind.Stream?
    requires e.latest.None? || SameMessage(e.latest, w.lastSent)
    ensures w.seen == |e.log| && !e.done
  {
  }

  lemma SnapshotKeepsWaiter(w: Waiter, e: Entry, made: nat)
    requires EntryInv(e, made) && WaiterInv(w, e) && w.pc.Looping?
    ensures WaiterInv(AfterSnapshot(w, e), e)
  {
    if w.kind.Wait? {
      assert w.sent == [];
    } else if e.latest.None? || SameMessage(e.latest, w.lastSent) {
      NothingNew(w, e, made);
    } else {
      SomethingNew(w, e, made);
    }
  }

  lemma SomethingNew(w: Waiter, e: Entry, made: nat)
    requires EntryInv(e, made) && WaiterInv(w, e) && w.pc.Looping? && w.kind.Stream?
    requires e.latest.Some? && !SameMessage(e.latest, w.lastSent)
    ensures w.seen < |e.log| && WaiterInv(AfterSnapshot(w, e), e)
  {
  }

  lemma SendKeepsWaiter(w: Waiter, e: Entry, made: nat, ok: bool)
    requires EntryInv(e, made) && WaiterInv(w, e) && w.pc.Sending?
    ensures WaiterInv(AfterSend(w, ok), e)
  {
    if ok {
      SendKeepsHistory(w, e, made, w.pc.op, w.pc.channel);
    }
  }

  lemma SendKeepsHistory(w: Waiter, e: Entry, made: nat, op: Operation, c: nat)
    requires EntryInv(e, made) && History(w, e) && w.kind.Stream? && w.seen < c <= |e.log| && op == e.log[c - 1]
    ensures History(w.(sent := w.sent + [op], lastSent := Some(op), seen := c), e)
  {
    SentWithin(w, e, c);
    SentBefore(w, e, made, c);
    assert e.log[..c][c - 1] == op;
    SentOneMore(w, e, op, c);
  }

  /** All that was sent is older than the update in hand. */
  lemma SentBefore(w: Waiter, e: Entry, made: nat, c: nat)
    requires EntryInv(e, made) && History(w, e) && w.seen < c <= |e.log|
    ensures forall i :: 0 <= i < |w.sent| ==> w.sent[i].id < e.log[c - 1].id
  {
    forall i | 0 <= i < |w.sent| ensures w.sent[i].id < e.log[c - 1].id {
      var k :| 0 <= k < w.seen && e.log[..w.seen][k] == w.sent[i];
      assert e.log[k].id < e.log[c - 1].id;
    }
  }

  lemma SentOneMore(w: Waiter, e: Entry, op: Operation, c: nat)
    requires History(w, e) && 0 < c <= |e.log| && op == e.log[c - 1] && op in e.log[..c] && w.kind.Stream?
    requires forall i :: 0 <= i < |w.sent| ==> w.sent[i].id < op.id && w.sent[i] in e.log[..c]
    ensures History(w.(sent := w.sent + [op], lastSent := Some(op), seen := c), e)
  {
  }

  lemma WakeKeepsWaiter(w: Waiter, e: Entry, made: nat)
    requires EntryInv(e, made) && WaiterInv(w, e) && w.pc.Blocked? && IsClosed(e, w.pc.channel)
    ensures WaiterInv(w.(pc := Looping), e)
  {
  }

  lemma {:induction false} PublishKeepsInv(s: State, e: nat, op: Operation)
    requires Inv(s) && Enabled(s, Publish(e, op))
    ensures Inv(Apply(s, Publish(e, op)))
  {
    var t := Apply(s, Publish(e, op));
    forall i | 0 <= i < |s.entries| ensures EntryInv(t.entries[i], t.made) {
      assert EntryInv(s.entries[i], s.made);
      if i == e { PublishedKeepsEntry(s.entries[e], op, s.made); }
    }
    forall w | 0 <= w < |s.waiters| ensures WaiterAt(t, t.waiters[w]) {
      assert WaiterAt(s, s.waiters[w]);
      if s.waiters[w].entry == e { PublishedKeepsWaiter(s.waiters[w], s.entries[e], op, s.made); }
    }
  }

  lemma WaiterMoves(s: State, w: nat, x: Waiter)
    requires Inv(s) && w < |s.waiters| && WaiterAt(s, x)
    ensures Inv(s.(waiters := s.waiters[w := x]))
  {
    var t := s.(waiters := s.waiters[w := x]);
    forall v | 0 <= v < |t.waiters| ensures WaiterAt(t, t.waiters[v]) {
      assert v != w ==> WaiterAt(s, s.waiters[v]);
    }
  }

  lemma WaiterJoins(s: State, x: Waiter)
    requires Inv(s) && WaiterAt(s, x)
    ensures Inv(s.(waiters := s.waiters + [x]))
  {
    var t := s.(waiters := s.waiters + [x]);
    forall v | 0 <= v < |t.waiters| ensures WaiterAt(t, t.waiters[v]) {
      assert v < |s.waiters| ==> WaiterAt(s, s.waiters[v]);
    }
  }

  lemma NewKeepsInv(s: State, name: Text)
    requires Inv(s)
    ensures Inv(s.(entries := s.entries + [FRESH_ENTRY], names := s.names[name := |s.entries|]))
  {
    var t := s.(entries := s.entries + [FRESH_ENTRY], names := s.names[name := |s.entries|]);
    forall v | 0 <= v < |t.waiters| ensures WaiterAt(t, t.waiters[v]) {
      assert WaiterAt(s, s.waiters[v]);
    }
  }

  lemma {:induction false} StepKeepsInv(s: State, ev: Event)
    requires Inv(s) && Enabled(s, ev)
    ensures Inv(Apply(s, ev))
  {
    match ev
    case New(name) => NewKeepsInv(s, name);
    case Publish(e, op) => PublishKeepsInv(s, e, op);
    case Attach(e) => WaiterJoins(s, NEW_WAITER.(entry := e));
    case Join(kind, name) => WaiterJoins(s, NEW_WAITER.(kind := kind, entry := s.names[name]));
    case Snapshot(w) => SnapshotStep(s, w);
    case Send(w, ok) => SendStep(s, w, ok);
    case Wake(w) => WakeStep(s, w);
    case Disconnect(w) => DisconnectStep(s, w);
    case Cancel(_) => OthersKept(s, Apply(s, ev));
    case Delete(_) => OthersKept(s, Apply(s, ev));
  }

  lemma OthersKept(s: State, t: State)
    requires Inv(s) && t.entries == s.entries && t.waiters == s.waiters && t.made == s.made
    requires forall name :: name in t.names ==> name in s.names && t.names[name] == s.names[name]
    ensures Inv(t)
  {
    forall v | 0 <= v < |t.waiters| ensures WaiterAt(t, t.waiters[v]) {
      assert WaiterAt(s, s.waiters[v]);
    }
  }

  lemma SnapshotStep(s: State, w: nat)
    requires Inv(s) && Enabled(s, Snapshot(w))
    ensures Inv(Apply(s, Snapshot(w)))
  {
    var e := s.entries[s.waiters[w].entry];
    assert WaiterAt(s, s.waiters[w]);
    SnapshotKeepsWaiter(s.waiters[w], e, s.made);
    WaiterMoves(s, w, AfterSnapshot(s.waiters[w], e));
  }

  lemma SendStep(s: State, w: nat, ok: bool)
    requires Inv(s) && Enabled(s, Send(w, ok))
    ensures Inv(Apply(s, Send(w, ok)))
  {
    assert WaiterAt(s, s.waiters[w]);
    SendKeepsWaiter(s.waiters[w], s.entries[s.waiters[w].entry], s.made, ok);
    WaiterMoves(s, w, AfterSend(s.waiters[w], ok));
  }

  lemma WakeStep(s: State, w: nat)
    requires Inv(s) && Enabled(s, Wake(w))
    ensures Inv(Apply(s, Wake(w)))
  {
    assert WaiterAt(s, s.waiters[w]);
    WakeKeepsWaiter(s.waiters[w], s.entries[s.waiters[w].entry], s.made);
    WaiterMoves(s, w, s.waiters[w].(pc := Looping));
  }

  lemma DisconnectStep(s: State, w: nat)
    requires Inv(s) && Enabled(s, Disconnect(w))
    ensures Inv(Apply(s, Disconnect(w)))
  {
    assert WaiterAt(s, s.waiters[w]);
    WaiterMoves(s, w, s.waiters[w].(pc := Failed));
  }

  /** Over every run, from the empty manager on. */
  lemma {:induction false} RunKeepsInv(s: State, evs: seq<Event>)
    requires Inv(s) && Run(s, evs).Some?
    ensures Inv(Run(s, evs).value)
    decreases |evs|
  {
    if evs != [] {
      StepKeepsInv(s, evs[0]);
      RunKeepsInv(Apply(s, evs[0]), evs[1..]);
    }
  }

  // ---- Terminal states ----

  /** Once an entry is done no step changes it. */
  lemma DoneIsFinal(s: State, ev: Event, e: nat)
    requires Enabled(s, ev) && e < |s.entries| && s.entries[e].done
    ensures e < |Apply(s, ev).entries| && Apply(s, ev).entries[e] == s.entries[e]
  {
  }

  /** A waiter blocked on an entry that is done holds a closed channel. */
  lemma NoLostWakeup(s: State, w: nat)
    requires Inv(s) && w < |s.waiters| && s.waiters[w].pc.Blocked? && s.entries[s.waiters[w].entry].done
    ensures Enabled(s, Wake(w))
  {
    assert WaiterAt(s, s.waiters[w]);
    var e, c := s.entries[s.waiters[w].entry], s.waiters[w].pc.channel;
    assert e.closes[c] == c;
  }

  /** How many steps of its own a waiter needs once its entry is done. */
  function Rank(w: Waiter): nat {
    match w.pc
    case Looping => 2
    case Sending(_, done, _) => if done then 1 else 4
    case Blocked(_) => 3
    case Returned(_) => 0
    case Failed => 0
  }

  /** Whether the loop has another turn to go. */
  function TurnsLeft(w: Waiter): nat {
    if Rank(w) >= 2 then 1 else 0
  }

  predicate OwnStep(w: nat, ev: Event) {
    ev == Snapshot(w) || ev == Send(w, true) || ev == Wake(w)
  }

  /** The client of the waiter goes away. */
  predicate Abandons(w: nat, ev: Event) {
    ev == Send(w, false) || ev == Disconnect(w)
  }

  function NextStep(s: State, w: nat): Event
    requires w < |s.waiters|
  {
    match s.waiters[w].pc
    case Sending(_, _, _) => Send(w, true)
    case Blocked(_) => Wake(w)
    case _ => Snapshot(w)
  }

  lemma NextStepEnabled(s: State, w: nat)
    requires Inv(s) && w < |s.waiters| && Rank(s.waiters[w]) > 0 && s.entries[s.waiters[w].entry].done
    ensures Enabled(s, NextStep(s, w)) && OwnStep(w, NextStep(s, w))
  {
    assert WaiterAt(s, s.waiters[w]);
    if s.waiters[w].pc.Blocked? {
      NoLostWakeup(s, w);
    }
  }

  lemma OwnStepLowersRank(s: State, w: nat, ev: Event)
    requires Inv(s) && w < |s.waiters| && s.entries[s.waiters[w].entry].done
    requires Enabled(s, ev) && OwnStep(w, ev)
    ensures var x, y := s.waiters[w], Apply(s, ev).waiters[w];
      && y.entry == x.entry && Rank(y) < Rank(x) && !y.pc.Failed?
      && y.turns + TurnsLeft(y) <= x.turns + TurnsLeft(x)
  {
    assert WaiterAt(s, s.waiters[w]);
    var x, e := s.waiters[w], s.entries[s.waiters[w].entry];
    if ev.Snapshot? && x.kind.Stream? && (e.latest.None? || SameMessage(e.latest, x.lastSent)) {
      NothingNew(x, e, s.made);
    }
  }

  lemma OtherStepsLeaveWaiter(s: State, w: nat, ev: Event)
    requires w < |s.waiters| && Enabled(s, ev) && !OwnStep(w, ev) && !Abandons(w, ev)
    ensures w < |Apply(s, ev).waiters| && Apply(s, ev).waiters[w] == s.waiters[w]
  {
  }

  function OwnSteps(w: nat, evs: seq<Event>): nat
    decreases |evs|
  {
    if evs == [] then 0 else (if OwnStep(w, evs[0]) then 1 else 0) + OwnSteps(w, evs[1..])
  }

  /** The comment in the source: every waiter is guaranteed to observe the terminal state.  Once the entry is
      done, whatever else happens, a waiter whose client stays has at most four steps left and one more turn
      of its loop, is never stuck before the last of them, and after it has returned the terminal update. */
  lemma {:induction false} EveryWaiterObservesTheEnd(s: State, evs: seq<Event>, w: nat)
    requires Inv(s) && w < |s.waiters| && s.entries[s.waiters[w].entry].done && !s.waiters[w].pc.Failed?
    requires Run(s, evs).Some? && forall i :: 0 <= i < |evs| ==> !Abandons(w, evs[i])
    ensures var t := Run(s, evs).value;
      && Inv(t) && w < |t.waiters| && t.waiters[w].entry == s.waiters[w].entry
      && OwnSteps(w, evs) + Rank(t.waiters[w]) <= Rank(s.waiters[w]) <= 4
      && t.waiters[w].turns <= s.waiters[w].turns + 1
      && (if Rank(t.waiters[w]) == 0
          then t.waiters[w].pc == Returned(s.entries[s.waiters[w].entry].latest)
          else Enabled(t, NextStep(t, w)) && OwnStep(w, NextStep(t, w)))
  {
    WaiterRuns(s, evs, w);
    var t := Run(s, evs).value;
    assert WaiterAt(t, t.waiters[w]);
    if Rank(t.waiters[w]) > 0 {
      NextStepEnabled(t, w);
    }
  }

  lemma {:induction false} WaiterRuns(s: State, evs: seq<Event>, w: nat)
    requires Inv(s) && w < |s.waiters| && s.entries[s.waiters[w].entry].done && !s.waiters[w].pc.Failed?
    requires Run(s, evs).Some? && forall i :: 0 <= i < |evs| ==> !Abandons(w, evs[i])
    ensures var t, e := Run(s, evs).value, s.waiters[w].entry;
      && Inv(t) && w < |t.waiters| && t.waiters[w].entry == e && t.entries[e] == s.entries[e]
      && !t.waiters[w].pc.Failed?
      && OwnSteps(w, evs) + Rank(t.waiters[w]) <= Rank(s.waiters[w])
      && t.waiters[w].turns + TurnsLeft(t.waiters[w]) <= s.waiters[w].turns + TurnsLeft(s.waiters[w])
    decreases |evs|
  {
    if evs != [] {
      assert WaiterAt(s, s.waiters[w]);
      var ev := evs[0];
      StepKeepsInv(s, ev);
      DoneIsFinal(s, ev, s.waiters[w].entry);
      if OwnStep(w, ev) {
        OwnStepLowersRank(s, w, ev);
      } else {
        OtherStepsLeaveWaiter(s, w, ev);
      }
      WaiterRuns(Apply(s, ev), evs[1..], w);
    }
  }

  // ---- What a stream sends ----

  ghost predicate Subsequence<T>(a: seq<T>, b: seq<T>)
    decreases |b|
  {
    a == [] || (b != [] && (if a[0] == b[0] then Subsequence(a[1..], b[1..]) else Subsequence(a, b[1..])))
  }

  lemma {:induction false} OrderedMembersAreSubsequence(a: seq<Operation>, b: seq<Operation>)
    requires Ordered(a) && Ordered(b) && forall i :: 0 <= i < |a| ==> a[i] in b
    ensures Subsequence(a, b)
    decreases |b|
  {
    if a != [] {
      assert a[0] in b;
      var k :| 0 <= k < |b| && b[k] == a[0];
      var rest := if a[0] == b[0] then a[1..] else a;
      forall i | 0 <= i < |rest| ensures rest[i] in b[1..] {
        var j :| 0 <= j < |b| && b[j] == rest[i];
        assert j > 0;
        assert b[1..][j - 1] == rest[i];
      }
      OrderedMembersAreSubsequence(rest, b[1..]);
    }
  }

  /** In every reachable state a stream has sent a repeat-free subsequence of the published updates, its loop
      has turned at most once more than there were updates, and it has returned nil exactly when the last
      thing it sent was the terminal update. */
  lemma StreamReport(evs: seq<Event>, w: nat)
    requires Run(INITIAL, evs).Some? && w < |Run(INITIAL, evs).value.waiters|
    ensures var s := Run(INITIAL, evs).value; var x := s.waiters[w];
      && x.entry < |s.entries|
      && (x.kind.Stream? ==>
        && Subsequence(x.sent, s.entries[x.entry].log) && Ordered(x.sent)
        && x.turns <= |s.entries[x.entry].log| + 1
        && (x.pc.Returned? <==> x.sent != [] && x.sent[|x.sent| - 1].Done())
        && (x.pc.Returned? ==> s.entries[x.entry].done && x.lastSent == s.entries[x.entry].latest))
  {
    var s := Run(INITIAL, evs).value;
    RunKeepsInv(INITIAL, evs);
    assert WaiterAt(s, s.waiters[w]);
    var x := s.waiters[w];
    SentWithin(x, s.entries[x.entry], |s.entries[x.entry].log|);
    assert s.entries[x.entry].log[..|s.entries[x.entry].log|] == s.entries[x.entry].log;
    OrderedMembersAreSubsequence(x.sent, s.entries[x.entry].log);
  }
}
