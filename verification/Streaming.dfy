/** The loop of stream itself (internal/server/operations.go), on a real entry with its channels, while
    somebody publishes to that entry between any two of its steps. */
module Streaming {
  import opened Digests
  import opened Operations

  /** The invariant of a waiter as one fact: the comparison keeps the verifier from taking it apart. */
  ghost predicate Fits(w: Waiter, e: Entry) {
    WaiterInv(w, e) == true
  }

  /** Whoever publishes to the entry, with the updates still to come. */
  class Publisher {
    const entry: OpEntry
    var pending: seq<Operation>
    ghost var made: nat

    ghost predicate Valid()
      reads this, entry, entry.changed, entry.history
    {
      && entry.Valid() && EntryInv(entry.View(), made)
      && forall i :: 0 <= i < |pending| ==> pending[i].id == made + i
    }

    constructor (entry: OpEntry, pending: seq<Operation>, ghost made: nat)
      requires entry.Valid() && EntryInv(entry.View(), made)
      requires forall i :: 0 <= i < |pending| ==> pending[i].id == made + i
      ensures Valid() && this.entry == entry && this.pending == pending
    {
      this.entry, this.pending, this.made := entry, pending, made;
    }

    /** All channels of the entry, in the order they were made. */
    ghost function Channels(): seq<Channel>
      reads this, entry
    {
      entry.history + [entry.changed]
    }

    method PublishOne()
      requires Valid() && pending != []
      modifies this, entry, entry.changed
      ensures Valid() && entry.View() == Published(old(entry.View()), old(pending)[0]) && |pending| < |old(pending)|
      ensures entry.changed == old(entry.changed) || fresh(entry.changed)
      ensures old(Channels()) <= Channels()
      ensures !old(entry.done) ==> old(entry.changed).closed
    {
      PublishedKeepsEntry(entry.View(), pending[0], made);
      entry.Publish(pending[0]);
      pending, made := pending[1..], made + 1;
    }

    /** Any number of the updates to come; `w` is a waiter on the entry. */
    method PublishSome(ghost w: Waiter)
      requires Valid() && Fits(w, entry.View())
      modifies this, entry, entry.changed
      ensures Valid() && Fits(w, entry.View())
      ensures entry.changed == old(entry.changed) || fresh(entry.changed)
      ensures old(Channels()) <= Channels()
      ensures if |Channels()| == |old(Channels())| then |pending| <= |old(pending)| else |pending| < |old(pending)|
    {
      while pending != []
        invariant Valid() && Fits(w, entry.View())
        invariant entry.changed == old(entry.changed) || fresh(entry.changed)
        invariant old(Channels()) <= Channels()
        invariant if |Channels()| == |old(Channels())| then |pending| <= |old(pending)| else |pending| < |old(pending)|
        decreases |pending|
      {
        if * {
          return;
        }
        PublishedKeepsWaiter(w, entry.View(), pending[0], made);
        PublishOne();
      }
    }
  }

  /** What the stream relies on: the channel it holds is the one of its number. */
  ghost predicate Holding(p: Publisher, w: Waiter, channel: Channel)
    reads p, p.entry
  {
    w.pc.Blocked? && w.pc.channel < |p.Channels()| && p.Channels()[w.pc.channel] == channel
  }

  lemma ClosedMeansReplaced(p: Publisher, w: Waiter, channel: Channel)
    requires p.Valid() && Fits(w, p.entry.View()) && Holding(p, w, channel)
    ensures channel.closed <==> w.pc.channel < |p.entry.history|
    ensures channel.closed ==> IsClosed(p.entry.View(), w.pc.channel)
  {
    var c := w.pc.channel;
    if c < |p.entry.history| {
      assert p.Channels()[c] == p.entry.history[c] && p.entry.View().closes[c] == c;
    }
  }

  /** The select of stream.  It comes back connected only when the channel is closed, and then something was
      published since `budget` updates were still to come. */
  method Select(p: Publisher, ghost w: Waiter, channel: Channel, ghost budget: nat)
    returns (connected: bool, ghost x: Waiter)
    requires p.Valid() && Fits(w, p.entry.View()) && Holding(p, w, channel)
    requires |p.pending| <= budget && (w.pc.channel < |p.entry.history| ==> |p.pending| < budget)
    modifies p, p.entry, p.entry.changed
    ensures p.Valid() && Fits(x, p.entry.View())
    ensures p.entry.changed == old(p.entry.changed) || fresh(p.entry.changed)
    ensures if connected then x == w.(pc := Looping) && |p.pending| < budget else x == w
  {
    ghost var before := p.Channels();
    p.PublishSome(w);
    assert p.Channels()[w.pc.channel] == before[w.pc.channel];
    ClosedMeansReplaced(p, w, channel);
    if * {
      return false, w;
    }
    if !channel.closed {
      // the channel is the current one, and nothing more was published yet
      if p.pending == [] {
        return false, w;
      }
      PublishedKeepsWaiter(w, p.entry.View(), p.pending[0], p.made);
      before := p.Channels();
      p.PublishOne();
      assert p.Channels()[w.pc.channel] == before[w.pc.channel];
      ClosedMeansReplaced(p, w, channel);
    }
    WakeKeepsWaiter(w, p.entry.View(), p.made);
    connected, x := true, w.(pc := Looping);
  }

  datatype Turn = Again | Over | Lost

  /** The send of stream; updates may be published while it lasts. */
  method SendUpdate(p: Publisher, ghost w: Waiter) returns (ok: bool, ghost x: Waiter)
    requires p.Valid() && Fits(w, p.entry.View()) && w.pc.Sending?
    modifies p, p.entry, p.entry.changed
    ensures p.Valid() && Fits(x, p.entry.View()) && x == AfterSend(w, ok)
    ensures p.entry.changed == old(p.entry.changed) || fresh(p.entry.changed)
    ensures old(p.Channels()) <= p.Channels()
    ensures
      if |p.Channels()| == |old(p.Channels())| then |p.pending| <= |old(p.pending)|
      else |p.pending| < |old(p.pending)|
  {
    p.PublishSome(w);
    ok := *;
    SendKeepsWaiter(w, p.entry.View(), p.made, ok);
    x := AfterSend(w, ok);
  }

  /** What the snapshot leads to. */
  lemma SnapshotMeans(w: Waiter, e: Entry, made: nat)
    requires EntryInv(e, made) && WaiterInv(w, e) && w.pc.Looping? && w.kind.Stream?
    ensures var x := AfterSnapshot(w, e);
      && WaiterInv(x, e) && x.kind.Stream? && x.sent == w.sent && x.lastSent == w.lastSent
      && x.pc ==
         if e.latest.Some? && !SameMessage(e.latest, w.lastSent) then Sending(e.latest.value, e.done, e.changed)
         else Blocked(e.changed)
  {
    SnapshotKeepsWaiter(w, e, made);
  }

  /** The channel of a number stays where it is as channels are made. */
  lemma ChannelStays(before: seq<Channel>, after: seq<Channel>)
    requires before != [] && before <= after
    ensures |before| - 1 < |after| && after[|before| - 1] == before[|before| - 1]
  {
  }

  /** The snapshot. */
  method Look(p: Publisher, ghost w: Waiter)
    returns (latest: Option<Operation>, done: bool, changed: Channel, ghost x: Waiter)
    requires p.Valid() && Fits(w, p.entry.View()) && w.pc.Looping? && w.kind.Stream?
    modifies p, p.entry, p.entry.changed
    ensures p.Valid() && Fits(x, p.entry.View()) && x.kind.Stream? && x.sent == w.sent && x.lastSent == w.lastSent
    ensures p.entry.changed == old(p.entry.changed) || fresh(p.entry.changed)
    ensures changed == p.entry.changed && |p.pending| <= |old(p.pending)|
    ensures var c := |p.entry.history|;
      x.pc == if latest.Some? && !SameMessage(latest, w.lastSent) then Sending(latest.value, done, c) else Blocked(c)
  {
    p.PublishSome(w);
    latest, done, changed := p.entry.Snapshot();
    SnapshotMeans(w, p.entry.View(), p.made);
    x := AfterSnapshot(w, p.entry.View());
  }

  /** The first half of a turn: the snapshot, and the send if it shows something new.  `x` is the waiter then. */
  method Offer(p: Publisher, ghost w: Waiter, lastSent: Option<Operation>)
    returns (turn: Turn, op: Option<Operation>, changed: Channel, ghost x: Waiter, ghost budget: nat)
    requires p.Valid() && Fits(w, p.entry.View()) && w.pc.Looping? && w.kind.Stream? && w.lastSent == lastSent
    modifies p, p.entry, p.entry.changed
    ensures p.Valid() && Fits(x, p.entry.View()) && x.kind.Stream?
    ensures p.entry.changed == old(p.entry.changed) || fresh(p.entry.changed)
    ensures x.sent == w.sent + (if op.Some? then [op.value] else [])
    ensures x.lastSent == if op.Some? then op else lastSent
    ensures budget <= |old(p.pending)| && |p.pending| <= budget
    ensures turn.Again? ==> Holding(p, x, changed) && (x.pc.channel < |p.entry.history| ==> |p.pending| < budget)
    ensures turn.Over? ==> x.pc.Returned?
    ensures turn.Lost? ==> x.pc.Failed?
  {
    var latest, done;
    latest, done, changed, x := Look(p, w);
    op, budget, turn := None, |p.pending|, Again;
    if latest.Some? && !SameMessage(latest, lastSent) {
      ghost var channels := p.Channels();
      var ok;
      ok, x := SendUpdate(p, x);
      ChannelStays(channels, p.Channels());
      if !ok {
        return Lost, None, changed, x, budget;
      }
      op := latest;
      turn := if done then Over else Again;
    }
  }

  /** One turn of the loop: Again means that the channel was closed, so something was published. */
  method Round(p: Publisher, ghost w: Waiter, lastSent: Option<Operation>)
    returns (turn: Turn, op: Option<Operation>, ghost x: Waiter)
    requires p.Valid() && Fits(w, p.entry.View()) && w.pc.Looping? && w.kind.Stream? && w.lastSent == lastSent
    modifies p, p.entry, p.entry.changed
    ensures p.Valid() && Fits(x, p.entry.View()) && x.kind.Stream?
    ensures p.entry.changed == old(p.entry.changed) || fresh(p.entry.changed)
    ensures x.sent == w.sent + (if op.Some? then [op.value] else [])
    ensures x.lastSent == if op.Some? then op else lastSent
    ensures turn.Again? ==> x.pc.Looping? && |p.pending| < |old(p.pending)|
    ensures turn.Over? ==> x.pc.Returned?
    ensures turn.Lost? ==> x.pc.Failed? || x.pc.Blocked?
  {
    ghost var budget: nat;
    var changed;
    turn, op, changed, x, budget := Offer(p, w, lastSent);
    if turn.Again? {
      var connected;
      connected, x := Select(p, x, changed, budget);
      turn := if connected then Again else Lost;
    }
  }

  /** stream.  Whatever is published meanwhile, it sends a subsequence of the updates without repeats, and
      returns without an error exactly when it has just sent the terminal one. */
  method Stream(p: Publisher) returns (ok: bool, sent: seq<Operation>)
    requires p.Valid()
    modifies p, p.entry, p.entry.changed
    ensures p.Valid()
    ensures Told(ok, sent, p.entry.View())
  {
    var lastSent: Option<Operation> := None;
    sent := [];
    ghost var w := NEW_WAITER;
    var turn := Again;
    while turn.Again?
      invariant p.Valid() && Fits(w, p.entry.View())
      invariant w.kind.Stream? && w.sent == sent && w.lastSent == lastSent
      invariant turn.Again? ==> w.pc.Looping?
      invariant turn.Over? ==> w.pc.Returned?
      invariant turn.Lost? ==> w.pc.Failed? || w.pc.Blocked?
      invariant p.entry.changed == old(p.entry.changed) || fresh(p.entry.changed)
      decreases turn.Again?, |p.pending|
    {
      var op;
      turn, op, w := Round(p, w, lastSent);
      if op.Some? {
        sent, lastSent := sent + [op.value], op;
      }
    }
    Report(w, p.entry.View(), p.made);
    ok := turn.Over?;
  }

  /** The client was sent some of the updates, each once and in order; the call is a success exactly when the
      last of them is the terminal update of the entry. */
  ghost predicate Told(ok: bool, sent: seq<Operation>, e: Entry) {
    && Subsequence(sent, e.log) && Ordered(sent)
    && (ok <==> sent != [] && sent[|sent| - 1].Done())
    && (ok ==> e.done && e.latest == Some(sent[|sent| - 1]))
  }

  lemma Report(w: Waiter, e: Entry, made: nat)
    requires EntryInv(e, made) && WaiterInv(w, e) && w.kind.Stream? && (w.pc.Returned? || w.pc.Failed? || w.pc.Blocked?)
    ensures Told(w.pc.Returned?, w.sent, e)
  {
    SentWithin(w, e, |e.log|);
    assert e.log[..|e.log|] == e.log;
    OrderedMembersAreSubsequence(w.sent, e.log);
  }
}
