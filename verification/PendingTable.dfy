/** The pending-request table of an agent session under concurrency
    (internal/agentlink/session.go, internal/agentlink/client.go).

    Every request makes its own one-slot channel, so a channel is named by its request ID. The
    steps below are the critical sections and channel operations; they interleave freely. A
    response taken out of the table but not yet sent is in flight, held by a read loop. */
module PendingTable {

  import opened Common

  const CHANNEL_CAPACITY: nat := 1

  datatype Response = Response(id: int, body: string)

  datatype Channel = Channel(buffer: seq<Response>, sends: nat, closes: nat)

  datatype Table = Table(
    nextId: nat, pending: set<int>, channels: map<int, Channel>, inFlight: seq<Response>,
    closing: bool, drained: bool, received: map<int, Response>)

  const EMPTY := Table(0, {}, map[], [], false, false, map[])

  datatype Step =
    | Register                 // a request enters the table
    | Forget(id: int)          // its caller gives up and deletes it
    | Take(r: Response)        // a read loop looks a response up and deletes its entry
    | Send(i: nat)             // and then sends it, outside the lock
    | BeginShutdown            // close-once
    | Drain                    // closes and deletes every entry
    | Receive(id: int)         // a caller takes the response out of its channel

  predicate Enabled(t: Table, step: Step) {
    match step
    case Send(i) => i < |t.inFlight| && t.inFlight[i].id in t.channels
    case Drain => t.closing && !t.drained
    case Receive(id) => id in t.channels && t.channels[id].buffer != []
    case _ => true
  }

  /** Sending into a full channel would stall the read loop. */
  predicate Blocks(t: Table, step: Step)
    requires Enabled(t, step)
  {
    step.Send? && |t.channels[t.inFlight[step.i].id].buffer| >= CHANNEL_CAPACITY
  }

  /** Sending on or closing a closed channel would end the process. */
  predicate Panics(t: Table, step: Step)
    requires Enabled(t, step)
  {
    match step
    case Send(i) => t.channels[t.inFlight[i].id].closes > 0
    case Drain => exists id :: id in t.pending && id in t.channels && t.channels[id].closes > 0
    case _ => false
  }

  function ClosedChannels(channels: map<int, Channel>, ids: set<int>): map<int, Channel> {
    map id | id in channels :: if id in ids then channels[id].(closes := channels[id].closes + 1) else channels[id]
  }

  function Next(t: Table, step: Step): Table
    requires Enabled(t, step)
  {
    match step
    case Register =>
      var id := t.nextId + 1;
      t.(nextId := id, pending := t.pending + {id}, channels := t.channels[id := Channel([], 0, 0)])
    case Forget(id) => t.(pending := t.pending - {id})
    case Take(r) =>
      if r.id in t.pending then t.(pending := t.pending - {r.id}, inFlight := t.inFlight + [r]) else t
    case Send(i) =>
      var r := t.inFlight[i];
      var c := t.channels[r.id];
      t.(inFlight := t.inFlight[..i] + t.inFlight[i + 1..],
         channels := t.channels[r.id := Channel(c.buffer + [r], c.sends + 1, c.closes)])
    case BeginShutdown => t.(closing := true)
    case Drain => t.(drained := true, pending := {}, channels := ClosedChannels(t.channels, t.pending))
    case Receive(id) =>
      var c := t.channels[id];
      t.(channels := t.channels[id := c.(buffer := c.buffer[1..])], received := t.received[id := c.buffer[0]])
  }

  // ----- One token per channel -----

  function CountFor(rs: seq<Response>, id: int): nat {
    if rs == [] then 0 else CountFor(rs[..|rs| - 1], id) + if rs[|rs| - 1].id == id then 1 else 0
  }

  /** Rights to signal a channel that are still open or already used. */
  function Tokens(t: Table, id: int): nat
    requires id in t.channels
  {
    (if id in t.pending then 1 else 0) + CountFor(t.inFlight, id) + t.channels[id].sends + t.channels[id].closes
  }

  ghost predicate Inv(t: Table) {
    && t.pending <= t.channels.Keys
    && (forall id :: id in t.channels ==> 0 < id <= t.nextId && Tokens(t, id) <= 1)
    && (forall id :: id in t.channels ==>
          |t.channels[id].buffer| <= t.channels[id].sends && forall r :: r in t.channels[id].buffer ==> r.id == id)
    && (forall r :: r in t.inFlight ==> r.id in t.channels)
    && (forall id :: id in t.received ==> t.received[id].id == id && id in t.channels && t.channels[id].sends > 0)
  }

  lemma {:induction false} CountRemove(a: seq<Response>, r: Response, b: seq<Response>, id: int)
    ensures CountFor(a + [r] + b, id) == CountFor(a + b, id) + if r.id == id then 1 else 0
  {
    if b == [] {
      assert a + [r] + b == a + [r] && a + b == a && (a + [r])[..|a|] == a;
    } else {
      var front := b[..|b| - 1];
      CountRemove(a, r, front, id);
      assert (a + [r] + b)[..|a| + |b|] == a + [r] + front;
      assert (a + b)[..|a| + |b| - 1] == a + front;
    }
  }

  lemma {:induction false} CountPositive(rs: seq<Response>, i: nat)
    requires i < |rs|
    ensures CountFor(rs, rs[i].id) >= 1
  {
    if i < |rs| - 1 {
      CountPositive(rs[..|rs| - 1], i);
    }
  }

  lemma {:induction false} CountAbsent(rs: seq<Response>, id: int)
    requires forall r :: r in rs ==> r.id != id
    ensures CountFor(rs, id) == 0
  {
    if rs != [] {
      CountAbsent(rs[..|rs| - 1], id);
    }
  }

  lemma RegisterKeeps(t: Table)
    requires Inv(t)
    ensures Inv(Next(t, Register))
  {
    CountAbsent(t.inFlight, t.nextId + 1);
  }

  lemma TakeKeeps(t: Table, r: Response)
    requires Inv(t)
    ensures Inv(Next(t, Take(r)))
  {
    assert (t.inFlight + [r])[..|t.inFlight|] == t.inFlight;
  }

  lemma SendKeeps(t: Table, i: nat)
    requires Inv(t) && Enabled(t, Send(i))
    ensures Inv(Next(t, Send(i)))
  {
    var r := t.inFlight[i];
    var a, b := t.inFlight[..i], t.inFlight[i + 1..];
    assert t.inFlight == a + [r] + b;
    var n := Next(t, Send(i));
    forall id | id in n.channels
      ensures Tokens(n, id) <= 1
    {
      CountRemove(a, r, b, id);
    }
  }

  lemma DrainKeeps(t: Table)
    requires Inv(t) && Enabled(t, Drain)
    ensures Inv(Next(t, Drain))
  {
    var n := Next(t, Drain);
    forall id | id in n.channels
      ensures Tokens(n, id) <= 1
    {
      assert Tokens(n, id) == Tokens(t, id);
    }
  }

  lemma StepKeeps(t: Table, step: Step)
    requires Inv(t) && Enabled(t, step)
    ensures Inv(Next(t, step))
  {
    match step
    case Register => RegisterKeeps(t);
    case Take(r) => TakeKeeps(t, r);
    case Send(i) => SendKeeps(t, i);
    case Drain => DrainKeeps(t);
    case _ =>
  }

  // ----- Every run -----

  /** `t` can be reached by some interleaving of steps. */
  ghost predicate IsRun(states: seq<Table>, steps: seq<Step>) {
    && |states| == |steps| + 1 && states[0] == EMPTY
    && forall i :: 0 <= i < |steps| ==> Enabled(states[i], steps[i]) && states[i + 1] == Next(states[i], steps[i])
  }

  lemma {:induction false} RunKeeps(states: seq<Table>, steps: seq<Step>, k: nat)
    requires IsRun(states, steps) && k < |states|
    ensures Inv(states[k])
  {
    if k > 0 {
      RunKeeps(states, steps, k - 1);
      StepKeeps(states[k - 1], steps[k - 1]);
    }
  }

  /** In every run each channel gets at most one send or close, no step blocks or panics, and a
      caller only ever receives the response carrying its own ID. */
  lemma RunIsSafe(states: seq<Table>, steps: seq<Step>, k: nat, step: Step)
    requires IsRun(states, steps) && k < |states|
    ensures var t := states[k];
            && (forall id :: id in t.channels ==> t.channels[id].sends + t.channels[id].closes <= 1)
            && (forall id :: id in t.received ==> t.received[id].id == id)
            && (Enabled(t, step) ==> !Blocks(t, step) && !Panics(t, step))
  {
    RunKeeps(states, steps, k);
    var t := states[k];
    assert forall id :: id in t.channels ==> Tokens(t, id) <= 1;
    if Enabled(t, step) && step.Send? {
      CountPositive(t.inFlight, step.i);
    }
  }

  /** A response that is received was looked up in the table for that request, and no second
      response for it ever is. */
  lemma DuplicateIsDropped(states: seq<Table>, steps: seq<Step>, k: nat, r: Response)
    requires IsRun(states, steps) && k < |states|
    requires r.id in states[k].channels && (states[k].channels[r.id].sends > 0 || CountFor(states[k].inFlight, r.id) > 0)
    ensures Next(states[k], Take(r)) == states[k]
  {
    RunKeeps(states, steps, k);
    assert Tokens(states[k], r.id) <= 1;
  }

  // ----- Who finds a closed channel -----

  /** The request was registered when the table was drained. */
  ghost predicate PendingAtDrain(states: seq<Table>, steps: seq<Step>, k: nat, id: int)
    requires IsRun(states, steps) && k < |states|
  {
    exists d :: 0 <= d < k && steps[d].Drain? && id in states[d].pending
  }

  lemma StepCloses(t: Table, step: Step, id: int)
    requires Inv(t) && Enabled(t, step) && id in Next(t, step).channels
    ensures Next(t, step).channels[id].closes ==
            (if id in t.channels then t.channels[id].closes else 0) + if step.Drain? && id in t.pending then 1 else 0
  {
  }

  predicate IsClosed(t: Table, id: int) {
    id in t.channels && t.channels[id].closes > 0
  }

  lemma ClosedAfter(t: Table, step: Step, id: int)
    requires Inv(t) && Enabled(t, step)
    ensures IsClosed(Next(t, step), id) <==> IsClosed(t, id) || (step.Drain? && id in t.pending)
  {
    if id in Next(t, step).channels {
      StepCloses(t, step, id);
    }
  }

  lemma PendingAtDrainNext(states: seq<Table>, steps: seq<Step>, k: nat, id: int)
    requires IsRun(states, steps) && 0 < k < |states|
    ensures PendingAtDrain(states, steps, k, id) <==>
            PendingAtDrain(states, steps, k - 1, id) || (steps[k - 1].Drain? && id in states[k - 1].pending)
  {
  }

  lemma {:induction false} ClosedWhenPending(states: seq<Table>, steps: seq<Step>, k: nat, id: int)
    requires IsRun(states, steps) && k < |states|
    ensures PendingAtDrain(states, steps, k, id) <==> IsClosed(states[k], id)
  {
    if k > 0 {
      RunKeeps(states, steps, k - 1);
      ClosedWhenPending(states, steps, k - 1, id);
      PendingAtDrainNext(states, steps, k, id);
      ClosedAfter(states[k - 1], steps[k - 1], id);
    }
  }

  /** In every run a caller finds its channel closed iff its request was still registered when the
      table was drained, and then the channel never held a response: the nil it receives is the only
      thing it ever will. */
  lemma ClosedIffPendingAtDrain(states: seq<Table>, steps: seq<Step>, k: nat, id: int)
    requires IsRun(states, steps) && k < |states| && id in states[k].channels
    ensures states[k].channels[id].closes > 0 <==> PendingAtDrain(states, steps, k, id)
    ensures states[k].channels[id].closes > 0 ==> states[k].channels[id] == Channel([], 0, 1) && id !in states[k].received
  {
    ClosedWhenPending(states, steps, k, id);
    RunKeeps(states, steps, k);
    assert Tokens(states[k], id) <= 1;
  }

  // ----- One outcome per request -----

  /** The caller gave up while its request was registered. */
  ghost predicate Forgotten(states: seq<Table>, steps: seq<Step>, k: nat, id: int)
    requires IsRun(states, steps) && k < |states|
  {
    exists d :: 0 <= d < k && steps[d] == Forget(id) && id in states[d].pending
  }

  lemma ForgottenNext(states: seq<Table>, steps: seq<Step>, k: nat, id: int)
    requires IsRun(states, steps) && 0 < k < |states|
    ensures Forgotten(states, steps, k, id) <==>
            Forgotten(states, steps, k - 1, id) || (steps[k - 1] == Forget(id) && id in states[k - 1].pending)
  {
  }

  lemma StepGrows(t: Table, step: Step, id: int)
    requires Inv(t) && Enabled(t, step)
    ensures id in Next(t, step).channels <==> id in t.channels || (step.Register? && id == t.nextId + 1)
  {
  }

  lemma {:induction false} ForgottenHasChannel(states: seq<Table>, steps: seq<Step>, k: nat, id: int)
    requires IsRun(states, steps) && k < |states|
    ensures Forgotten(states, steps, k, id) ==> id in states[k].channels
  {
    if k > 0 {
      ForgottenHasChannel(states, steps, k - 1, id);
      ForgottenNext(states, steps, k, id);
      RunKeeps(states, steps, k - 1);
      StepGrows(states[k - 1], steps[k - 1], id);
    }
  }

  lemma TakeTokens(t: Table, r: Response, id: int)
    requires Inv(t) && id in t.channels
    ensures Tokens(Next(t, Take(r)), id) == Tokens(t, id)
  {
    assert (t.inFlight + [r])[..|t.inFlight|] == t.inFlight;
  }

  lemma SendTokens(t: Table, i: nat, id: int)
    requires Inv(t) && Enabled(t, Send(i)) && id in t.channels
    ensures Tokens(Next(t, Send(i)), id) == Tokens(t, id)
  {
    var a, b := t.inFlight[..i], t.inFlight[i + 1..];
    assert t.inFlight == a + [t.inFlight[i]] + b;
    CountRemove(a, t.inFlight[i], b, id);
  }

  /** Only giving up destroys the right to signal a channel. */
  lemma StepTokens(t: Table, step: Step, id: int)
    requires Inv(t) && Enabled(t, step) && id in t.channels
    ensures Tokens(Next(t, step), id) == Tokens(t, id) - if step == Forget(id) && id in t.pending then 1 else 0
  {
    match step
    case Take(r) => TakeTokens(t, r, id);
    case Send(i) => SendTokens(t, i, id);
    case _ =>
  }

  lemma RegisterTokens(t: Table)
    requires Inv(t)
    ensures Tokens(Next(t, Register), t.nextId + 1) == 1
  {
    CountAbsent(t.inFlight, t.nextId + 1);
  }

  lemma {:induction false} TokensLeft(states: seq<Table>, steps: seq<Step>, k: nat, id: int)
    requires IsRun(states, steps) && k < |states| && id in states[k].channels
    ensures Tokens(states[k], id) == if Forgotten(states, steps, k, id) then 0 else 1
  {
    if k > 0 {
      var t, step := states[k - 1], steps[k - 1];
      RunKeeps(states, steps, k - 1);
      ForgottenNext(states, steps, k, id);
      ForgottenHasChannel(states, steps, k - 1, id);
      StepGrows(t, step, id);
      if id in t.channels {
        TokensLeft(states, steps, k - 1, id);
        StepTokens(t, step, id);
      } else {
        RegisterTokens(t);
      }
    }
  }

  /** In every run a request ends in exactly one way: it is still registered, or its response is in
      flight, or it was sent, or its channel was closed, and never two of these. Only a request its
      caller gave up on ends in none. */
  lemma ExactlyOneOutcome(states: seq<Table>, steps: seq<Step>, k: nat, id: int)
    requires IsRun(states, steps) && k < |states| && id in states[k].channels
    ensures var t := states[k];
            (if id in t.pending then 1 else 0) + CountFor(t.inFlight, id) + t.channels[id].sends + t.channels[id].closes
            == if Forgotten(states, steps, k, id) then 0 else 1
  {
    TokensLeft(states, steps, k, id);
  }

  /** In every run the table is drained at most once, and only after a shutdown began. */
  lemma {:induction false} ShutdownFlags(states: seq<Table>, steps: seq<Step>, k: nat)
    requires IsRun(states, steps) && k < |states|
    ensures states[k].closing <==> exists d :: 0 <= d < k && steps[d].BeginShutdown?
    ensures states[k].drained <==> exists d :: 0 <= d < k && steps[d].Drain?
  {
    if k > 0 {
      ShutdownFlags(states, steps, k - 1);
      assert states[k] == Next(states[k - 1], steps[k - 1]);
    }
  }

  lemma DrainedOnce(states: seq<Table>, steps: seq<Step>, d: nat)
    requires IsRun(states, steps) && d < |steps| && steps[d].Drain?
    ensures exists b :: 0 <= b < d && steps[b].BeginShutdown?
    ensures forall e :: 0 <= e < |steps| && steps[e].Drain? ==> e == d
  {
    ShutdownFlags(states, steps, d);
    assert Enabled(states[d], steps[d]);
    forall e | 0 <= e < |steps| && steps[e].Drain?
      ensures e == d
    {
      ShutdownFlags(states, steps, e);
      assert Enabled(states[e], steps[e]);
    }
  }

  lemma SendIsSafe(t: Table, i: nat)
    requires Inv(t) && i < |t.inFlight|
    ensures Enabled(t, Send(i)) && !Blocks(t, Send(i)) && !Panics(t, Send(i))
    ensures t.channels[t.inFlight[i].id] == Channel([], 0, 0)
  {
    var r := t.inFlight[i];
    assert r in t.inFlight;
    assert Tokens(t, r.id) <= 1;
    CountPositive(t.inFlight, i);
    assert t.channels[r.id].buffer == [];
  }

  lemma DrainClosesOnce(t: Table)
    requires Inv(t)
    ensures forall id :: id in t.pending ==>
              id in t.channels && ClosedChannels(t.channels, t.pending)[id] == Channel([], 0, 1)
  {
    forall id | id in t.pending
      ensures id in t.channels && t.channels[id] == Channel([], 0, 0)
    {
      assert Tokens(t, id) <= 1;
      assert t.channels[id].buffer == [];
    }
  }

  // ----- The object -----

  /** The session as its goroutines change it. Every method is one step, keeps the invariant, and
      needs nothing but the invariant to be safe. */
  class Session {
    var nextId: nat
    var pending: set<int>
    var channels: map<int, Channel>
    var inFlight: seq<Response>
    var closing: bool
    var drained: bool
    var received: map<int, Response>

    function Value(): Table
      reads this
    {
      Table(nextId, pending, channels, inFlight, closing, drained, received)
    }

    ghost predicate Valid()
      reads this
    {
      Inv(Value())
    }

    constructor ()
      ensures Valid() && Value() == EMPTY
    {
      nextId, pending, channels, inFlight := 0, {}, map[], [];
      closing, drained, received := false, false, map[];
    }

    /** A request gets an ID no other request ever had and a channel nobody has signalled; nothing
        that was registered, in flight or delivered is disturbed. */
    method RegisterRequest() returns (id: nat)
      requires Valid()
      modifies this
      ensures Valid() && Value() == Next(old(Value()), Register)
      ensures id !in old(channels) && (forall other :: other in old(channels) ==> other < id)
      ensures id in pending && channels[id] == Channel([], 0, 0) && (forall r :: r in inFlight ==> r.id != id)
      ensures forall other :: other in old(channels) ==>
                other in channels && channels[other] == old(channels)[other] && (other in pending <==> other in old(pending))
    {
      RegisterKeeps(Value());
      nextId := nextId + 1;
      id := nextId;
      channels := channels[id := Channel([], 0, 0)];
      pending := pending + {id};
    }

    method ForgetRequest(id: int)
      requires Valid()
      modifies this
      ensures Valid() && Value() == Next(old(Value()), Forget(id)) && id !in pending
    {
      StepKeeps(Value(), Forget(id));
      pending := pending - {id};
    }

    /** Claims the entry of a response, so no second response and no shutdown can; a response nobody
        waits for is dropped. */
    method TakeEntry(r: Response) returns (found: bool)
      requires Valid()
      modifies this
      ensures Valid() && Value() == Next(old(Value()), Take(r))
      ensures found == (r.id in old(pending)) && r.id !in pending
      ensures inFlight == if found then old(inFlight) + [r] else old(inFlight)
    {
      TakeKeeps(Value(), r);
      found := r.id in pending;
      pending := pending - {r.id};
      if found {
        inFlight := inFlight + [r];
      }
    }

    /** Sends any response in flight. Its channel is always open and empty, so the send neither
        blocks nor panics, and its own caller finds exactly this response. */
    method SendResponse(i: nat)
      requires Valid() && i < |inFlight|
      modifies this
      ensures Valid() && Enabled(old(Value()), Send(i)) && Value() == Next(old(Value()), Send(i))
      ensures !Blocks(old(Value()), Send(i)) && !Panics(old(Value()), Send(i))
      ensures var r := old(inFlight)[i]; r.id in channels && channels[r.id] == Channel([r], 1, 0)
    {
      SendIsSafe(Value(), i);
      SendKeeps(Value(), i);
      var r := inFlight[i];
      var c := channels[r.id];
      channels := channels[r.id := Channel(c.buffer + [r], c.sends + 1, c.closes)];
      inFlight := inFlight[..i] + inFlight[i + 1..];
    }

    method StartShutdown() returns (first: bool)
      requires Valid()
      modifies this
      ensures Valid() && Value() == Next(old(Value()), BeginShutdown) && first == !old(closing)
    {
      StepKeeps(Value(), BeginShutdown);
      first := !closing;
      closing := true;
    }

    method CloseAll()
      requires pending <= channels.Keys
      modifies this`pending, this`channels
      ensures pending == {} && channels == ClosedChannels(old(channels), old(pending))
    {
      var todo := pending;
      assert ClosedChannels(channels, {}) == channels;
      while todo != {}
        invariant todo <= old(pending) && pending == todo
        invariant channels == ClosedChannels(old(channels), old(pending) - todo)
        decreases |todo|
      {
        EmptyOrInhabited(todo);
        var id :| id in todo;
        channels := channels[id := channels[id].(closes := channels[id].closes + 1)];
        assert channels == ClosedChannels(old(channels), old(pending) - (todo - {id}));
        todo := todo - {id};
        pending := pending - {id};
      }
      assert old(pending) - {} == old(pending);
    }

    /** Closes every registered channel once and empties the table; no channel is closed twice or
        after a send. */
    method DrainTable()
      requires Valid() && closing && !drained
      modifies this
      ensures Valid() && Enabled(old(Value()), Drain) && Value() == Next(old(Value()), Drain)
      ensures pending == {} && forall id :: id in old(pending) ==> id in channels && channels[id] == Channel([], 0, 1)
    {
      DrainKeeps(Value());
      DrainClosesOnce(Value());
      CloseAll();
      drained := true;
    }

    /** A caller takes the response out of its channel; it is the one with its own ID. */
    method ReceiveResponse(id: int) returns (r: Response)
      requires Valid() && id in channels && channels[id].buffer != []
      modifies this
      ensures Valid() && Enabled(old(Value()), Receive(id)) && Value() == Next(old(Value()), Receive(id))
      ensures r.id == id && channels[id].buffer == []
    {
      StepKeeps(Value(), Receive(id));
      assert Tokens(Value(), id) <= 1;
      var c := channels[id];
      r := c.buffer[0];
      assert r in c.buffer;
      channels := channels[id := c.(buffer := c.buffer[1..])];
      received := received[id := r];
    }
  }
}
