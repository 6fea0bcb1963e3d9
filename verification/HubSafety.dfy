/** What every run of the realtime hub keeps, however its steps interleave. */
module HubSafety {
  import opened Text
  import opened Hub
  import opened HubRuns

  // ----- what every run keeps -----------------------------------------------------------------------

  predicate ConnSafe(conn: Conn, buffer: nat) {
    && conn.taken <= |conn.accepted| <= conn.taken + buffer
    && conn.closes == if conn.once.Finished? then 1 else 0
  }

  predicate CallSafe(call: Subscribing, authorized: set<string>, channels: map<string, Channel>) {
    match call
    case NoCall => true
    case Looked(name, isPrivate) => name in channels && channels[name].isPrivate == isPrivate
    case Allowed(name) => name in channels && (channels[name].isPrivate ==> name in authorized)
  }

  /** A client of the hub has a connection whose remove has not been past its locked section. */
  predicate Present(c: Client, conns: map<Client, Conn>) {
    c in conns && (conns[c].once.Idle? || conns[c].once.Running?)
  }

  predicate ChannelSafe(name: string, channel: Channel, conns: map<Client, Conn>) {
    forall c :: c in channel.subscribers ==> c in conns && (channel.isPrivate ==> name in conns[c].authorized)
  }

  predicate ConnsSafe(s: State) {
    forall c :: c in s.conns ==>
      ConnSafe(s.conns[c], s.buffer) && CallSafe(s.conns[c].call, s.conns[c].authorized, s.shared.channels)
  }

  predicate ClientsSafe(s: State) {
    forall c :: c in s.shared.clients ==> Present(c, s.conns)
  }

  predicate ChannelsSafe(s: State) {
    forall name :: name in s.shared.channels ==> ChannelSafe(name, s.shared.channels[name], s.conns)
  }

  predicate ClosingSafe(s: State) {
    match s.closing
    case NotCalled => !s.shared.closed
    case Closing(pending, removing) =>
      s.shared.closed && s.shared.clients <= pending + if removing.Some? then {removing.value} else {}
    case Returned => s.shared.closed && s.shared.clients == {}
  }

  predicate Safe(s: State) {
    ConnsSafe(s) && ClientsSafe(s) && ChannelsSafe(s) && ClosingSafe(s)
  }

  lemma OpKeepsConn(conn: Conn, buffer: nat, op: Op, s: Shared)
    requires OpEnabled(conn, op) && ConnSafe(conn, buffer)
    ensures ConnSafe(OpConn(conn, buffer, op, s), buffer)
    ensures conn.authorized <= OpConn(conn, buffer, op, s).authorized
  {
    hide TrimSpace;
  }

  lemma OpKeepsCall(c: Client, conn: Conn, buffer: nat, op: Op, s: Shared)
    requires OpEnabled(conn, op) && CallSafe(conn.call, conn.authorized, s.channels)
    ensures var after := OpConn(conn, buffer, op, s); CallSafe(after.call, after.authorized, s.channels)
  {
    hide TrimSpace;
  }

  lemma CallStaysSafe(call: Subscribing, authorized: set<string>, s: Shared, t: Shared)
    requires Keeps(s, t) && CallSafe(call, authorized, s.channels)
    ensures CallSafe(call, authorized, t.channels)
  {}

  lemma OpSharedKeeps(c: Client, conn: Conn, op: Op, s: Shared)
    requires OpEnabled(conn, op)
    ensures Keeps(s, OpShared(c, conn, op, s))
    ensures OpShared(c, conn, op, s).closed == s.closed
    ensures OpShared(c, conn, op, s).clients == if op.Delete? then s.clients - {c} else s.clients
  {
    SectionsKeep(s, c, if op.Commit? then conn.call.name else if op.Unsubscribe? then op.name else "", false);
    hide TrimSpace, Keeps;
    assert Keeps(s, s) by {
      KeepsItself(s);
    }
  }

  lemma KeepsItself(s: Shared)
    ensures Keeps(s, s)
  {}

  lemma OpKeepsConns(s: State, c: Client, op: Op)
    requires Enabled(s, OfClient(c, op)) && ConnsSafe(s)
    ensures ConnsSafe(AfterOp(s, c, op))
  {
    var t := AfterOp(s, c, op);
    OpSharedKeeps(c, s.conns[c], op, s.shared);
    OpKeepsConn(s.conns[c], s.buffer, op, s.shared);
    OpKeepsCall(c, s.conns[c], s.buffer, op, s.shared);
    hide Keeps, CallSafe, ConnSafe, OpEnabled, OpShared, OpConn;
    forall d | d in t.conns
      ensures ConnSafe(t.conns[d], t.buffer) && CallSafe(t.conns[d].call, t.conns[d].authorized, t.shared.channels)
    {
      CallStaysSafe(t.conns[d].call, t.conns[d].authorized, s.shared, t.shared);
    }
  }

  lemma OpKeepsClients(s: State, c: Client, op: Op)
    requires Enabled(s, OfClient(c, op)) && ClientsSafe(s)
    ensures ClientsSafe(AfterOp(s, c, op))
  {
    OpSharedKeeps(c, s.conns[c], op, s.shared);
    OpKeepsOnce(s.conns[c], s.buffer, op, s.shared);
    hide Keeps, OpEnabled, OpShared, OpConn;
  }

  lemma OpKeepsOnce(conn: Conn, buffer: nat, op: Op, s: Shared)
    requires OpEnabled(conn, op)
    ensures (conn.once.Idle? || conn.once.Running?) && !op.Delete? ==>
      OpConn(conn, buffer, op, s).once.Idle? || OpConn(conn, buffer, op, s).once.Running?
  {
    hide TrimSpace;
  }

  /** Only the commit of a subscribe makes a client a subscriber. */
  lemma OpSubscribers(c: Client, conn: Conn, op: Op, s: Shared, name: string, d: Client)
    requires OpEnabled(conn, op)
    requires name in OpShared(c, conn, op, s).channels && d in OpShared(c, conn, op, s).channels[name].subscribers
    ensures name in s.channels
    ensures d in s.channels[name].subscribers || (d == c && op.Commit? && conn.call == Allowed(name))
  {
    hide TrimSpace;
  }

  lemma OpKeepsChannels(s: State, c: Client, op: Op)
    requires Enabled(s, OfClient(c, op)) && ChannelsSafe(s) && ConnsSafe(s)
    ensures ChannelsSafe(AfterOp(s, c, op))
  {
    var t := AfterOp(s, c, op);
    OpSharedKeeps(c, s.conns[c], op, s.shared);
    OpKeepsConn(s.conns[c], s.buffer, op, s.shared);
    hide TrimSpace, OpEnabled, OpShared, OpConn, ConnSafe;
    forall name, d | name in t.shared.channels && d in t.shared.channels[name].subscribers
      ensures d in t.conns && (t.shared.channels[name].isPrivate ==> name in t.conns[d].authorized)
    {
      OpSubscribers(c, s.conns[c], op, s.shared, name, d);
      assert name in s.shared.channels;
    }
  }

  lemma OpKeepsClosing(s: State, c: Client, op: Op)
    requires Enabled(s, OfClient(c, op)) && ClosingSafe(s)
    ensures ClosingSafe(AfterOp(s, c, op))
  {
    OpSharedKeeps(c, s.conns[c], op, s.shared);
    hide Keeps, OpEnabled, OpShared, OpConn;
  }

  // ----- Publish -----------------------------------------------------------------------------------

  /** Two connection tables that differ only in queues and histories. */
  predicate SameClients(conns: map<Client, Conn>, others: map<Client, Conn>, buffer: nat) {
    && others.Keys == conns.Keys
    && (forall c :: c in conns ==> SameClient(conns[c], others[c], buffer))
  }

  predicate SameClient(conn: Conn, other: Conn, buffer: nat) {
    && (ConnSafe(conn, buffer) ==> ConnSafe(other, buffer))
    && other.once == conn.once && other.call == conn.call && other.authorized == conn.authorized
  }

  lemma SameClientsKeep(s: State, t: State)
    requires Safe(s) && t.buffer == s.buffer && t.shared == s.shared && t.closing == s.closing
    requires SameClients(s.conns, t.conns, s.buffer)
    ensures Safe(t)
  {
    hide ConnSafe, CallSafe;
  }

  lemma ActKeeps(s: State, id: nat, act: Act)
    requires Enabled(s, OfPublish(id, act)) && Safe(s)
    ensures Safe(AfterAct(s, id, act))
  {
    hide Safe, ActPublishing;
    SameClientsKeep(s, AfterAct(s, id, act));
  }

  lemma SnapshotKeeps(s: State, id: nat, channel: string, payload: string)
    requires channel in s.shared.channels && Safe(s)
    ensures Safe(AfterSnapshot(s, id, channel, payload))
  {
    hide Safe;
    SameClientsKeep(s, AfterSnapshot(s, id, channel, payload));
  }

  // ----- registration, new clients, Close -----------------------------------------------------------

  lemma RegisterKeeps(s: State, name: string, isPrivate: bool)
    requires Safe(s)
    ensures Safe(After(s, Register(name, isPrivate)))
  {
    var t := After(s, Register(name, isPrivate));
    SectionsKeep(s.shared, 0, name, isPrivate);
    RegisteredOnlyAddsEmpty(s.shared, name, isPrivate);
    hide CallSafe, ConnSafe, Keeps, Registered, TrimSpace;
    forall c | c in t.conns
      ensures CallSafe(t.conns[c].call, t.conns[c].authorized, t.shared.channels)
    {
      CallStaysSafe(t.conns[c].call, t.conns[c].authorized, s.shared, t.shared);
    }
  }

  lemma RegisteredOnlyAddsEmpty(s: Shared, name: string, isPrivate: bool)
    ensures var t := Registered(s, name, isPrivate).0;
      && t.clients == s.clients && t.closed == s.closed
      && forall n :: n in t.channels ==>
           (n in s.channels && t.channels[n] == s.channels[n]) || t.channels[n].subscribers == {}
  {
    hide TrimSpace;
  }

  lemma AddKeeps(s: State, c: Client)
    requires Safe(s) && c !in s.conns
    ensures Safe(After(s, Add(c)))
  {
    hide CallSafe, ConnSafe;
    assert ConnSafe(NewConn(), s.buffer) && CallSafe(NewConn().call, NewConn().authorized, s.shared.channels) by {
      NewConnSafe(s.buffer, s.shared.channels);
    }
  }

  lemma NewConnSafe(buffer: nat, channels: map<string, Channel>)
    ensures ConnSafe(NewConn(), buffer) && CallSafe(NewConn().call, NewConn().authorized, channels)
  {}

  predicate IsCloseStep(step: Step) {
    step.StartClose? || step.PickClose? || step.RemovedByClose? || step.EndClose?
  }

  lemma CloseKeeps(s: State, step: Step)
    requires Safe(s) && Enabled(s, step) && IsCloseStep(step)
    ensures Safe(After(s, step))
  {
    hide CallSafe, ConnSafe, ChannelSafe, AfterOp, AfterAct, AfterSnapshot, Registered;
  }

  /** No step breaks what is kept. */
  lemma StepKeeps(s: State, step: Step)
    requires Safe(s) && Enabled(s, step)
    ensures Safe(After(s, step)) && After(s, step).buffer == s.buffer
  {
    match step
    case Register(name, isPrivate) => RegisterKeeps(s, name, isPrivate);
    case Add(c) => AddKeeps(s, c);
    case OfClient(c, op) =>
      OpKeepsConns(s, c, op);
      OpKeepsClients(s, c, op);
      OpKeepsChannels(s, c, op);
      OpKeepsClosing(s, c, op);
    case Snapshot(id, channel, event, payload) =>
      if channel in s.shared.channels {
        SnapshotKeeps(s, id, channel, payload);
      }
    case OfPublish(id, act) => ActKeeps(s, id, act);
    case _ => CloseKeeps(s, step);
    hide ConnsSafe, ClientsSafe, ChannelsSafe, ClosingSafe, TrimSpace, OpEnabled, ActEnabled, OpShared, OpConn,
      Registered;
  }

  lemma {:induction false} RunKeeps(s: State, steps: seq<Step>)
    requires Safe(s) && IsRun(s, steps)
    ensures Safe(Run(s, steps)) && Run(s, steps).buffer == s.buffer
    decreases |steps|
  {
    hide Safe, After, Enabled;
    if steps != [] {
      StepKeeps(s, steps[0]);
      RunKeeps(After(s, steps[0]), steps[1..]);
    }
  }

  lemma InitialSafe(buffer: nat)
    ensures Safe(Initial(buffer))
  {}

  /** What is in a client's `send` channel now. */
  function Queue(conn: Conn): seq<Message>
    requires conn.taken <= |conn.accepted|
  {
    conn.accepted[conn.taken..]
  }

  /** The steps treat the queue as a bounded first-in-first-out buffer. */
  lemma QueueIsFifo(conn: Conn, buffer: nat, m: Message)
    requires ConnSafe(conn, buffer)
    ensures Queue(Put(conn, buffer, m)) == if |Queue(conn)| < buffer then Queue(conn) + [m] else Queue(conn)
    ensures OpEnabled(conn, Take) <==> Queue(conn) != []
    ensures Queue(conn) != [] ==> Queue(conn.(taken := conn.taken + 1)) == Queue(conn)[1..]
  {}

  // ----- the guarantees --------------------------------------------------------------------------------

  /** A client's queue never holds more than the buffer, whoever sends. */
  lemma QueueBounded(buffer: nat, steps: seq<Step>, c: Client)
    requires IsRun(Initial(buffer), steps) && c in Run(Initial(buffer), steps).conns
    ensures var conn := Run(Initial(buffer), steps).conns[c];
      0 <= |conn.accepted| - conn.taken <= buffer
  {
    hide Run, IsRun, Initial, CallSafe;
    InitialSafe(buffer);
    RunKeeps(Initial(buffer), steps);
    assert ConnSafe(Run(Initial(buffer), steps).conns[c], Run(Initial(buffer), steps).buffer);
    assert Initial(buffer).buffer == buffer by {
      InitialBuffer(buffer);
    }
  }

  lemma InitialBuffer(buffer: nat)
    ensures Initial(buffer).buffer == buffer
  {}

  /** Whenever a client's done channel is closed, it was open until then and the client has left the hub;
      so it is closed at most once. */
  lemma DoneClosesOnce(buffer: nat, steps: seq<Step>, c: Client)
    requires IsRun(Initial(buffer), steps)
    ensures var s := Run(Initial(buffer), steps);
      && (Enabled(s, OfClient(c, CloseDone)) ==> s.conns[c].closes == 0 && c !in s.shared.clients)
      && (c in s.conns ==> s.conns[c].closes <= 1)
      && (c in s.conns && s.conns[c].closes == 1 ==> c !in s.shared.clients)
  {
    hide Run, IsRun, Initial, CallSafe;
    InitialSafe(buffer);
    RunKeeps(Initial(buffer), steps);
    var s := Run(Initial(buffer), steps);
    if c in s.conns {
      assert ConnSafe(s.conns[c], s.buffer);
      assert c in s.shared.clients ==> Present(c, s.conns);
    }
  }

  /** At some step of the run, the AuthFunc of private channel `name` was asked for `c` and allowed it. */
  predicate WasAllowed(s: State, steps: seq<Step>, c: Client, name: string)
    requires IsRun(s, steps)
    decreases |steps|
  {
    steps != [] &&
    ((steps[0] == OfClient(c, Authorize(true)) && s.conns[c].call == Looked(name, true)) ||
     WasAllowed(After(s, steps[0]), steps[1..], c, name))
  }

  predicate IsAuthorized(s: State, c: Client, name: string) {
    c in s.conns && name in s.conns[c].authorized
  }

  lemma OpAuthorizes(conn: Conn, buffer: nat, op: Op, s: Shared)
    requires OpEnabled(conn, op)
    ensures OpConn(conn, buffer, op, s).authorized == conn.authorized +
      if op == Authorize(true) && conn.call.isPrivate then {conn.call.name} else {}
  {
    hide TrimSpace;
  }

  lemma StepAuthorizes(s: State, step: Step, c: Client, name: string)
    requires Enabled(s, step) && !IsAuthorized(s, c, name) && IsAuthorized(After(s, step), c, name)
    ensures step == OfClient(c, Authorize(true)) && s.conns[c].call == Looked(name, true)
  {
    hide OpConn, OpShared, TrimSpace, ActPublishing, Registered;
    if step.OfClient? {
      OpAuthorizes(s.conns[step.c], s.buffer, step.op, s.shared);
    }
  }

  lemma {:induction false} AuthorizedWasAllowed(s: State, steps: seq<Step>, c: Client, name: string)
    requires IsRun(s, steps) && IsAuthorized(Run(s, steps), c, name)
    ensures IsAuthorized(s, c, name) || WasAllowed(s, steps, c, name)
    decreases |steps|
  {
    hide IsAuthorized, Enabled, After;
    if steps != [] {
      AuthorizedWasAllowed(After(s, steps[0]), steps[1..], c, name);
      if !IsAuthorized(s, c, name) && IsAuthorized(After(s, steps[0]), c, name) {
        StepAuthorizes(s, steps[0], c, name);
      }
    }
  }

  /** Every subscriber of a private channel was authorized for it, by that channel's AuthFunc, after it
      was registered as private. */
  lemma PrivateSubscribersAuthorized(buffer: nat, steps: seq<Step>, name: string, c: Client)
    requires IsRun(Initial(buffer), steps)
    ensures var s := Run(Initial(buffer), steps);
      name in s.shared.channels && s.shared.channels[name].isPrivate && c in s.shared.channels[name].subscribers ==>
        WasAllowed(Initial(buffer), steps, c, name)
  {
    hide Run, IsRun, ConnSafe, CallSafe, WasAllowed;
    InitialSafe(buffer);
    RunKeeps(Initial(buffer), steps);
    var s := Run(Initial(buffer), steps);
    if name in s.shared.channels && s.shared.channels[name].isPrivate && c in s.shared.channels[name].subscribers {
      assert ChannelSafe(name, s.shared.channels[name], s.conns);
      AuthorizedWasAllowed(Initial(buffer), steps, c, name);
    }
  }

  lemma ReturnedStays(s: State, step: Step)
    requires Enabled(s, step) && s.closing.Returned?
    ensures After(s, step).closing.Returned?
  {
    hide OpEnabled, ActEnabled, OpShared, OpConn, Registered, TrimSpace, ActConns, ActPublishing, Include;
  }

  lemma {:induction false} ReturnedForGood(s: State, steps: seq<Step>)
    requires IsRun(s, steps) && s.closing.Returned?
    ensures Run(s, steps).closing.Returned?
    decreases |steps|
  {
    hide After, Enabled;
    if steps != [] {
      ReturnedStays(s, steps[0]);
      ReturnedForGood(After(s, steps[0]), steps[1..]);
    }
  }

  /** Once Close has returned the hub has no client, and no step ever adds one. */
  lemma NoClientAfterClose(buffer: nat, before: seq<Step>, steps: seq<Step>, c: Client)
    requires IsRun(Initial(buffer), before) && Run(Initial(buffer), before).closing.Returned?
    requires IsRun(Run(Initial(buffer), before), steps)
    ensures var s := Run(Run(Initial(buffer), before), steps);
      s.shared.clients == {} && Added(s.shared, c) == (s.shared, false)
  {
    hide Run, IsRun, Initial, ConnSafe, CallSafe, ConnsSafe, ClientsSafe, ChannelsSafe;
    InitialSafe(buffer);
    RunKeeps(Initial(buffer), before);
    RunKeeps(Run(Initial(buffer), before), steps);
    ReturnedForGood(Run(Initial(buffer), before), steps);
  }

  // ----- nothing is queued for a client whose done channel is closed -------------------------------------

  /** The client's done channel is closed, and nobody is past enqueue's first select with something for it. */
  predicate IsSettled(s: State, c: Client) {
    && c in s.conns && s.conns[c].closes > 0 && s.conns[c].reply.None?
    && forall id :: id in s.publishes ==> s.publishes[id].stage != Sending(c)
  }

  lemma OpSettled(conn: Conn, buffer: nat, op: Op, s: Shared)
    requires OpEnabled(conn, op) && conn.closes > 0 && conn.reply.None?
    ensures var after := OpConn(conn, buffer, op, s);
      after.closes > 0 && after.reply.None? && after.accepted == conn.accepted
  {
    hide TrimSpace;
  }

  lemma StepSettled(s: State, step: Step, c: Client)
    requires Enabled(s, step) && IsSettled(s, c)
    ensures IsSettled(After(s, step), c) && After(s, step).conns[c].accepted == s.conns[c].accepted
  {
    match step
    case OfClient(d, op) =>
      if d == c {
        OpSettled(s.conns[c], s.buffer, op, s.shared);
      }
      hide OpConn, OpEnabled, OpShared;
    case OfPublish(id, act) =>
      hide Room;
    case _ =>
      hide TrimSpace, OpEnabled, ActEnabled, Registered, AfterOp, AfterAct;
  }

  /** From then on nothing is ever put into its queue, neither events nor replies. */
  lemma {:induction false} ClosedTakesNothing(s: State, steps: seq<Step>, c: Client)
    requires IsSettled(s, c) && IsRun(s, steps)
    ensures c in Run(s, steps).conns && Run(s, steps).conns[c].accepted == s.conns[c].accepted
    decreases |steps|
  {
    if steps != [] {
      StepSettled(s, steps[0], c);
      hide IsSettled, Enabled, After;
      ClosedTakesNothing(After(s, steps[0]), steps[1..], c);
    }
  }

  // ----- when subscribers are clients of the hub -----------------------------------------------------

  predicate SubscribersAreClients(s: Shared) {
    forall name :: name in s.channels ==> s.channels[name].subscribers <= s.clients
  }

  /** The second locked section of a subscribe takes effect for a client that has left the hub: the section
      looks at `closed` and the channel, and not at the clients. */
  predicate IsStrayCommit(s: State, step: Step) {
    && step.OfClient? && step.op.Commit? && Enabled(s, step)
    && !s.shared.closed && s.conns[step.c].call.name in s.shared.channels
    && step.c !in s.shared.clients
  }

  lemma CommitKeepsSubscribersExactly(s: Shared, c: Client, name: string)
    requires SubscribersAreClients(s)
    ensures SubscribersAreClients(Subscribed(s, c, name).0) <==> s.closed || name !in s.channels || c in s.clients
  {
    var t := Subscribed(s, c, name).0;
    if !s.closed && name in s.channels {
      assert c in t.channels[name].subscribers;
    }
  }

  lemma OtherOpKeepsSubscribers(c: Client, conn: Conn, op: Op, s: Shared)
    requires SubscribersAreClients(s) && OpEnabled(conn, op) && !op.Commit?
    ensures SubscribersAreClients(OpShared(c, conn, op, s))
  {
    hide TrimSpace;
  }

  lemma RegisterKeepsSubscribers(s: Shared, name: string, isPrivate: bool)
    requires SubscribersAreClients(s)
    ensures SubscribersAreClients(Registered(s, name, isPrivate).0)
  {
    hide TrimSpace;
  }

  /** Every subscriber stays a client of the hub, except by a stray commit. */
  lemma SubscribersStayClientsExactly(s: State, step: Step)
    requires Enabled(s, step) && SubscribersAreClients(s.shared)
    ensures SubscribersAreClients(After(s, step).shared) <==> !IsStrayCommit(s, step)
  {
    match step
    case Register(name, isPrivate) =>
      RegisterKeepsSubscribers(s.shared, name, isPrivate);
    case OfClient(c, op) =>
      if op.Commit? {
        CommitKeepsSubscribersExactly(s.shared, c, s.conns[c].call.name);
        hide Subscribed, SubscribersAreClients;
      } else {
        OtherOpKeepsSubscribers(c, s.conns[c], op, s.shared);
        hide OpShared, SubscribersAreClients, OpEnabled;
      }
    case _ =>
      hide Registered, AfterOp, OpEnabled, ActEnabled, TrimSpace;
  }

  /** In every state of the run, subscribers are clients of the hub. */
  predicate SubscribersAlwaysClients(s: State, steps: seq<Step>)
    requires IsRun(s, steps)
    decreases |steps|
  {
    SubscribersAreClients(s.shared) && (steps != [] ==> SubscribersAlwaysClients(After(s, steps[0]), steps[1..]))
  }

  predicate NoStrayCommit(s: State, steps: seq<Step>)
    requires IsRun(s, steps)
    decreases |steps|
  {
    steps != [] ==> !IsStrayCommit(s, steps[0]) && NoStrayCommit(After(s, steps[0]), steps[1..])
  }

  lemma {:induction false} RunSubscribersExactly(s: State, steps: seq<Step>)
    requires IsRun(s, steps) && SubscribersAreClients(s.shared)
    ensures SubscribersAlwaysClients(s, steps) <==> NoStrayCommit(s, steps)
    decreases |steps|
  {
    hide Enabled, After, IsStrayCommit, SubscribersAreClients;
    if steps != [] {
      SubscribersStayClientsExactly(s, steps[0]);
      if SubscribersAreClients(After(s, steps[0]).shared) {
        RunSubscribersExactly(After(s, steps[0]), steps[1..]);
      } else {
        NotAlways(After(s, steps[0]), steps[1..]);
      }
    }
  }

  lemma NotAlways(s: State, steps: seq<Step>)
    requires IsRun(s, steps) && !SubscribersAreClients(s.shared)
    ensures !SubscribersAlwaysClients(s, steps)
  {
    hide Enabled, After, SubscribersAreClients;
  }

  /** All along a run, every subscriber is a client of the hub, exactly if no second locked section of a
      subscribe takes effect for a client that has left. */
  lemma SubscribersAreClientsExactly(buffer: nat, steps: seq<Step>)
    requires IsRun(Initial(buffer), steps)
    ensures SubscribersAlwaysClients(Initial(buffer), steps) <==> NoStrayCommit(Initial(buffer), steps)
  {
    RunSubscribersExactly(Initial(buffer), steps);
    hide *;
  }

  /** Such runs exist: a client removed between the two locked sections of its subscribe stays a
      subscriber of the channel, though it is no client of the hub any more. */
  lemma RemovedClientMaySubscribe(buffer: nat)
    ensures var steps := [Register("a", false), Add(0), OfClient(0, Lookup("a")), OfClient(0, Authorize(true)),
                          OfClient(0, CallRemove), OfClient(0, Delete), OfClient(0, CloseDone), OfClient(0, Commit)];
      && IsRun(Initial(buffer), steps)
      && var s := Run(Initial(buffer), steps);
      "a" in s.shared.channels && s.shared.channels["a"].subscribers == {0} && s.shared.clients == {}
  {
    var s0 := Initial(buffer);
    var steps := [Register("a", false), Add(0), OfClient(0, Lookup("a")), OfClient(0, Authorize(true)),
                  OfClient(0, CallRemove), OfClient(0, Delete), OfClient(0, CloseDone), OfClient(0, Commit)];
    assert TrimSpace("a") == "a";
    hide TrimSpace;
    var s1 := After(s0, steps[0]);
    var s2 := After(s1, steps[1]);
    var s3 := After(s2, steps[2]);
    var s4 := After(s3, steps[3]);
    var s5 := After(s4, steps[4]);
    var s6 := After(s5, steps[5]);
    var s7 := After(s6, steps[6]);
    var s8 := After(s7, steps[7]);
    assert s8.shared.channels["a"].subscribers == {0} && s8.shared.clients == {};
    hide After;
    RunOfOne(s7, steps[7..]);
    RunOfMore(s6, steps[6..], s7);
    RunOfMore(s5, steps[5..], s6);
    RunOfMore(s4, steps[4..], s5);
    RunOfMore(s3, steps[3..], s4);
    RunOfMore(s2, steps[2..], s3);
    RunOfMore(s1, steps[1..], s2);
    RunOfMore(s0, steps, s1);
  }

  lemma RunOfOne(s: State, steps: seq<Step>)
    requires |steps| == 1 && Enabled(s, steps[0])
    ensures IsRun(s, steps) && Run(s, steps) == After(s, steps[0])
  {
    hide Enabled, After;
    assert steps[1..] == [];
  }

  lemma RunOfMore(s: State, steps: seq<Step>, t: State)
    requires steps != [] && Enabled(s, steps[0]) && t == After(s, steps[0]) && IsRun(t, steps[1..])
    ensures IsRun(s, steps) && Run(s, steps) == Run(t, steps[1..])
  {
    hide Enabled, After;
  }
}
