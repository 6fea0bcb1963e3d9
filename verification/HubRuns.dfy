/** Runs of the realtime hub: locked sections and channel operations of any number of goroutines, in
    any order (runtime/realtime/realtime.go).

    A `Conn` also keeps what was ever put in the client's queue, and which events were meant for it. */
module HubRuns {
  import opened Text
  import opened Hub

  datatype Message = Event(channel: string, payload: string) | Reply(payload: string)

  /** How far a client's sync.Once has come: nobody called remove; remove is called; the locked section
      is over; `done` is closed. A second caller of remove waits for `Finished`. */
  datatype Once = Idle | Running | Deleted | Finished

  /** A subscribe call: after the lookup, and after the channel's AuthFunc allowed it if it is private. */
  datatype Subscribing = NoCall | Looked(name: string, isPrivate: bool) | Allowed(name: string)

  datatype Conn = Conn(
    accepted: seq<Message>,   // everything ever put in `send`
    taken: nat,               // how many of those the writer has received
    included: seq<Message>,   // every event whose snapshot held this client
    once: Once,
    closes: nat,              // how often `done` was closed
    call: Subscribing,
    reply: Option<string>,    // a reply past enqueue's first select
    authorized: set<string>)  // private channels whose AuthFunc allowed this client

  /** What a call of Publish does next. */
  datatype Stage = Choosing | Sending(client: Client) | Evicting(client: Client)

  datatype Publishing = Publishing(channel: string, payload: string, pending: set<Client>, stage: Stage)

  /** Close, which runs once: pending clients, and the one whose remove it waits for. */
  datatype Closing = NotCalled | Closing(pending: set<Client>, removing: Option<Client>) | Returned

  datatype State = State(
    shared: Shared,
    buffer: nat,
    conns: map<Client, Conn>,
    publishes: map<nat, Publishing>,
    closing: Closing)

  /** Steps of a client's own connection handler, writer or ping loop, and of whoever removes it. */
  datatype Op =
    | Lookup(name: string)
    | Authorize(allowed: bool)
    | Commit
    | Unsubscribe(name: string)
    | CheckReply(payload: string)
    | SendReply
    | Take
    | CallRemove
    | Delete
    | CloseDone

  /** Steps of a Publish call after its snapshot: enqueue's two selects, the return of remove, the end. */
  datatype Act = Check(client: Client) | Send | Evicted | Finish

  datatype Step =
    | Register(name: string, isPrivate: bool)
    | Add(c: Client)
    | OfClient(c: Client, op: Op)
    | Snapshot(id: nat, channel: string, event: string, payload: string)
    | OfPublish(id: nat, act: Act)
    | StartClose
    | PickClose(c: Client)
    | RemovedByClose
    | EndClose

  function Initial(buffer: nat): State {
    State(Shared(map[], {}, false), buffer, map[], map[], NotCalled)
  }

  // ----- steps on one connection ---------------------------------------------------------------

  function NewConn(): Conn {
    Conn([], 0, [], Idle, 0, NoCall, None, {})
  }

  function Room(conn: Conn, buffer: nat): bool {
    |conn.accepted| < conn.taken + buffer
  }

  /** The select on `send`. */
  function Put(conn: Conn, buffer: nat, m: Message): Conn {
    if Room(conn, buffer) then conn.(accepted := conn.accepted + [m]) else conn
  }

  predicate OpEnabled(conn: Conn, op: Op) {
    match op
    case Lookup(_) => conn.call.NoCall?
    case Authorize(_) => conn.call.Looked?
    case Commit => conn.call.Allowed?
    case Unsubscribe(_) => conn.call.NoCall?
    case CheckReply(_) => conn.reply.None?
    case SendReply => conn.reply.Some?
    case Take => conn.taken < |conn.accepted|
    case CallRemove => conn.once.Idle?
    case Delete => conn.once.Running?
    case CloseDone => conn.once.Deleted?
  }

  /** A connection after an operation of its own. */
  function OpConn(conn: Conn, buffer: nat, op: Op, s: Shared): Conn
    requires OpEnabled(conn, op)
  {
    match op
    case Lookup(name) =>
      var trimmed := TrimSpace(name);
      if trimmed in s.channels then conn.(call := Looked(trimmed, s.channels[trimmed].isPrivate)) else conn
    case Authorize(allowed) =>
      if !conn.call.isPrivate then conn.(call := Allowed(conn.call.name))
      else if allowed then conn.(call := Allowed(conn.call.name), authorized := conn.authorized + {conn.call.name})
      else conn.(call := NoCall)
    case Commit => conn.(call := NoCall)
    case Unsubscribe(_) => conn
    case CheckReply(payload) => if conn.closes > 0 then conn else conn.(reply := Some(payload))
    case SendReply => Put(conn, buffer, Reply(conn.reply.value)).(reply := None)
    case Take => conn.(taken := conn.taken + 1)
    case CallRemove => conn.(once := Running)
    case Delete => conn.(once := Deleted)
    case CloseDone => conn.(once := Finished, closes := conn.closes + 1)
  }

  /** What the operation does under the lock. */
  function OpShared(c: Client, conn: Conn, op: Op, s: Shared): Shared
    requires OpEnabled(conn, op)
  {
    match op
    case Commit => Subscribed(s, c, conn.call.name).0
    case Unsubscribe(name) => Unsubscribed(s, c, name)
    case Delete => Removed(s, c)
    case _ => s
  }

  // ----- steps of Publish --------------------------------------------------------------------------

  predicate ActEnabled(p: Publishing, conns: map<Client, Conn>, act: Act) {
    match act
    case Check(c) => p.stage.Choosing? && c in p.pending && c in conns
    case Send => p.stage.Sending? && p.stage.client in conns
    case Evicted => p.stage.Evicting? && p.stage.client in conns && conns[p.stage.client].once.Finished?
    case Finish => p.stage.Choosing? && p.pending == {}
  }

  function ActPublishing(p: Publishing, conns: map<Client, Conn>, buffer: nat, act: Act): Publishing
    requires ActEnabled(p, conns, act)
  {
    match act
    case Check(c) => p.(pending := p.pending - {c}, stage := if conns[c].closes > 0 then Evicting(c) else Sending(c))
    case Send => p.(stage := if Room(conns[p.stage.client], buffer) then Choosing else Evicting(p.stage.client))
    case Evicted => p.(stage := Choosing)
    case Finish => p
  }

  /** The connections after a Publish step: only a send changes one. */
  function ActConns(p: Publishing, conns: map<Client, Conn>, buffer: nat, act: Act): map<Client, Conn>
    requires ActEnabled(p, conns, act)
  {
    if act.Send? then conns[p.stage.client := Put(conns[p.stage.client], buffer, Event(p.channel, p.payload))]
    else conns
  }

  /** The connections after a snapshot. */
  function Include(conns: map<Client, Conn>, snapshot: set<Client>, m: Message): map<Client, Conn> {
    map c | c in conns :: if c in snapshot then conns[c].(included := conns[c].included + [m]) else conns[c]
  }

  // ----- all steps -----------------------------------------------------------------------------------

  predicate Enabled(s: State, step: Step) {
    match step
    case Register(_, _) => true
    case Add(c) => c !in s.conns
    case OfClient(c, op) => c in s.conns && OpEnabled(s.conns[c], op)
    case Snapshot(id, _, _, _) => id !in s.publishes
    case OfPublish(id, act) => id in s.publishes && ActEnabled(s.publishes[id], s.conns, act)
    case StartClose => s.closing.NotCalled?
    case PickClose(c) => s.closing.Closing? && s.closing.removing.None? && c in s.closing.pending
    case RemovedByClose =>
      s.closing.Closing? && s.closing.removing.Some? && s.closing.removing.value in s.conns &&
      s.conns[s.closing.removing.value].once.Finished?
    case EndClose => s.closing.Closing? && s.closing.removing.None? && s.closing.pending == {}
  }

  function After(s: State, step: Step): State
    requires Enabled(s, step)
  {
    match step
    case Register(name, isPrivate) => s.(shared := Registered(s.shared, name, isPrivate).0)
    case Add(c) =>
      var (shared, ok) := Added(s.shared, c);
      if ok then s.(shared := shared, conns := s.conns[c := NewConn()]) else s
    case OfClient(c, op) => AfterOp(s, c, op)
    case Snapshot(id, channel, event, payload) =>
      if TrimSpace(event) == "" || channel !in s.shared.channels then s
      else AfterSnapshot(s, id, channel, payload)
    case OfPublish(id, act) => AfterAct(s, id, act)
    case StartClose => s.(shared := s.shared.(closed := true), closing := Closing(s.shared.clients, None))
    case PickClose(c) => s.(closing := Closing(s.closing.pending - {c}, Some(c)))
    case RemovedByClose => s.(closing := s.closing.(removing := None))
    case EndClose => s.(closing := Returned)
  }

  function AfterOp(s: State, c: Client, op: Op): State
    requires c in s.conns && OpEnabled(s.conns[c], op)
  {
    s.(shared := OpShared(c, s.conns[c], op, s.shared),
       conns := s.conns[c := OpConn(s.conns[c], s.buffer, op, s.shared)])
  }

  function AfterSnapshot(s: State, id: nat, channel: string, payload: string): State
    requires channel in s.shared.channels
  {
    var snapshot := s.shared.channels[channel].subscribers;
    s.(conns := Include(s.conns, snapshot, Event(channel, payload)),
       publishes := s.publishes[id := Publishing(channel, payload, snapshot, Choosing)])
  }

  function AfterAct(s: State, id: nat, act: Act): State
    requires id in s.publishes && ActEnabled(s.publishes[id], s.conns, act)
  {
    var p := s.publishes[id];
    s.(conns := ActConns(p, s.conns, s.buffer, act),
       publishes := if act.Finish? then s.publishes - {id}
                    else s.publishes[id := ActPublishing(p, s.conns, s.buffer, act)])
  }

  /** The steps can be taken one after the other from `s`. */
  predicate IsRun(s: State, steps: seq<Step>)
    decreases |steps|
  {
    steps == [] || (Enabled(s, steps[0]) && IsRun(After(s, steps[0]), steps[1..]))
  }

  function Run(s: State, steps: seq<Step>): State
    requires IsRun(s, steps)
    decreases |steps|
  {
    if steps == [] then s else Run(After(s, steps[0]), steps[1..])
  }
}
