/** What a client receives of one channel of the realtime hub, when the Publish calls to that channel
    do not overlap; everything else interleaves freely. */
module HubDelivery {
  import opened Text
  import opened Hub
  import opened HubRuns
  import HubSafety

  /** The payloads of a channel's events, in order. */
  function On(ms: seq<Message>, channel: string): seq<string> {
    if ms == [] then []
    else
      var before := On(ms[..|ms| - 1], channel);
      var m := ms[|ms| - 1];
      if m.Event? && m.channel == channel then before + [m.payload] else before
  }

  lemma OnAppend(ms: seq<Message>, m: Message, channel: string)
    ensures On(ms + [m], channel) ==
      if m.Event? && m.channel == channel then On(ms, channel) + [m.payload] else On(ms, channel)
  {
    assert (ms + [m])[..|ms|] == ms;
  }

  lemma {:induction false} OnPrefix(ms: seq<Message>, n: nat, channel: string)
    requires n <= |ms|
    ensures On(ms[..n], channel) <= On(ms, channel)
  {
    if n == |ms| {
      assert ms[..n] == ms;
    } else {
      OnPrefix(ms[..|ms| - 1], n, channel);
      assert ms[..|ms| - 1][..n] == ms[..n];
    }
  }

  // ----- publishers of a channel, one at a time --------------------------------------------------------

  predicate NoFlight(s: State, channel: string) {
    forall id :: id in s.publishes ==> s.publishes[id].channel != channel
  }

  /** No Publish call to the channel takes its snapshot while another one is under way. */
  predicate SerialStep(s: State, step: Step, channel: string) {
    step.Snapshot? && step.channel == channel ==> NoFlight(s, channel)
  }

  predicate Serial(s: State, steps: seq<Step>, channel: string)
    requires IsRun(s, steps)
    decreases |steps|
  {
    steps != [] ==> SerialStep(s, steps[0], channel) && Serial(After(s, steps[0]), steps[1..], channel)
  }

  /** `flight` is the one Publish call to the channel that is under way, if there is one. */
  predicate OnlyFlight(s: State, channel: string, flight: Option<nat>) {
    && (flight.Some? ==> flight.value in s.publishes && FlightSafe(s.publishes[flight.value], s.conns.Keys))
    && (forall id :: id in s.publishes ==> (s.publishes[id].channel == channel <==> flight == Some(id)))
  }

  predicate FlightSafe(p: Publishing, known: set<Client>) {
    && p.pending <= known
    && (p.stage.Choosing? || (p.stage.client in known && p.stage.client !in p.pending))
  }

  function FlightOf(s: State, flight: Option<nat>): Option<Publishing>
    requires flight.Some? ==> flight.value in s.publishes
  {
    if flight.Some? then Some(s.publishes[flight.value]) else None
  }

  /** The flight after a step. */
  function NextFlight(s: State, step: Step, channel: string, flight: Option<nat>): Option<nat> {
    if step.Snapshot? && step.channel == channel && TrimSpace(step.event) != "" && channel in s.shared.channels
    then Some(step.id)
    else if step.OfPublish? && step.act.Finish? && flight == Some(step.id) then None
    else flight
  }

  // ----- one client and one channel -----------------------------------------------------------------------

  /** Where a client is in the flight: still to come, past enqueue's first select, refused, or neither. */
  datatype Turn = Coming(payload: string) | Checked(payload: string) | Refused | Over

  function TurnOf(p: Option<Publishing>, c: Client): Turn {
    if p.None? then Over
    else if c in p.value.pending then Coming(p.value.payload)
    else if p.value.stage == Sending(c) then Checked(p.value.payload)
    else if p.value.stage == Evicting(c) then Refused
    else Over
  }

  /** `accepted` is a prefix of what was meant for the client; it falls short of it only if the client's
      done channel is closed or the client is about to be removed. */
  predicate InOrder(accepted: seq<string>, included: seq<string>, turn: Turn, closes: nat) {
    match turn
    case Coming(payload) =>
      && |included| > 0 && included[|included| - 1] == payload
      && accepted <= included[..|included| - 1]
      && (closes == 0 ==> accepted == included[..|included| - 1])
    case Checked(payload) =>
      |included| > 0 && included[|included| - 1] == payload && accepted == included[..|included| - 1]
    case Refused => accepted <= included
    case Over => accepted <= included && (closes == 0 ==> accepted == included)
  }

  predicate Ordered(conn: Conn, channel: string, turn: Turn) {
    InOrder(On(conn.accepted, channel), On(conn.included, channel), turn, conn.closes)
  }

  predicate AllOrdered(s: State, channel: string, flight: Option<nat>)
    requires flight.Some? ==> flight.value in s.publishes
  {
    forall c :: c in s.conns ==> Ordered(s.conns[c], channel, TurnOf(FlightOf(s, flight), c))
  }

  predicate Delivers(s: State, channel: string, flight: Option<nat>) {
    OnlyFlight(s, channel, flight) && AllOrdered(s, channel, flight)
  }

  // ----- operations of a client -------------------------------------------------------------------------------

  lemma OpKeepsOrder(conn: Conn, buffer: nat, op: Op, s: Shared, channel: string, turn: Turn)
    requires OpEnabled(conn, op) && Ordered(conn, channel, turn)
    ensures Ordered(OpConn(conn, buffer, op, s), channel, turn)
  {
    var after := OpConn(conn, buffer, op, s);
    assert after.included == conn.included && after.closes >= conn.closes by {
      hide TrimSpace;
    }
    OpAccepts(conn, buffer, op, s, channel);
    hide On, OpConn, OpEnabled;
  }

  lemma OpAccepts(conn: Conn, buffer: nat, op: Op, s: Shared, channel: string)
    requires OpEnabled(conn, op)
    ensures On(OpConn(conn, buffer, op, s).accepted, channel) == On(conn.accepted, channel)
  {
    if op.SendReply? {
      OnAppend(conn.accepted, Reply(conn.reply.value), channel);
    }
    hide On, TrimSpace;
  }

  // ----- operations of a Publish call ------------------------------------------------------------------------

  /** A send for another channel. */
  lemma OtherSendKeepsOrder(conn: Conn, buffer: nat, m: Message, channel: string, turn: Turn)
    requires Ordered(conn, channel, turn) && m.Event? && m.channel != channel
    ensures Ordered(Put(conn, buffer, m), channel, turn)
  {
    OnAppend(conn.accepted, m, channel);
    hide On, InOrder;
  }

  /** The send of the flight. */
  lemma SendKeepsOrder(conn: Conn, buffer: nat, payload: string, channel: string)
    requires Ordered(conn, channel, Checked(payload))
    ensures Ordered(Put(conn, buffer, Event(channel, payload)), channel, if Room(conn, buffer) then Over else Refused)
  {
    OnAppend(conn.accepted, Event(channel, payload), channel);
    hide On;
    var included := On(conn.included, channel);
    assert included == included[..|included| - 1] + [payload];
  }

  lemma CheckKeepsOrder(conn: Conn, payload: string, channel: string)
    requires Ordered(conn, channel, Coming(payload))
    ensures Ordered(conn, channel, if conn.closes > 0 then Refused else Checked(payload))
  {
    hide On;
    var included := On(conn.included, channel);
    assert included[..|included| - 1] <= included;
    PrefixOfPrefix(On(conn.accepted, channel), included, |included| - 1);
  }

  lemma PrefixOfPrefix(s: seq<string>, t: seq<string>, n: nat)
    requires n <= |t| && s <= t[..n]
    ensures s <= t
  {}

  lemma EvictedKeepsOrder(conn: Conn, channel: string)
    requires Ordered(conn, channel, Refused) && conn.closes > 0
    ensures Ordered(conn, channel, Over)
  {
    hide On;
  }

  /** One step of the flight, seen by client `c`. */
  lemma FlightKeepsOrder(p: Publishing, conns: map<Client, Conn>, buffer: nat, act: Act, c: Client)
    requires ActEnabled(p, conns, act) && c in conns
    requires FlightSafe(p, conns.Keys) && HubSafety.ConnSafe(conns[c], buffer)
    requires Ordered(conns[c], p.channel, TurnOf(Some(p), c))
    ensures var q := if act.Finish? then None else Some(ActPublishing(p, conns, buffer, act));
      Ordered(ActConns(p, conns, buffer, act)[c], p.channel, TurnOf(q, c))
  {
    hide Ordered, Put, Room;
    match act
    case Check(d) =>
      if c == d {
        CheckKeepsOrder(conns[c], p.payload, p.channel);
      }
    case Send =>
      if c == p.stage.client {
        SendKeepsOrder(conns[c], buffer, p.payload, p.channel);
      }
    case Evicted =>
      if c == p.stage.client {
        EvictedKeepsOrder(conns[c], p.channel);
      }
    case Finish =>
  }

  lemma FlightStaysSafe(p: Publishing, conns: map<Client, Conn>, buffer: nat, act: Act)
    requires ActEnabled(p, conns, act) && FlightSafe(p, conns.Keys)
    ensures FlightSafe(ActPublishing(p, conns, buffer, act), conns.Keys)
    ensures ActPublishing(p, conns, buffer, act).channel == p.channel
    ensures ActConns(p, conns, buffer, act).Keys == conns.Keys
  {
    hide Room, Put;
  }

  // ----- a snapshot --------------------------------------------------------------------------------------------

  lemma IncludeKeepsOrder(conn: Conn, m: Message, channel: string, turn: Turn)
    requires Ordered(conn, channel, turn) && m.Event?
    requires m.channel == channel ==> turn == Over
    ensures Ordered(conn.(included := conn.included + [m]), channel,
                    if m.channel == channel then Coming(m.payload) else turn)
  {
    OnAppend(conn.included, m, channel);
    hide On;
    if m.channel == channel {
      var included := On(conn.included, channel);
      assert (included + [m.payload])[..|included|] == included;
    }
  }

  // ----- steps of the hub --------------------------------------------------------------------------------------

  lemma OpDelivers(s: State, c: Client, op: Op, channel: string, flight: Option<nat>)
    requires Enabled(s, OfClient(c, op)) && Delivers(s, channel, flight)
    ensures Delivers(AfterOp(s, c, op), channel, flight)
  {
    var t := AfterOp(s, c, op);
    assert t.conns.Keys == s.conns.Keys && t.publishes == s.publishes;
    OpKeepsOrder(s.conns[c], s.buffer, op, s.shared, channel, TurnOf(FlightOf(s, flight), c));
    hide Ordered, TurnOf, OpConn, OpShared, OpEnabled, FlightSafe;
  }

  /** A step of a Publish call to another channel. */
  lemma OtherActDelivers(s: State, id: nat, act: Act, channel: string, flight: Option<nat>)
    requires Enabled(s, OfPublish(id, act)) && Delivers(s, channel, flight)
    requires flight != Some(id)
    ensures Delivers(AfterAct(s, id, act), channel, flight)
  {
    var t := AfterAct(s, id, act);
    var p := s.publishes[id];
    ActKeepsKeys(p, s.conns, s.buffer, act);
    if act.Send? {
      var c := p.stage.client;
      OtherSendKeepsOrder(s.conns[c], s.buffer, Event(p.channel, p.payload), channel, TurnOf(FlightOf(s, flight), c));
    }
    hide Ordered, TurnOf, ActPublishing, ActEnabled, FlightSafe, Put;
    assert FlightOf(t, flight) == FlightOf(s, flight);
    assert OnlyFlight(t, channel, flight);
    forall d | d in t.conns
      ensures Ordered(t.conns[d], channel, TurnOf(FlightOf(s, flight), d))
    {
      hide OnlyFlight;
    }
  }

  lemma ActKeepsKeys(p: Publishing, conns: map<Client, Conn>, buffer: nat, act: Act)
    requires ActEnabled(p, conns, act)
    ensures ActPublishing(p, conns, buffer, act).channel == p.channel
    ensures ActConns(p, conns, buffer, act).Keys == conns.Keys
  {
    hide Room, Put;
  }

  lemma FlightDelivers(s: State, id: nat, act: Act, channel: string)
    requires Enabled(s, OfPublish(id, act)) && Delivers(s, channel, Some(id)) && HubSafety.Safe(s)
    ensures Delivers(AfterAct(s, id, act), channel, if act.Finish? then None else Some(id))
  {
    var t, p := AfterAct(s, id, act), s.publishes[id];
    var next := if act.Finish? then None else Some(id);
    FlightStaysSafe(p, s.conns, s.buffer, act);
    FlightStays(s, id, act, channel);
    forall c | c in t.conns
      ensures Ordered(t.conns[c], channel, TurnOf(FlightOf(t, next), c))
    {
      hide ActEnabled, ActPublishing, ActConns, Ordered, TurnOf, FlightSafe, HubSafety.ConnSafe, HubSafety.CallSafe,
        HubSafety.ClientsSafe, HubSafety.ChannelsSafe, HubSafety.ClosingSafe;
      FlightKeepsOrder(p, s.conns, s.buffer, act, c);
    }
  }

  lemma FlightStays(s: State, id: nat, act: Act, channel: string)
    requires Enabled(s, OfPublish(id, act)) && OnlyFlight(s, channel, Some(id))
    ensures OnlyFlight(AfterAct(s, id, act), channel, if act.Finish? then None else Some(id))
  {
    FlightStaysSafe(s.publishes[id], s.conns, s.buffer, act);
    hide ActEnabled, ActPublishing, ActConns, FlightSafe;
  }

  lemma SnapshotDelivers(s: State, id: nat, to: string, payload: string, channel: string, flight: Option<nat>)
    requires id !in s.publishes && to in s.shared.channels
    requires Delivers(s, channel, flight) && HubSafety.ChannelSafe(to, s.shared.channels[to], s.conns)
    requires to == channel ==> flight == None
    ensures Delivers(AfterSnapshot(s, id, to, payload), channel, if to == channel then Some(id) else flight)
  {
    var t := AfterSnapshot(s, id, to, payload);
    var next := if to == channel then Some(id) else flight;
    assert OnlyFlight(t, channel, next);
    forall c | c in t.conns
      ensures Ordered(t.conns[c], channel, TurnOf(FlightOf(t, next), c))
    {
      hide Ordered;
      var turn := TurnOf(FlightOf(s, flight), c);
      if c in s.shared.channels[to].subscribers {
        IncludeKeepsOrder(s.conns[c], Event(to, payload), channel, turn);
      }
    }
  }

  lemma AddDelivers(s: State, c: Client, channel: string, flight: Option<nat>)
    requires c !in s.conns && Delivers(s, channel, flight)
    ensures Delivers(After(s, Add(c)), channel, flight)
  {
    assert flight.Some? ==> c !in s.publishes[flight.value].pending;
    assert TurnOf(FlightOf(s, flight), c).Over?;
    assert Ordered(NewConn(), channel, Over);
    hide Ordered, TurnOf, On;
  }

  lemma SameDelivers(s: State, t: State, channel: string, flight: Option<nat>)
    requires t.conns == s.conns && t.publishes == s.publishes && Delivers(s, channel, flight)
    ensures Delivers(t, channel, flight)
  {
    hide Ordered, TurnOf, FlightSafe;
  }

  lemma NoFlightIs(s: State, channel: string, flight: Option<nat>)
    requires OnlyFlight(s, channel, flight) && NoFlight(s, channel)
    ensures flight == None
  {}

  lemma StepDelivers(s: State, step: Step, channel: string, flight: Option<nat>)
    requires Enabled(s, step) && SerialStep(s, step, channel)
    requires HubSafety.Safe(s) && Delivers(s, channel, flight)
    ensures Delivers(After(s, step), channel, NextFlight(s, step, channel, flight))
  {
    hide OpEnabled, ActEnabled, AllOrdered, NoFlight, AfterOp, AfterAct, AfterSnapshot, TrimSpace, Registered, Added,
      HubSafety.ConnsSafe, HubSafety.ClientsSafe, HubSafety.ClosingSafe, HubSafety.ChannelSafe, FlightSafe;
    match step
    case Add(c) => AddDelivers(s, c, channel, flight);
    case OfClient(c, op) => OpDelivers(s, c, op, channel, flight);
    case Snapshot(id, to, event, payload) =>
      if to == channel {
        NoFlightIs(s, channel, flight);
      }
      if TrimSpace(event) != "" && to in s.shared.channels {
        SnapshotDelivers(s, id, to, payload, channel, flight);
      }
    case OfPublish(id, act) =>
      if flight == Some(id) {
        FlightDelivers(s, id, act, channel);
      } else {
        OtherActDelivers(s, id, act, channel, flight);
      }
    case _ => SameDelivers(s, After(s, step), channel, flight);
  }

  lemma {:induction false} RunDelivers(s: State, steps: seq<Step>, channel: string, flight: Option<nat>)
      returns (last: Option<nat>)
    requires IsRun(s, steps) && Serial(s, steps, channel)
    requires HubSafety.Safe(s) && Delivers(s, channel, flight)
    ensures Delivers(Run(s, steps), channel, last) && HubSafety.Safe(Run(s, steps))
    decreases |steps|
  {
    hide Enabled, After, SerialStep, HubSafety.Safe, Delivers, NextFlight;
    if steps == [] {
      last := flight;
    } else {
      HubSafety.StepKeeps(s, steps[0]);
      StepDelivers(s, steps[0], channel, flight);
      last := RunDelivers(After(s, steps[0]), steps[1..], channel, NextFlight(s, steps[0], channel, flight));
    }
  }

  lemma InitialDelivers(buffer: nat, channel: string)
    ensures Delivers(Initial(buffer), channel, None) && HubSafety.Safe(Initial(buffer))
  {}

  lemma OrderedIsPrefix(conn: Conn, channel: string, turn: Turn)
    requires Ordered(conn, channel, turn)
    ensures On(conn.accepted, channel) <= On(conn.included, channel)
  {
    hide On;
    var accepted, included := On(conn.accepted, channel), On(conn.included, channel);
    if turn.Coming? || turn.Checked? {
      PrefixOfPrefix(accepted, included, |included| - 1);
    }
  }

  /** When the Publish calls to a channel do not overlap, what a client's queue was ever given of that
      channel, and so what its writer has received, is a gap-free prefix of the events whose snapshot
      held the client. */
  lemma GapFreePrefix(buffer: nat, steps: seq<Step>, channel: string, c: Client)
    requires IsRun(Initial(buffer), steps) && Serial(Initial(buffer), steps, channel)
    requires c in Run(Initial(buffer), steps).conns
    ensures var conn := Run(Initial(buffer), steps).conns[c];
      && conn.taken <= |conn.accepted|
      && On(conn.accepted[..conn.taken], channel) <= On(conn.accepted, channel) <= On(conn.included, channel)
  {
    hide IsRun, Serial, Run, Initial, HubSafety.Safe, On, Ordered, FlightSafe;
    InitialDelivers(buffer, channel);
    var last := RunDelivers(Initial(buffer), steps, channel, None);
    var s := Run(Initial(buffer), steps);
    HubSafety.QueueBounded(buffer, steps, c);
    OrderedIsPrefix(s.conns[c], channel, TurnOf(FlightOf(s, last), c));
    OnPrefix(s.conns[c].accepted, s.conns[c].taken, channel);
  }

  /** And between Publish calls, a client whose done channel is open has been given all of them. */
  lemma NothingMissing(buffer: nat, steps: seq<Step>, channel: string, c: Client)
    requires IsRun(Initial(buffer), steps) && Serial(Initial(buffer), steps, channel)
    requires NoFlight(Run(Initial(buffer), steps), channel)
    requires c in Run(Initial(buffer), steps).conns && Run(Initial(buffer), steps).conns[c].closes == 0
    ensures var conn := Run(Initial(buffer), steps).conns[c];
      On(conn.accepted, channel) == On(conn.included, channel)
  {
    hide IsRun, Serial, Run, Initial, HubSafety.Safe, On, FlightSafe;
    InitialDelivers(buffer, channel);
    var last := RunDelivers(Initial(buffer), steps, channel, None);
    NoFlightIs(Run(Initial(buffer), steps), channel, last);
    assert Ordered(Run(Initial(buffer), steps).conns[c], channel, Over);
  }

  // ----- the first refusal is final -------------------------------------------------------------------------------

  /** A publisher of the channel was refused by the client and is removing it, or the client's done
      channel is closed and no publisher of the channel is past enqueue's first select. */
  predicate Stopped(conn: Conn, turn: Turn) {
    turn.Refused? || (conn.closes > 0 && !turn.Checked?)
  }

  predicate StoppedIn(s: State, channel: string, flight: Option<nat>, c: Client)
    requires flight.Some? ==> flight.value in s.publishes
  {
    c in s.conns && Stopped(s.conns[c], TurnOf(FlightOf(s, flight), c))
  }

  /** What has been accepted of the channel when the client has stopped, once and for all. */
  predicate StoppedWith(s: State, channel: string, flight: Option<nat>, c: Client, accepted: seq<string>)
    requires flight.Some? ==> flight.value in s.publishes
  {
    StoppedIn(s, channel, flight, c) && On(s.conns[c].accepted, channel) == accepted
  }

  lemma OpStaysStopped(s: State, d: Client, op: Op, channel: string, flight: Option<nat>, c: Client,
                       accepted: seq<string>)
    requires Enabled(s, OfClient(d, op)) && OnlyFlight(s, channel, flight)
    requires StoppedWith(s, channel, flight, c, accepted)
    ensures StoppedWith(AfterOp(s, d, op), channel, flight, c, accepted)
  {
    OpAccepts(s.conns[d], s.buffer, op, s.shared, channel);
    assert OpConn(s.conns[d], s.buffer, op, s.shared).closes >= s.conns[d].closes by {
      hide TrimSpace;
    }
    hide OpConn, OpShared, OpEnabled, On, FlightSafe, TurnOf;
  }

  /** A send for another channel: nothing of this channel, and done stays as it is. */
  lemma OtherSendAccepts(conn: Conn, buffer: nat, m: Message, channel: string)
    requires m.Event? && m.channel != channel
    ensures On(Put(conn, buffer, m).accepted, channel) == On(conn.accepted, channel)
    ensures Put(conn, buffer, m).closes == conn.closes
  {
    OnAppend(conn.accepted, m, channel);
    hide On;
  }

  lemma OtherActConn(p: Publishing, conns: map<Client, Conn>, buffer: nat, act: Act, channel: string, c: Client)
    requires ActEnabled(p, conns, act) && p.channel != channel && c in conns
    ensures var after := ActConns(p, conns, buffer, act);
      && c in after && On(after[c].accepted, channel) == On(conns[c].accepted, channel)
      && after[c].closes == conns[c].closes
  {
    hide On, Put;
    if act.Send? {
      OtherSendAccepts(conns[p.stage.client], buffer, Event(p.channel, p.payload), channel);
    }
  }

  /** A step of another Publish call leaves the flight as it is. */
  lemma OtherActFlight(s: State, id: nat, act: Act, channel: string, flight: Option<nat>)
    requires Enabled(s, OfPublish(id, act)) && OnlyFlight(s, channel, flight) && flight != Some(id)
    ensures s.publishes[id].channel != channel
    ensures flight.Some? ==> flight.value in AfterAct(s, id, act).publishes
    ensures FlightOf(AfterAct(s, id, act), flight) == FlightOf(s, flight)
  {
    hide ActPublishing, ActConns, ActEnabled, FlightSafe;
  }

  lemma StoppedStays(s: State, t: State, channel: string, flight: Option<nat>, c: Client, accepted: seq<string>)
    requires flight.Some? ==> flight.value in s.publishes && flight.value in t.publishes
    requires FlightOf(t, flight) == FlightOf(s, flight) && StoppedWith(s, channel, flight, c, accepted)
    requires c in t.conns && t.conns[c].closes == s.conns[c].closes
    requires On(t.conns[c].accepted, channel) == On(s.conns[c].accepted, channel)
    ensures StoppedWith(t, channel, flight, c, accepted)
  {
    hide On, TurnOf, FlightOf;
  }

  lemma OtherActStaysStopped(s: State, id: nat, act: Act, channel: string, flight: Option<nat>,
                             c: Client, accepted: seq<string>)
    requires Enabled(s, OfPublish(id, act)) && OnlyFlight(s, channel, flight) && flight != Some(id)
    requires StoppedWith(s, channel, flight, c, accepted)
    ensures var t := AfterAct(s, id, act);
      (flight.Some? ==> flight.value in t.publishes) && StoppedWith(t, channel, flight, c, accepted)
  {
    OtherActFlight(s, id, act, channel, flight);
    StoppedIsKnown(s, channel, flight, c, accepted);
    hide On, Put, ActEnabled, ActConns, ActPublishing, FlightSafe, TurnOf, Stopped, StoppedWith, FlightOf;
    OtherActConn(s.publishes[id], s.conns, s.buffer, act, channel, c);
    StoppedStays(s, AfterAct(s, id, act), channel, flight, c, accepted);
  }

  lemma FlightStaysStopped(s: State, id: nat, act: Act, channel: string, c: Client, accepted: seq<string>)
    requires Enabled(s, OfPublish(id, act)) && OnlyFlight(s, channel, Some(id))
    requires StoppedWith(s, channel, Some(id), c, accepted) && HubSafety.ConnSafe(s.conns[c], s.buffer)
    ensures StoppedWith(AfterAct(s, id, act), channel, if act.Finish? then None else Some(id), c, accepted)
  {
    hide On, Put, Room;
    match act
    case Check(_) =>
    case Send => assert c != s.publishes[id].stage.client;
    case Evicted =>
    case Finish =>
  }

  lemma SnapshotStaysStopped(s: State, id: nat, to: string, payload: string, channel: string, flight: Option<nat>,
                             c: Client, accepted: seq<string>)
    requires id !in s.publishes && to in s.shared.channels && (to == channel ==> flight == None)
    requires OnlyFlight(s, channel, flight) && StoppedWith(s, channel, flight, c, accepted)
    ensures StoppedWith(AfterSnapshot(s, id, to, payload), channel, if to == channel then Some(id) else flight, c,
                        accepted)
  {
    hide On;
  }

  lemma AddStaysStopped(s: State, d: Client, channel: string, flight: Option<nat>, c: Client, accepted: seq<string>)
    requires d !in s.conns && OnlyFlight(s, channel, flight) && StoppedWith(s, channel, flight, c, accepted)
    ensures StoppedWith(After(s, Add(d)), channel, flight, c, accepted)
  {
    hide On, FlightSafe, TurnOf;
  }

  lemma SameStaysStopped(s: State, t: State, channel: string, flight: Option<nat>, c: Client, accepted: seq<string>)
    requires t.conns == s.conns && t.publishes == s.publishes
    requires flight.Some? ==> flight.value in s.publishes
    requires StoppedWith(s, channel, flight, c, accepted)
    ensures StoppedWith(t, channel, flight, c, accepted)
  {
    hide On, TurnOf;
  }

  lemma StepStaysStopped(s: State, step: Step, channel: string, flight: Option<nat>, c: Client, accepted: seq<string>)
    requires Enabled(s, step) && SerialStep(s, step, channel)
    requires HubSafety.Safe(s) && Delivers(s, channel, flight)
    requires Delivers(After(s, step), channel, NextFlight(s, step, channel, flight))
    requires StoppedWith(s, channel, flight, c, accepted)
    ensures StoppedWith(After(s, step), channel, NextFlight(s, step, channel, flight), c, accepted)
  {
    hide OpEnabled, ActEnabled, AllOrdered, NoFlight, AfterOp, AfterAct, AfterSnapshot, TrimSpace, Registered, Added,
      HubSafety.ConnSafe, HubSafety.CallSafe, HubSafety.ClientsSafe, HubSafety.ClosingSafe, HubSafety.ChannelsSafe,
      FlightSafe, StoppedWith;
    match step
    case Add(d) => AddStaysStopped(s, d, channel, flight, c, accepted);
    case OfClient(d, op) => OpStaysStopped(s, d, op, channel, flight, c, accepted);
    case Snapshot(id, to, event, payload) =>
      if to == channel {
        NoFlightIs(s, channel, flight);
      }
      if TrimSpace(event) != "" && to in s.shared.channels {
        SnapshotStaysStopped(s, id, to, payload, channel, flight, c, accepted);
      }
    case OfPublish(id, act) =>
      if flight == Some(id) {
        StoppedIsKnown(s, channel, flight, c, accepted);
        FlightStaysStopped(s, id, act, channel, c, accepted);
      } else {
        OtherActStaysStopped(s, id, act, channel, flight, c, accepted);
      }
    case _ => SameStaysStopped(s, After(s, step), channel, flight, c, accepted);
  }

  lemma StoppedIsKnown(s: State, channel: string, flight: Option<nat>, c: Client, accepted: seq<string>)
    requires flight.Some? ==> flight.value in s.publishes
    requires StoppedWith(s, channel, flight, c, accepted)
    ensures c in s.conns
  {}

  lemma {:induction false} RunStaysStopped(s: State, steps: seq<Step>, channel: string, flight: Option<nat>, c: Client,
                                           accepted: seq<string>)
    requires IsRun(s, steps) && Serial(s, steps, channel)
    requires HubSafety.Safe(s) && Delivers(s, channel, flight) && StoppedWith(s, channel, flight, c, accepted)
    ensures c in Run(s, steps).conns && On(Run(s, steps).conns[c].accepted, channel) == accepted
    decreases |steps|
  {
    hide Enabled, After, SerialStep, HubSafety.Safe, AllOrdered, FlightSafe, NextFlight, TurnOf, On;
    if steps != [] {
      HubSafety.StepKeeps(s, steps[0]);
      StepDelivers(s, steps[0], channel, flight);
      StepStaysStopped(s, steps[0], channel, flight, c, accepted);
      RunStaysStopped(After(s, steps[0]), steps[1..], channel, NextFlight(s, steps[0], channel, flight), c, accepted);
    }
  }

  /** The step is a select of enqueue, in a Publish call to the channel, that refuses client `c`. */
  predicate Refuses(s: State, step: Step, channel: string, c: Client)
    requires Enabled(s, step)
  {
    && step.OfPublish? && (step.act == Check(c) || (step.act.Send? && s.publishes[step.id].stage == Sending(c)))
    && s.publishes[step.id].channel == channel
    && After(s, step).publishes[step.id].stage == Evicting(c)
  }

  lemma RefusalStops(s: State, step: Step, channel: string, flight: Option<nat>, c: Client)
    requires Enabled(s, step) && Refuses(s, step, channel, c) && OnlyFlight(s, channel, flight)
    ensures c in s.conns && flight == Some(step.id) && NextFlight(s, step, channel, flight) == flight
    ensures StoppedWith(After(s, step), channel, flight, c, On(s.conns[c].accepted, channel))
  {
    hide On;
  }

  /** When the Publish calls to a channel do not overlap, the first event of the channel that a client's
      queue refuses is the end: whatever happens later, nothing of the channel enters that queue again. */
  lemma FirstRefusalIsFinal(buffer: nat, before: seq<Step>, step: Step, steps: seq<Step>, channel: string, c: Client)
    requires IsRun(Initial(buffer), before) && Serial(Initial(buffer), before, channel)
    requires var s := Run(Initial(buffer), before);
      && Enabled(s, step) && SerialStep(s, step, channel) && Refuses(s, step, channel, c)
      && IsRun(After(s, step), steps) && Serial(After(s, step), steps, channel)
    ensures var s := Run(Initial(buffer), before);
      var t := Run(After(s, step), steps);
      c in s.conns && c in t.conns && On(t.conns[c].accepted, channel) == On(s.conns[c].accepted, channel)
  {
    hide IsRun, Serial, Run, Initial, Enabled, After, SerialStep, Refuses, HubSafety.Safe, AllOrdered, FlightSafe,
      NextFlight, TurnOf, On, Stopped;
    InitialDelivers(buffer, channel);
    var flight := RunDelivers(Initial(buffer), before, channel, None);
    var s := Run(Initial(buffer), before);
    HubSafety.StepKeeps(s, step);
    StepDelivers(s, step, channel, flight);
    RefusalStops(s, step, channel, flight, c);
    RunStaysStopped(After(s, step), steps, channel, flight, c, On(s.conns[c].accepted, channel));
  }
}
