/** What a client receives of one channel of the realtime hub in every interleaving, Publish calls that
    overlap included. */
module HubOverlap {
  import opened Text
  import opened Hub
  import opened HubRuns
  import opened HubDelivery
  import HubSafety

  /** How often a payload occurs among the events of a channel. */
  function Count(ms: seq<Message>, channel: string, payload: string): nat {
    multiset(On(ms, channel))[payload]
  }

  lemma CountAppend(ms: seq<Message>, m: Message, channel: string, payload: string)
    ensures Count(ms + [m], channel, payload) ==
      Count(ms, channel, payload) + if m == Event(channel, payload) then 1 else 0
  {
    OnAppend(ms, m, channel);
    hide On;
  }

  /** The Publish call still has this event for the client, or is past enqueue's first select with it. */
  predicate Waits(p: Publishing, c: Client, channel: string, payload: string) {
    p.channel == channel && p.payload == payload && (c in p.pending || p.stage == Sending(c))
  }

  function Waiting(publishes: map<nat, Publishing>, c: Client, channel: string, payload: string): set<nat> {
    set id | id in publishes && Waits(publishes[id], c, channel, payload)
  }

  predicate FlightsSafe(s: State) {
    forall id :: id in s.publishes ==> FlightSafe(s.publishes[id], s.conns.Keys)
  }

  /** Every occurrence accepted, and every one still waiting, was included. */
  predicate Covered(s: State, c: Client, channel: string, payload: string) {
    c in s.conns ==>
      Count(s.conns[c].accepted, channel, payload) + |Waiting(s.publishes, c, channel, payload)|
        <= Count(s.conns[c].included, channel, payload)
  }

  // ----- steps --------------------------------------------------------------------------------------

  lemma OpCovers(s: State, d: Client, op: Op, c: Client, channel: string, payload: string)
    requires Enabled(s, OfClient(d, op)) && FlightsSafe(s) && Covered(s, c, channel, payload)
    ensures FlightsSafe(AfterOp(s, d, op)) && Covered(AfterOp(s, d, op), c, channel, payload)
  {
    var t := AfterOp(s, d, op);
    OpAccepts(s.conns[d], s.buffer, op, s.shared, channel);
    OpIncludes(s.conns[d], s.buffer, op, s.shared);
    hide OpConn, OpShared, OpEnabled, On, FlightSafe, Waiting;
    assert t.conns.Keys == s.conns.Keys;
  }

  lemma OpIncludes(conn: Conn, buffer: nat, op: Op, s: Shared)
    requires OpEnabled(conn, op)
    ensures OpConn(conn, buffer, op, s).included == conn.included
  {
    hide TrimSpace;
  }

  lemma ActFlightsSafe(s: State, id: nat, act: Act)
    requires Enabled(s, OfPublish(id, act)) && FlightsSafe(s)
    ensures FlightsSafe(AfterAct(s, id, act)) && AfterAct(s, id, act).conns.Keys == s.conns.Keys
  {
    FlightStaysSafe(s.publishes[id], s.conns, s.buffer, act);
    hide ActEnabled, ActPublishing, ActConns, FlightSafe;
  }

  /** After a step of call `id`, only `id` can have stopped waiting; a send for the client ends its wait. */
  lemma ActWaiting(s: State, id: nat, act: Act, c: Client, channel: string, payload: string)
    requires Enabled(s, OfPublish(id, act)) && FlightsSafe(s)
    ensures var before := Waiting(s.publishes, c, channel, payload);
      var after := Waiting(AfterAct(s, id, act).publishes, c, channel, payload);
      && after <= before
      && (act.Send? && s.publishes[id].stage.client == c && s.publishes[id].channel == channel
          && s.publishes[id].payload == payload
          ==> id in before && id !in after)
  {
    var p := s.publishes[id];
    assert FlightSafe(p, s.conns.Keys);
    if !act.Finish? {
      ActWaits(p, s.conns, s.buffer, act, c, channel, payload);
    }
    hide ActPublishing, ActConns, FlightSafe, Room;
  }

  lemma ActWaits(p: Publishing, conns: map<Client, Conn>, buffer: nat, act: Act, c: Client, channel: string,
                 payload: string)
    requires ActEnabled(p, conns, act) && FlightSafe(p, conns.Keys)
    ensures var q := ActPublishing(p, conns, buffer, act);
      && (Waits(q, c, channel, payload) ==> Waits(p, c, channel, payload))
      && (act.Send? && p.stage.client == c ==> !Waits(q, c, channel, payload))
  {
    hide Room;
  }

  lemma ActCovers(s: State, id: nat, act: Act, c: Client, channel: string, payload: string)
    requires Enabled(s, OfPublish(id, act)) && FlightsSafe(s) && Covered(s, c, channel, payload)
    ensures Covered(AfterAct(s, id, act), c, channel, payload)
  {
    var t, p := AfterAct(s, id, act), s.publishes[id];
    ActWaiting(s, id, act, c, channel, payload);
    var before, after := Waiting(s.publishes, c, channel, payload), Waiting(t.publishes, c, channel, payload);
    SubsetSize(after, before, id);
    if c in s.conns {
      ActCounts(p, s.conns, s.buffer, act, c, channel, payload);
    }
    hide FlightsSafe, Waiting, ActPublishing, ActConns, ActEnabled, Count;
  }

  lemma SubsetSize(x: set<nat>, y: set<nat>, id: nat)
    requires x <= y
    ensures |x| <= |y| && (id in y && id !in x ==> |x| + 1 <= |y|)
  {
    assert y == x + (y - x);
    assert id in y && id !in x ==> y - x == {id} + (y - x - {id});
  }

  lemma ActCounts(p: Publishing, conns: map<Client, Conn>, buffer: nat, act: Act, c: Client, channel: string,
                  payload: string)
    requires ActEnabled(p, conns, act) && c in conns
    ensures var after := ActConns(p, conns, buffer, act);
      && c in after && after[c].included == conns[c].included
      && Count(after[c].accepted, channel, payload) <= Count(conns[c].accepted, channel, payload) +
           if act.Send? && p.stage.client == c && p.channel == channel && p.payload == payload then 1 else 0
  {
    hide Count, Room;
    if act.Send? {
      CountAppend(conns[p.stage.client].accepted, Event(p.channel, p.payload), channel, payload);
    }
  }

  lemma SnapshotCovers(s: State, id: nat, to: string, sent: string, c: Client, channel: string, payload: string)
    requires id !in s.publishes && to in s.shared.channels && FlightsSafe(s) && Covered(s, c, channel, payload)
    requires HubSafety.ChannelSafe(to, s.shared.channels[to], s.conns)
    ensures FlightsSafe(AfterSnapshot(s, id, to, sent))
    ensures Covered(AfterSnapshot(s, id, to, sent), c, channel, payload)
  {
    hide Count, Waiting;
    assert AfterSnapshot(s, id, to, sent).conns.Keys == s.conns.Keys;
    SnapshotWaiting(s, id, to, sent, c, channel, payload);
    if c in s.conns {
      IncludeCounts(s.conns, s.shared.channels[to].subscribers, to, sent, c, channel, payload);
    }
  }

  /** The new call waits for the clients of its snapshot. */
  lemma SnapshotWaiting(s: State, id: nat, to: string, sent: string, c: Client, channel: string, payload: string)
    requires id !in s.publishes && to in s.shared.channels
    ensures var joins := c in s.shared.channels[to].subscribers && to == channel && sent == payload;
      |Waiting(AfterSnapshot(s, id, to, sent).publishes, c, channel, payload)|
        == |Waiting(s.publishes, c, channel, payload)| + if joins then 1 else 0
  {
    var before := Waiting(s.publishes, c, channel, payload);
    var after := Waiting(AfterSnapshot(s, id, to, sent).publishes, c, channel, payload);
    hide Include;
    assert after == if id in after then before + {id} else before;
  }

  lemma IncludeCounts(conns: map<Client, Conn>, members: set<Client>, to: string, sent: string, c: Client,
                      channel: string, payload: string)
    requires c in conns
    ensures var after := Include(conns, members, Event(to, sent));
      && c in after && after[c].accepted == conns[c].accepted
      && Count(after[c].included, channel, payload) ==
           Count(conns[c].included, channel, payload)
             + if c in members && to == channel && sent == payload then 1 else 0
  {
    hide Count;
    CountAppend(conns[c].included, Event(to, sent), channel, payload);
  }

  lemma AddCovers(s: State, d: Client, c: Client, channel: string, payload: string)
    requires d !in s.conns && FlightsSafe(s) && Covered(s, c, channel, payload)
    ensures FlightsSafe(After(s, Add(d))) && Covered(After(s, Add(d)), c, channel, payload)
  {
    if c == d {
      assert Waiting(s.publishes, c, channel, payload) == {};
    }
  }

  lemma StepCovers(s: State, step: Step, c: Client, channel: string, payload: string)
    requires Enabled(s, step) && HubSafety.Safe(s) && FlightsSafe(s) && Covered(s, c, channel, payload)
    ensures FlightsSafe(After(s, step)) && Covered(After(s, step), c, channel, payload)
  {
    hide OpEnabled, ActEnabled, AfterOp, AfterAct, AfterSnapshot, TrimSpace, Registered, Added, Covered, FlightsSafe,
      HubSafety.ConnsSafe, HubSafety.ClientsSafe, HubSafety.ClosingSafe, HubSafety.ChannelSafe;
    match step
    case Add(d) => AddCovers(s, d, c, channel, payload);
    case OfClient(d, op) => OpCovers(s, d, op, c, channel, payload);
    case Snapshot(id, to, event, sent) =>
      if TrimSpace(event) != "" && to in s.shared.channels {
        SnapshotCovers(s, id, to, sent, c, channel, payload);
      }
    case OfPublish(id, act) =>
      ActFlightsSafe(s, id, act);
      ActCovers(s, id, act, c, channel, payload);
    case _ => SameCovers(s, After(s, step), c, channel, payload);
  }

  lemma SameCovers(s: State, t: State, c: Client, channel: string, payload: string)
    requires t.conns == s.conns && t.publishes == s.publishes && FlightsSafe(s) && Covered(s, c, channel, payload)
    ensures FlightsSafe(t) && Covered(t, c, channel, payload)
  {}

  lemma {:induction false} RunCovers(s: State, steps: seq<Step>, c: Client, channel: string, payload: string)
    requires IsRun(s, steps) && HubSafety.Safe(s) && FlightsSafe(s) && Covered(s, c, channel, payload)
    ensures Covered(Run(s, steps), c, channel, payload)
    decreases |steps|
  {
    hide Enabled, After, HubSafety.Safe, FlightsSafe, Covered;
    if steps != [] {
      HubSafety.StepKeeps(s, steps[0]);
      StepCovers(s, steps[0], c, channel, payload);
      RunCovers(After(s, steps[0]), steps[1..], c, channel, payload);
    }
  }

  lemma InitialCovered(buffer: nat, c: Client, channel: string, payload: string)
    ensures HubSafety.Safe(Initial(buffer)) && FlightsSafe(Initial(buffer))
    ensures Covered(Initial(buffer), c, channel, payload)
  {}

  /** However Publish calls overlap, a queue is given nothing of a channel that was not meant for its client,
      and nothing more often than it was meant for it. */
  lemma NothingExtra(buffer: nat, steps: seq<Step>, channel: string, c: Client)
    requires IsRun(Initial(buffer), steps) && c in Run(Initial(buffer), steps).conns
    ensures var conn := Run(Initial(buffer), steps).conns[c];
      multiset(On(conn.accepted, channel)) <= multiset(On(conn.included, channel))
  {
    hide IsRun, Run, Initial, On, HubSafety.Safe, FlightsSafe, Waiting;
    var conn := Run(Initial(buffer), steps).conns[c];
    forall payload
      ensures multiset(On(conn.accepted, channel))[payload] <= multiset(On(conn.included, channel))[payload]
    {
      InitialCovered(buffer, c, channel, payload);
      RunCovers(Initial(buffer), steps, c, channel, payload);
    }
  }
}
