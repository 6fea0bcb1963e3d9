/** runtime/realtime/realtime.go: the sections of Hub that run under its lock, and a client's queue.

    Every method here is one step that other goroutines see as a whole. The data under the lock is a
    `Shared` value, and each locked section is a function on it: HubRuns interleaves them. */
module Hub {
  import opened Text

  type Client = nat

  datatype Channel = Channel(isPrivate: bool, subscribers: set<Client>)

  /** What the hub's mutex protects. */
  datatype Shared = Shared(channels: map<string, Channel>, clients: set<Client>, closed: bool)

  datatype Error =
    | NameRequired
    | AlreadyRegistered(name: string)
    | HubClosed
    | UnknownChannel(name: string)
    | EventRequired

  /** register: a registered name is reported before a closed hub. */
  function Registered(s: Shared, name: string, isPrivate: bool): (Shared, Option<Error>) {
    var trimmed := TrimSpace(name);
    if trimmed == "" then (s, Some(NameRequired))
    else if trimmed in s.channels then (s, Some(AlreadyRegistered(trimmed)))
    else if s.closed then (s, Some(HubClosed))
    else (s.(channels := s.channels[trimmed := Channel(isPrivate, {})]), None)
  }

  /** add. */
  function Added(s: Shared, c: Client): (Shared, bool) {
    if s.closed then (s, false) else (s.(clients := s.clients + {c}), true)
  }

  /** The second locked section of subscribe, whose name is trimmed by now. */
  function Subscribed(s: Shared, c: Client, name: string): (Shared, Option<Error>) {
    if s.closed then (s, Some(HubClosed))
    else if name !in s.channels then (s, Some(UnknownChannel(name)))
    else
      var channel := s.channels[name];
      (s.(channels := s.channels[name := channel.(subscribers := channel.subscribers + {c})]), None)
  }

  /** unsubscribe. */
  function Unsubscribed(s: Shared, c: Client, name: string): Shared {
    var trimmed := TrimSpace(name);
    if trimmed in s.channels then
      var channel := s.channels[trimmed];
      s.(channels := s.channels[trimmed := channel.(subscribers := channel.subscribers - {c})])
    else s
  }

  /** A channel without one subscriber. */
  function Without(channel: Channel, c: Client): Channel {
    channel.(subscribers := channel.subscribers - {c})
  }

  /** The locked section of remove: the client leaves the hub and every channel. */
  function Removed(s: Shared, c: Client): Shared {
    Shared(map name | name in s.channels :: Without(s.channels[name], c), s.clients - {c}, s.closed)
  }

  /** A registered channel stays registered, and as private as it was, whatever a locked section does. */
  ghost predicate Keeps(s: Shared, t: Shared) {
    && (forall name :: name in s.channels ==>
          name in t.channels && t.channels[name].isPrivate == s.channels[name].isPrivate)
    && (s.closed ==> t.closed)
  }

  lemma SectionsKeep(s: Shared, c: Client, name: string, isPrivate: bool)
    ensures Keeps(s, Registered(s, name, isPrivate).0)
    ensures Keeps(s, Added(s, c).0)
    ensures Keeps(s, Subscribed(s, c, name).0)
    ensures Keeps(s, Unsubscribed(s, c, name))
    ensures Keeps(s, Removed(s, c))
  {
    hide TrimSpace;
  }

  /** Which error each section answers with; the first that applies. */
  lemma SectionErrors(s: Shared, c: Client, name: string, isPrivate: bool)
    ensures var trimmed, err := TrimSpace(name), Registered(s, name, isPrivate).1;
      && (err == Some(NameRequired) <==> trimmed == "")
      && (err == Some(AlreadyRegistered(trimmed)) <==> trimmed != "" && trimmed in s.channels)
      && (err == Some(HubClosed) <==> trimmed != "" && trimmed !in s.channels && s.closed)
      && (err == None <==> trimmed != "" && trimmed !in s.channels && !s.closed)
    ensures var err := Subscribed(s, c, name).1;
      && (err == Some(HubClosed) <==> s.closed)
      && (err == Some(UnknownChannel(name)) <==> !s.closed && name !in s.channels)
      && (err == None <==> !s.closed && name in s.channels)
    ensures Added(s, c).1 <==> !s.closed
  {
    hide TrimSpace;
  }

  class Hub {
    var channels: map<string, Channel>
    var clients: set<Client>
    var closed: bool
    const buffer: int

    ghost function View(): Shared
      reads this
    {
      Shared(channels, clients, closed)
    }

    constructor (clientBuffer: int)
      ensures View() == Shared(map[], {}, false)
      ensures buffer > 0 && (clientBuffer > 0 ==> buffer == clientBuffer) && (clientBuffer <= 0 ==> buffer == 16)
    {
      channels, clients, closed := map[], {}, false;
      buffer := if clientBuffer <= 0 then 16 else clientBuffer;
    }

    method Register(name: string, isPrivate: bool) returns (err: Option<Error>)
      modifies this
      ensures (View(), err) == Registered(old(View()), name, isPrivate)
    {
      var trimmed := TrimSpace(name);
      if trimmed == "" {
        return Some(NameRequired);
      }
      if trimmed in channels {
        return Some(AlreadyRegistered(trimmed));
      }
      if closed {
        return Some(HubClosed);
      }
      channels := channels[trimmed := Channel(isPrivate, {})];
      err := None;
    }

    method Add(c: Client) returns (ok: bool)
      modifies this
      ensures (View(), ok) == Added(old(View()), c)
    {
      if closed {
        return false;
      }
      clients := clients + {c};
      ok := true;
    }

    /** The first locked section of subscribe: is the channel there, and must `auth` be asked? */
    method Lookup(name: string) returns (isPrivate: Option<bool>)
      ensures isPrivate.Some? <==> TrimSpace(name) in channels
      ensures isPrivate.Some? ==> isPrivate.value == channels[TrimSpace(name)].isPrivate
    {
      var trimmed := TrimSpace(name);
      isPrivate := if trimmed in channels then Some(channels[trimmed].isPrivate) else None;
    }

    method Subscribe(c: Client, name: string) returns (err: Option<Error>)
      modifies this
      ensures (View(), err) == Subscribed(old(View()), c, name)
    {
      if closed {
        return Some(HubClosed);
      }
      if name !in channels {
        return Some(UnknownChannel(name));
      }
      var channel := channels[name];
      channels := channels[name := channel.(subscribers := channel.subscribers + {c})];
      err := None;
    }

    method Unsubscribe(c: Client, name: string)
      modifies this
      ensures View() == Unsubscribed(old(View()), c, name)
    {
      var trimmed := TrimSpace(name);
      if trimmed in channels {
        channels := channels[trimmed := Without(channels[trimmed], c)];
      }
    }

    /** Publish's locked section: the channel's subscribers, each once, in some order. */
    method Snapshot(channelName: string, event: string) returns (err: Option<Error>, snapshot: seq<Client>)
      ensures TrimSpace(event) == "" ==> err == Some(EventRequired)
      ensures TrimSpace(event) != "" ==>
        err == if channelName in channels then None else Some(UnknownChannel(channelName))
      ensures err == None ==> multiset(snapshot) == multiset(channels[channelName].subscribers)
      ensures err != None ==> snapshot == []
    {
      snapshot := [];
      if TrimSpace(event) == "" {
        return Some(EventRequired), snapshot;
      }
      if channelName !in channels {
        return Some(UnknownChannel(channelName)), snapshot;
      }
      err := None;
      var rest := channels[channelName].subscribers;
      while rest != {}
        invariant multiset(snapshot) + multiset(rest) == multiset(channels[channelName].subscribers)
      {
        var item :| item in rest;
        snapshot := snapshot + [item];
        rest := rest - {item};
      }
    }

    /** The locked section of remove. */
    method Remove(c: Client)
      modifies this
      ensures View() == Removed(old(View()), c)
    {
      clients := clients - {c};
      var rest := channels.Keys;
      while rest != {}
        invariant rest <= channels.Keys == old(channels.Keys)
        invariant clients == old(clients) - {c} && closed == old(closed)
        invariant forall name :: name in channels.Keys ==>
          channels[name] == if name in rest then old(channels)[name] else Without(old(channels)[name], c)
      {
        var name :| name in rest;
        channels := channels[name := Without(channels[name], c)];
        rest := rest - {name};
      }
    }

    /** The locked section of Close: after it no client is added, and the snapshot holds every client. */
    method StartClose() returns (snapshot: seq<Client>)
      modifies this
      ensures View() == old(View()).(closed := true)
      ensures multiset(snapshot) == multiset(clients)
    {
      closed := true;
      snapshot := [];
      var rest := clients;
      while rest != {}
        invariant View() == old(View()).(closed := true)
        invariant multiset(snapshot) + multiset(rest) == multiset(clients)
      {
        var item :| item in rest;
        snapshot := snapshot + [item];
        rest := rest - {item};
      }
    }
  }

  /** A client's outbound queue and done channel. */
  class Outbound<T> {
    var send: seq<T>
    var done: bool
    const buffer: nat

    ghost predicate Valid()
      reads this
    {
      |send| <= buffer
    }

    constructor (buffer: nat)
      ensures Valid() && send == [] && !done && this.buffer == buffer
    {
      send, done := [], false;
      this.buffer := buffer;
    }

    /** The select on `send`: it does not wait. */
    method TrySend(payload: T) returns (ok: bool)
      requires Valid()
      modifies this`send
      ensures Valid()
      ensures ok <==> |old(send)| < buffer
      ensures send == old(send) + if ok then [payload] else []
    {
      ok := |send| < buffer;
      if ok {
        send := send + [payload];
      }
    }

    /** enqueue, when nothing comes between its two channel operations. */
    method Enqueue(payload: T) returns (ok: bool)
      requires Valid()
      modifies this`send
      ensures Valid()
      ensures ok <==> !done && |old(send)| < buffer
      ensures send == old(send) + if ok then [payload] else []
    {
      if done {
        return false;
      }
      ok := TrySend(payload);
    }

    /** close(done), which panics on a closed channel. */
    method Close()
      requires !done
      modifies this`done
      ensures done
    {
      done := true;
    }
  }
}
