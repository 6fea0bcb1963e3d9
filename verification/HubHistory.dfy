/** The state of the realtime hub, read off the steps of a run: which channels are registered, how private they
    are, who is a client, who subscribes to what, and what is published to whom. */
module HubHistory {
  import opened Text
  import opened Hub
  import opened HubRuns
  import HubSafety

  // ----- a run, step by step ---------------------------------------------------------------------------

  lemma {:induction false} PrefixRuns(s: State, steps: seq<Step>, e: nat)
    requires IsRun(s, steps) && e <= |steps|
    ensures IsRun(s, steps[..e])
    ensures e < |steps| ==> Enabled(Run(s, steps[..e]), steps[e])
    ensures e < |steps| ==>
      IsRun(s, steps[..e + 1]) && Run(s, steps[..e + 1]) == After(Run(s, steps[..e]), steps[e])
    decreases e
  {
    hide Enabled, After;
    if e > 0 {
      PrefixRuns(After(s, steps[0]), steps[1..], e - 1);
      assert steps[..e][1..] == steps[1..][..e - 1];
      assert e < |steps| ==> steps[..e + 1][1..] == steps[1..][..e];
    } else if |steps| > 0 {
      assert steps[..1][1..] == [];
    }
  }

  /** The state after the first `e` steps. */
  ghost function At(buffer: nat, steps: seq<Step>, e: nat): State
    requires IsRun(Initial(buffer), steps) && e <= |steps|
  {
    PrefixRuns(Initial(buffer), steps, e);
    Run(Initial(buffer), steps[..e])
  }

  lemma AtStart(buffer: nat, steps: seq<Step>)
    requires IsRun(Initial(buffer), steps)
    ensures At(buffer, steps, 0) == Initial(buffer)
  {}

  lemma AtNext(buffer: nat, steps: seq<Step>, e: nat)
    requires IsRun(Initial(buffer), steps) && e < |steps|
    ensures Enabled(At(buffer, steps, e), steps[e])
    ensures At(buffer, steps, e + 1) == After(At(buffer, steps, e), steps[e])
  {
    PrefixRuns(Initial(buffer), steps, e);
    hide Enabled, After;
  }

  lemma AtEnd(buffer: nat, steps: seq<Step>)
    requires IsRun(Initial(buffer), steps)
    ensures At(buffer, steps, |steps|) == Run(Initial(buffer), steps)
  {
    assert steps[..|steps|] == steps;
  }

  lemma AtSafe(buffer: nat, steps: seq<Step>, e: nat)
    requires IsRun(Initial(buffer), steps) && e <= |steps|
    ensures HubSafety.Safe(At(buffer, steps, e))
  {
    PrefixRuns(Initial(buffer), steps, e);
    HubSafety.InitialSafe(buffer);
    hide HubSafety.Safe;
    HubSafety.RunKeeps(Initial(buffer), steps[..e]);
  }

  // ----- what one step does ----------------------------------------------------------------------------

  /** A registration of this channel, which may be refused. */
  predicate Registers(step: Step, name: string) {
    step.Register? && TrimSpace(step.name) == name
  }

  predicate IsOp(step: Step, c: Client) {
    step.OfClient? && step.c == c
  }

  /** A part of a subscribe call of this client. */
  predicate IsCall(step: Step, c: Client) {
    IsOp(step, c) && (step.op.Lookup? || step.op.Authorize? || step.op.Commit?)
  }

  /** The client leaves the channel: it unsubscribes, or it is removed. */
  predicate Leaves(step: Step, c: Client, name: string) {
    IsOp(step, c) && ((step.op.Unsubscribe? && TrimSpace(step.op.name) == name) || step.op.Delete?)
  }

  lemma StepCloses(s: State, step: Step)
    requires Enabled(s, step)
    ensures After(s, step).shared.closed <==> s.shared.closed || step.StartClose?
  {
    hide TrimSpace, OpEnabled, ActEnabled, OpConn, ActConns, ActPublishing, Include;
  }

  lemma StepChannel(s: State, step: Step, name: string)
    requires Enabled(s, step)
    ensures var t := After(s, step).shared;
      && (name in t.channels <==>
            name in s.shared.channels || (Registers(step, name) && name != "" && !s.shared.closed))
      && (name in t.channels ==>
            t.channels[name].isPrivate == if name in s.shared.channels then s.shared.channels[name].isPrivate
                                          else step.isPrivate)
      && (name in t.channels && name !in s.shared.channels ==> t.channels[name].subscribers == {})
  {
    hide TrimSpace, OpEnabled, ActEnabled, OpConn, ActConns, ActPublishing, Include;
  }

  lemma StepSubscribers(s: State, step: Step, name: string, c: Client)
    requires Enabled(s, step) && name in s.shared.channels
    ensures var t := After(s, step).shared;
      && name in t.channels
      && (c in t.channels[name].subscribers <==>
            || (c in s.shared.channels[name].subscribers && !Leaves(step, c, name))
            || (IsOp(step, c) && step.op.Commit? && s.conns[c].call == Allowed(name) && !s.shared.closed))
  {
    hide TrimSpace, OpConn, ActEnabled, ActConns, ActPublishing, Include;
  }

  lemma StepClients(s: State, step: Step, c: Client)
    requires Enabled(s, step)
    ensures c in After(s, step).shared.clients <==>
      || (c in s.shared.clients && !(IsOp(step, c) && step.op.Delete?))
      || (step == Add(c) && !s.shared.closed)
  {
    hide TrimSpace, OpEnabled, OpConn, ActEnabled, ActConns, ActPublishing, Include;
  }

  /** What a step leaves of a subscribe call. */
  lemma StepCall(s: State, step: Step, c: Client)
    requires Enabled(s, step)
    ensures c in s.conns ==> c in After(s, step).conns
    ensures c in s.conns && !IsCall(step, c) ==> After(s, step).conns[c].call == s.conns[c].call
    ensures IsOp(step, c) && step.op.Lookup? ==>
      && c in s.conns && s.conns[c].call.NoCall?
      && var name := TrimSpace(step.op.name);
         After(s, step).conns[c].call ==
           if name in s.shared.channels then Looked(name, s.shared.channels[name].isPrivate) else NoCall
    ensures IsOp(step, c) && step.op.Authorize? ==>
      && c in s.conns && s.conns[c].call.Looked?
      && After(s, step).conns[c].call ==
           if s.conns[c].call.isPrivate && !step.op.allowed then NoCall else Allowed(s.conns[c].call.name)
    ensures IsOp(step, c) && step.op.Commit? ==>
      c in s.conns && s.conns[c].call.Allowed? && After(s, step).conns[c].call == NoCall
    ensures c !in s.conns ==> !IsOp(step, c)
    ensures c !in s.conns && c in After(s, step).conns ==> After(s, step).conns[c].call == NoCall
  {
    hide TrimSpace, OpShared, ActPublishing;
  }

  // ----- closing, channels and clients -------------------------------------------------------------------

  ghost predicate OpenUntil(steps: seq<Step>, e: nat)
    requires e <= |steps|
  {
    forall k :: 0 <= k < e ==> !steps[k].StartClose?
  }

  lemma {:induction false} OpenExactly(buffer: nat, steps: seq<Step>, e: nat)
    requires IsRun(Initial(buffer), steps) && e <= |steps|
    ensures At(buffer, steps, e).shared.closed <==> !OpenUntil(steps, e)
  {
    hide After, Enabled, At;
    AtStart(buffer, steps);
    if e > 0 {
      OpenExactly(buffer, steps, e - 1);
      AtNext(buffer, steps, e - 1);
      StepCloses(At(buffer, steps, e - 1), steps[e - 1]);
    }
  }

  /** Step `k` is the first registration under this name, and the hub was not closed before it. */
  ghost predicate IsRegistration(steps: seq<Step>, name: string, k: nat, isPrivate: bool) {
    && name != "" && k < |steps| && Registers(steps[k], name) && steps[k].isPrivate == isPrivate
    && OpenUntil(steps, k) && forall j :: 0 <= j < k ==> !Registers(steps[j], name)
  }

  /** It is among the first `e` steps. */
  ghost predicate RegisteredBy(steps: seq<Step>, e: nat, name: string, isPrivate: bool) {
    exists k: nat :: k < e && IsRegistration(steps, name, k, isPrivate)
  }

  lemma RegisteredNext(steps: seq<Step>, e: nat, name: string, isPrivate: bool)
    requires e < |steps|
    ensures RegisteredBy(steps, e + 1, name, isPrivate) <==>
      RegisteredBy(steps, e, name, isPrivate) || IsRegistration(steps, name, e, isPrivate)
  {
    hide IsRegistration;
  }

  lemma RegistrationIsOne(steps: seq<Step>, e: nat, name: string, isPrivate: bool)
    requires RegisteredBy(steps, e, name, isPrivate) && e <= |steps|
    ensures exists k: nat :: k < e && Registers(steps[k], name)
  {
    hide Registers;
  }

  /** The channels of the hub are those whose first registration came before Close, and each is private
      exactly if that registration said so. */
  lemma {:induction false} ChannelsExactly(buffer: nat, steps: seq<Step>, e: nat, name: string, isPrivate: bool)
    requires IsRun(Initial(buffer), steps) && e <= |steps|
    ensures var channels := At(buffer, steps, e).shared.channels;
      name in channels && channels[name].isPrivate == isPrivate <==> RegisteredBy(steps, e, name, isPrivate)
    ensures name !in At(buffer, steps, e).shared.channels && name != "" && OpenUntil(steps, e) ==>
      forall j :: 0 <= j < e ==> !Registers(steps[j], name)
  {
    hide After, Enabled, At, RegisteredBy, IsRegistration, OpenUntil, Registers;
    AtStart(buffer, steps);
    if e == 0 {
      NotRegistered(steps, name, isPrivate);
    } else {
      var s := At(buffer, steps, e - 1);
      ChannelsExactly(buffer, steps, e - 1, name, isPrivate);
      ChannelsExactly(buffer, steps, e - 1, name, !isPrivate);
      AtNext(buffer, steps, e - 1);
      OpenExactly(buffer, steps, e - 1);
      StepChannel(s, steps[e - 1], name);
      RegisteredNext(steps, e - 1, name, isPrivate);
      if name in s.shared.channels {
        RegistrationIsOne(steps, e - 1, name, s.shared.channels[name].isPrivate);
      }
      ChannelNext(steps, e - 1, name, isPrivate, name in s.shared.channels);
    }
  }

  lemma NotRegistered(steps: seq<Step>, name: string, isPrivate: bool)
    ensures !RegisteredBy(steps, 0, name, isPrivate)
  {}

  lemma ChannelNext(steps: seq<Step>, e: nat, name: string, isPrivate: bool, already: bool)
    requires e < |steps|
    requires already ==> exists k: nat :: k < e && Registers(steps[k], name)
    requires !already && name != "" && OpenUntil(steps, e) ==> forall j :: 0 <= j < e ==> !Registers(steps[j], name)
    ensures IsRegistration(steps, name, e, isPrivate) <==>
      && !already && Registers(steps[e], name) && name != "" && OpenUntil(steps, e) && steps[e].isPrivate == isPrivate
    ensures OpenUntil(steps, e + 1) ==> OpenUntil(steps, e)
  {
    hide Registers;
  }

  /** Step `k` makes this client one of the hub's, and nothing removes it in the first `e` steps. */
  ghost predicate IsClientSince(steps: seq<Step>, e: nat, c: Client, k: nat) {
    && k < e <= |steps| && steps[k] == Add(c) && OpenUntil(steps, k)
    && forall j :: k < j < e ==> !(IsOp(steps[j], c) && steps[j].op.Delete?)
  }

  ghost predicate Stays(steps: seq<Step>, e: nat, c: Client) {
    exists k: nat :: IsClientSince(steps, e, c, k)
  }

  lemma StaysNext(steps: seq<Step>, e: nat, c: Client)
    requires e < |steps|
    ensures Stays(steps, e + 1, c) <==>
      || (Stays(steps, e, c) && !(IsOp(steps[e], c) && steps[e].op.Delete?))
      || (steps[e] == Add(c) && OpenUntil(steps, e))
  {
    hide OpenUntil;
    var next := e + 1;
    if Stays(steps, next, c) {
      var k: nat :| IsClientSince(steps, next, c, k);
      assert k < e ==> IsClientSince(steps, e, c, k);
    }
    if Stays(steps, e, c) {
      var k: nat :| IsClientSince(steps, e, c, k);
      assert !(IsOp(steps[e], c) && steps[e].op.Delete?) ==> IsClientSince(steps, next, c, k);
    }
    if steps[e] == Add(c) && OpenUntil(steps, e) {
      assert IsClientSince(steps, next, c, e);
    }
  }

  /** The clients of the hub are those that were added before Close and not removed since. */
  lemma {:induction false} ClientsExactly(buffer: nat, steps: seq<Step>, e: nat, c: Client)
    requires IsRun(Initial(buffer), steps) && e <= |steps|
    ensures c in At(buffer, steps, e).shared.clients <==> Stays(steps, e, c)
  {
    hide After, Enabled, At, OpenUntil;
    AtStart(buffer, steps);
    if e > 0 {
      ClientsExactly(buffer, steps, e - 1, c);
      AtNext(buffer, steps, e - 1);
      OpenExactly(buffer, steps, e - 1);
      StepClients(At(buffer, steps, e - 1), steps[e - 1], c);
      StaysNext(steps, e - 1, c);
      hide Stays;
    } else {
      NobodyStays(steps, c);
    }
  }

  lemma NobodyStays(steps: seq<Step>, c: Client)
    ensures !Stays(steps, 0, c)
  {}

  // ----- subscribe calls -----------------------------------------------------------------------------------

  /** The client is in no part of a subscribe call after step `i` and before step `e`. */
  ghost predicate Quiet(steps: seq<Step>, i: nat, e: nat, c: Client)
    requires e <= |steps|
  {
    forall k :: i < k < e ==> !IsCall(steps[k], c)
  }

  ghost predicate HasChannel(steps: seq<Step>, e: nat, name: string) {
    RegisteredBy(steps, e, name, true) || RegisteredBy(steps, e, name, false)
  }

  /** In step `i` the client looked the channel up and found it; nothing came of that before step `e`. */
  ghost predicate LookedAt(steps: seq<Step>, e: nat, c: Client, name: string, i: nat) {
    && i < e <= |steps| && IsOp(steps[i], c) && steps[i].op.Lookup? && TrimSpace(steps[i].op.name) == name
    && HasChannel(steps, i, name) && Quiet(steps, i, e, c)
  }

  /** And in step `j` it was let in: by the AuthFunc, or because the channel is public. */
  ghost predicate AllowedAt(steps: seq<Step>, e: nat, c: Client, name: string, i: nat, j: nat) {
    && j < e <= |steps| && LookedAt(steps, j, c, name, i) && Quiet(steps, j, e, c)
    && (steps[j] == OfClient(c, Authorize(true)) ||
        (steps[j] == OfClient(c, Authorize(false)) && RegisteredBy(steps, j, name, false)))
  }

  ghost predicate Looking(steps: seq<Step>, e: nat, c: Client, name: string) {
    exists i: nat :: LookedAt(steps, e, c, name, i)
  }

  ghost predicate LetIn(steps: seq<Step>, e: nat, c: Client, name: string) {
    exists i: nat, j: nat :: AllowedAt(steps, e, c, name, i, j)
  }

  lemma LookingNext(steps: seq<Step>, e: nat, c: Client, name: string)
    requires e < |steps|
    ensures Looking(steps, e + 1, c, name) <==>
      if !IsCall(steps[e], c) then Looking(steps, e, c, name)
      else steps[e].op.Lookup? && TrimSpace(steps[e].op.name) == name && HasChannel(steps, e, name)
  {
    hide TrimSpace, HasChannel;
    var next := e + 1;
    if Looking(steps, next, c, name) {
      var i: nat :| LookedAt(steps, next, c, name, i);
      assert i < e ==> !IsCall(steps[e], c) && LookedAt(steps, e, c, name, i);
    }
    if IsCall(steps[e], c) {
      if steps[e].op.Lookup? && TrimSpace(steps[e].op.name) == name && HasChannel(steps, e, name) {
        assert LookedAt(steps, next, c, name, e);
      }
    } else if Looking(steps, e, c, name) {
      var i: nat :| LookedAt(steps, e, c, name, i);
      assert LookedAt(steps, next, c, name, i);
    }
  }

  lemma LetInNext(steps: seq<Step>, e: nat, c: Client, name: string)
    requires e < |steps|
    ensures LetIn(steps, e + 1, c, name) <==>
      if !IsCall(steps[e], c) then LetIn(steps, e, c, name)
      else steps[e].op.Authorize? && Looking(steps, e, c, name) &&
           (steps[e].op.allowed || RegisteredBy(steps, e, name, false))
  {
    hide LookedAt, RegisteredBy;
    var next := e + 1;
    if LetIn(steps, next, c, name) {
      var i: nat, j: nat :| AllowedAt(steps, next, c, name, i, j);
      assert j < e ==> !IsCall(steps[e], c) && AllowedAt(steps, e, c, name, i, j);
    }
    if IsCall(steps[e], c) {
      if steps[e].op.Authorize? && Looking(steps, e, c, name)
        && (steps[e].op.allowed || RegisteredBy(steps, e, name, false)) {
        var i: nat :| LookedAt(steps, e, c, name, i);
        assert AllowedAt(steps, next, c, name, i, e);
      }
    } else if LetIn(steps, e, c, name) {
      var i: nat, j: nat :| AllowedAt(steps, e, c, name, i, j);
      assert AllowedAt(steps, next, c, name, i, j);
    }
  }

  predicate HasCall(s: State, c: Client, call: Subscribing) {
    c in s.conns && s.conns[c].call == call
  }

  ghost predicate CallIs(s: State, steps: seq<Step>, e: nat, c: Client, name: string) {
    && ((c in s.conns && s.conns[c].call.Looked? && s.conns[c].call.name == name) <==> Looking(steps, e, c, name))
    && ((c in s.conns && s.conns[c].call == Allowed(name)) <==> LetIn(steps, e, c, name))
  }

  /** How far a client's subscribe call has come. */
  lemma {:induction false} CallExactly(buffer: nat, steps: seq<Step>, e: nat, c: Client, name: string)
    requires IsRun(Initial(buffer), steps) && e <= |steps|
    ensures CallIs(At(buffer, steps, e), steps, e, c, name)
  {
    hide After, Enabled, At, Looking, LetIn, RegisteredBy, HubSafety.Safe;
    AtStart(buffer, steps);
    if e == 0 {
      NoCallYet(steps, c, name);
    } else {
      var s, step := At(buffer, steps, e - 1), steps[e - 1];
      CallExactly(buffer, steps, e - 1, c, name);
      AtNext(buffer, steps, e - 1);
      AtSafe(buffer, steps, e - 1);
      ChannelsExactly(buffer, steps, e - 1, name, true);
      ChannelsExactly(buffer, steps, e - 1, name, false);
      LookingNext(steps, e - 1, c, name);
      LetInNext(steps, e - 1, c, name);
      StepCall(s, step, c);
      CallPrivacy(s, c);
      CallNext(s, After(s, step), step, steps, e - 1, c, name);
    }
  }

  lemma NoCallYet(steps: seq<Step>, c: Client, name: string)
    ensures !Looking(steps, 0, c, name) && !LetIn(steps, 0, c, name)
  {}

  lemma CallPrivacy(s: State, c: Client)
    requires HubSafety.Safe(s)
    ensures c in s.conns && s.conns[c].call.Looked? ==>
      && s.conns[c].call.name in s.shared.channels
      && s.shared.channels[s.conns[c].call.name].isPrivate == s.conns[c].call.isPrivate
  {
    hide HubSafety.ConnSafe, HubSafety.ClientsSafe, HubSafety.ChannelsSafe, HubSafety.ClosingSafe;
    if c in s.conns {
      assert HubSafety.CallSafe(s.conns[c].call, s.conns[c].authorized, s.shared.channels);
    }
  }

  lemma CallNext(s: State, t: State, step: Step, steps: seq<Step>, e: nat, c: Client, name: string)
    requires e < |steps| && step == steps[e] && Enabled(s, step) && t == After(s, step) && CallIs(s, steps, e, c, name)
    requires Looking(steps, e + 1, c, name) <==>
      if !IsCall(step, c) then Looking(steps, e, c, name)
      else step.op.Lookup? && TrimSpace(step.op.name) == name && HasChannel(steps, e, name)
    requires LetIn(steps, e + 1, c, name) <==>
      if !IsCall(step, c) then LetIn(steps, e, c, name)
      else step.op.Authorize? && Looking(steps, e, c, name) &&
           (step.op.allowed || RegisteredBy(steps, e, name, false))
    requires name in s.shared.channels <==> HasChannel(steps, e, name)
    requires name in s.shared.channels && !s.shared.channels[name].isPrivate <==> RegisteredBy(steps, e, name, false)
    requires c in s.conns && s.conns[c].call.Looked? ==>
      && s.conns[c].call.name in s.shared.channels
      && s.shared.channels[s.conns[c].call.name].isPrivate == s.conns[c].call.isPrivate
    ensures CallIs(t, steps, e + 1, c, name)
  {
    StepCall(s, step, c);
    hide After, Enabled, Looking, LetIn, RegisteredBy, HasChannel, TrimSpace;
  }

  // ----- subscribers -----------------------------------------------------------------------------------------

  /** A subscribe call looked up the channel in step `i`, was let in by step `j` and took effect in step `m`;
      since then the client has not left the channel. */
  ghost predicate SubscribedAt(steps: seq<Step>, e: nat, c: Client, name: string, i: nat, j: nat, m: nat) {
    && m < e <= |steps| && AllowedAt(steps, m, c, name, i, j) && steps[m] == OfClient(c, Commit) && OpenUntil(steps, m)
    && forall k :: m < k < e ==> !Leaves(steps[k], c, name)
  }

  ghost predicate Subscribes(steps: seq<Step>, e: nat, c: Client, name: string) {
    exists i: nat, j: nat, m: nat :: SubscribedAt(steps, e, c, name, i, j, m)
  }

  lemma SubscribesNext(steps: seq<Step>, e: nat, c: Client, name: string)
    requires e < |steps|
    ensures Subscribes(steps, e + 1, c, name) <==>
      || (Subscribes(steps, e, c, name) && !Leaves(steps[e], c, name))
      || (steps[e] == OfClient(c, Commit) && LetIn(steps, e, c, name) && OpenUntil(steps, e))
  {
    hide AllowedAt, OpenUntil, TrimSpace;
    var next := e + 1;
    if Subscribes(steps, next, c, name) {
      var i: nat, j: nat, m: nat :| SubscribedAt(steps, next, c, name, i, j, m);
      assert m < e ==> !Leaves(steps[e], c, name) && SubscribedAt(steps, e, c, name, i, j, m);
    }
    if Subscribes(steps, e, c, name) {
      var i: nat, j: nat, m: nat :| SubscribedAt(steps, e, c, name, i, j, m);
      assert !Leaves(steps[e], c, name) ==> SubscribedAt(steps, next, c, name, i, j, m);
    }
    if steps[e] == OfClient(c, Commit) && LetIn(steps, e, c, name) && OpenUntil(steps, e) {
      var i: nat, j: nat :| AllowedAt(steps, e, c, name, i, j);
      assert SubscribedAt(steps, next, c, name, i, j, e);
    }
  }

  predicate IsSubscriber(s: State, c: Client, name: string) {
    name in s.shared.channels && c in s.shared.channels[name].subscribers
  }

  /** The subscribers of a channel are the clients of whose subscribe calls one took effect before Close, and
      who have not left since. */
  lemma {:induction false} SubscribersExactly(buffer: nat, steps: seq<Step>, e: nat, c: Client, name: string)
    requires IsRun(Initial(buffer), steps) && e <= |steps|
    ensures IsSubscriber(At(buffer, steps, e), c, name) <==> Subscribes(steps, e, c, name)
  {
    hide After, Enabled, At, Subscribes, LetIn, Looking, OpenUntil, HubSafety.Safe;
    AtStart(buffer, steps);
    if e == 0 {
      NobodySubscribes(steps, c, name);
    } else {
      var s, step := At(buffer, steps, e - 1), steps[e - 1];
      SubscribersExactly(buffer, steps, e - 1, c, name);
      AtNext(buffer, steps, e - 1);
      OpenExactly(buffer, steps, e - 1);
      CallExactly(buffer, steps, e - 1, c, name);
      AtSafe(buffer, steps, e - 1);
      SubscribesNext(steps, e - 1, c, name);
      SubscriberNext(s, step, c, name);
    }
  }

  lemma NobodySubscribes(steps: seq<Step>, c: Client, name: string)
    ensures !Subscribes(steps, 0, c, name)
  {}

  lemma SubscriberNext(s: State, step: Step, c: Client, name: string)
    requires Enabled(s, step) && HubSafety.Safe(s)
    ensures IsSubscriber(After(s, step), c, name) <==>
      || (IsSubscriber(s, c, name) && !Leaves(step, c, name))
      || (step == OfClient(c, Commit) && HasCall(s, c, Allowed(name)) && !s.shared.closed)
  {
    StepCall(s, step, c);
    StepChannel(s, step, name);
    if name in s.shared.channels {
      StepSubscribers(s, step, name, c);
    }
    AllowedIsChannel(s, c, name);
    hide After, Enabled, HubSafety.Safe, TrimSpace;
  }

  lemma AllowedIsChannel(s: State, c: Client, name: string)
    requires HubSafety.Safe(s)
    ensures HasCall(s, c, Allowed(name)) ==> name in s.shared.channels
  {
    hide HubSafety.ConnSafe, HubSafety.ClientsSafe, HubSafety.ChannelsSafe, HubSafety.ClosingSafe;
    if c in s.conns {
      assert HubSafety.CallSafe(s.conns[c].call, s.conns[c].authorized, s.shared.channels);
    }
  }

  /** Whoever subscribes to a channel that was first registered as private was allowed to by its AuthFunc, after
      that registration and a lookup of the channel. */
  lemma PrivateWasAllowed(buffer: nat, steps: seq<Step>, name: string, k: nat, c: Client)
    requires IsRun(Initial(buffer), steps) && IsRegistration(steps, name, k, true)
    ensures var channels := Run(Initial(buffer), steps).shared.channels;
      && name in channels && channels[name].isPrivate
      && (c in channels[name].subscribers ==>
            exists i: nat, j: nat ::
              k < i < j < |steps| && steps[j] == OfClient(c, Authorize(true)) && LookedAt(steps, j, c, name, i))
  {
    AtEnd(buffer, steps);
    ChannelsExactly(buffer, steps, |steps|, name, true);
    SubscribersExactly(buffer, steps, |steps|, c, name);
    hide At, Run, LookedAt;
    assert RegisteredBy(steps, |steps|, name, true);
    if Subscribes(steps, |steps|, c, name) {
      var i: nat, j: nat, m: nat :| SubscribedAt(steps, |steps|, c, name, i, j, m);
      LookedAfter(steps, j, c, name, i, k);
      NotPublic(steps, j, name, k);
    }
  }

  lemma LookedAfter(steps: seq<Step>, e: nat, c: Client, name: string, i: nat, k: nat)
    requires LookedAt(steps, e, c, name, i) && IsRegistration(steps, name, k, true)
    ensures k < i
  {
    hide TrimSpace, OpenUntil, Quiet;
    var p: bool :| RegisteredBy(steps, i, name, p);
    RegistrationIsOne(steps, i, name, p);
  }

  lemma NotPublic(steps: seq<Step>, e: nat, name: string, k: nat)
    requires IsRegistration(steps, name, k, true)
    ensures !RegisteredBy(steps, e, name, false)
  {
    if RegisteredBy(steps, e, name, false) {
      var j: nat :| j < e && IsRegistration(steps, name, j, false);
      OneRegistration(steps, name, j, false, k, true);
    }
  }

  lemma OneRegistration(steps: seq<Step>, name: string, j: nat, p: bool, k: nat, q: bool)
    requires IsRegistration(steps, name, j, p) && IsRegistration(steps, name, k, q)
    ensures j == k && p == q
  {
    hide Registers, OpenUntil;
  }

  /** A channel that was first registered as public stays so, and lets in whoever looks it up. */
  lemma PublicLetsIn(buffer: nat, steps: seq<Step>, name: string, k: nat, c: Client, i: nat, j: nat, m: nat)
    requires IsRun(Initial(buffer), steps) && IsRegistration(steps, name, k, false) && k < i
    requires LookedAt(steps, j, c, name, i) && j < m < |steps| && Quiet(steps, j, m, c) && OpenUntil(steps, m)
    requires IsOp(steps[j], c) && steps[j].op.Authorize? && steps[m] == OfClient(c, Commit)
    requires forall n :: m < n < |steps| ==> !Leaves(steps[n], c, name)
    ensures IsSubscriber(Run(Initial(buffer), steps), c, name)
  {
    AtEnd(buffer, steps);
    SubscribersExactly(buffer, steps, |steps|, c, name);
    hide At, Run, LookedAt, Quiet, OpenUntil, Leaves, IsRegistration;
    assert RegisteredBy(steps, j, name, false);
    assert AllowedAt(steps, m, c, name, i, j);
    assert SubscribedAt(steps, |steps|, c, name, i, j, m);
  }

  // ----- what is published to whom -------------------------------------------------------------------------------

  /** The event, if the step publishes one on a channel that this client subscribes to. */
  ghost function Meant(steps: seq<Step>, e: nat, c: Client): seq<Message>
    requires e < |steps|
  {
    var step := steps[e];
    if step.Snapshot? && TrimSpace(step.event) != "" && Subscribes(steps, e, c, step.channel)
    then [Event(step.channel, step.payload)] else []
  }

  ghost function AllMeant(steps: seq<Step>, e: nat, c: Client): seq<Message>
    requires e <= |steps|
  {
    if e == 0 then [] else AllMeant(steps, e - 1, c) + Meant(steps, e - 1, c)
  }

  lemma StepIncludes(s: State, step: Step, c: Client)
    requires Enabled(s, step) && c in s.conns
    ensures c in After(s, step).conns
    ensures After(s, step).conns[c].included == s.conns[c].included +
      if step.Snapshot? && TrimSpace(step.event) != "" && IsSubscriber(s, c, step.channel)
      then [Event(step.channel, step.payload)] else []
  {
    hide TrimSpace, OpShared, ActPublishing, Room;
  }

  lemma NewIncludesNothing(s: State, step: Step, c: Client)
    requires Enabled(s, step) && c !in s.conns && c in After(s, step).conns
    ensures After(s, step).conns[c].included == []
  {
    hide TrimSpace, OpShared, ActPublishing, Room, OpConn;
  }

  lemma SubscriberIsConnected(s: State, c: Client, name: string)
    requires HubSafety.Safe(s) && IsSubscriber(s, c, name)
    ensures c in s.conns
  {
    assert HubSafety.ChannelSafe(name, s.shared.channels[name], s.conns);
  }

  /** What Publish means for a client is every event on a channel it subscribes to at that moment, in the order
      of the snapshots. */
  lemma {:induction false} IncludedExactly(buffer: nat, steps: seq<Step>, e: nat, c: Client)
    requires IsRun(Initial(buffer), steps) && e <= |steps|
    ensures c in At(buffer, steps, e).conns ==> At(buffer, steps, e).conns[c].included == AllMeant(steps, e, c)
    ensures c !in At(buffer, steps, e).conns ==> AllMeant(steps, e, c) == []
  {
    hide After, Enabled, At, HubSafety.Safe, Subscribes, TrimSpace;
    AtStart(buffer, steps);
    if e > 0 {
      var s, step := At(buffer, steps, e - 1), steps[e - 1];
      IncludedExactly(buffer, steps, e - 1, c);
      AtNext(buffer, steps, e - 1);
      AtSafe(buffer, steps, e - 1);
      if step.Snapshot? {
        SubscribersExactly(buffer, steps, e - 1, c, step.channel);
        if IsSubscriber(s, c, step.channel) {
          SubscriberIsConnected(s, c, step.channel);
        }
      }
      if c in s.conns {
        StepIncludes(s, step, c);
      } else if c in After(s, step).conns {
        NewIncludesNothing(s, step, c);
      }
    }
  }
}
