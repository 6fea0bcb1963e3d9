/** internal/cli/devproxy.go: the front door of gin-kit dev, which holds requests during a rebuild. */
module DevProxy {
  import opened Text

  type Url = string

  datatype DevState = Building | Ready | Failed

  /** The proxy's fields. Channels are numbered as they are made; `changed` is the current one. */
  datatype Front = Front(state: DevState, target: Option<Url>, proxy: Option<Url>, output: string,
                         changed: nat, made: nat, closed: set<nat>)

  function NewFront(): Front {
    Front(Building, None, None, "", 0, 1, {})
  }

  /** setState. */
  function WithState(f: Front, state: DevState, target: Option<Url>, output: string): Front {
    var replace := target.Some? && f.target != target;
    Front(state, if replace then target else f.target, if replace then target else f.proxy, output,
          f.made, f.made + 1, f.closed + {f.changed})
  }

  class Proxy {
    var state: DevState
    var target: Option<Url>
    var proxy: Option<Url>
    var failOutput: string
    var changed: nat
    var made: nat
    var closed: set<nat>
    const holdTimeout: int

    ghost function View(): Front
      reads this
    {
      Front(state, target, proxy, failOutput, changed, made, closed)
    }

    /** The current channel is open, every earlier one is closed: close never meets a closed channel. */
    ghost predicate Valid()
      reads this
    {
      FrontSafe(View())
    }

    constructor (holdTimeout: int)
      ensures Valid() && View() == NewFront() && this.holdTimeout == holdTimeout
    {
      state, target, proxy, failOutput := Building, None, None, "";
      changed, made, closed := 0, 1, {};
      this.holdTimeout := holdTimeout;
    }

    method MakeChannel() returns (channel: nat)
      modifies this`made
      ensures channel == old(made) && made == old(made) + 1
    {
      channel := made;
      made := made + 1;
    }

    method CloseChannel(channel: nat)
      requires channel !in closed
      modifies this`closed
      ensures closed == old(closed) + {channel}
    {
      closed := closed + {channel};
    }

    method SetState(newState: DevState, newTarget: Option<Url>, output: string)
      requires Valid()
      modifies this
      ensures Valid() && View() == WithState(old(View()), newState, newTarget, output)
    {
      state := newState;
      if newTarget.Some? && (target.None? || target.value != newTarget.value) {
        target := newTarget;
        proxy := Some(newTarget.value);
      }
      failOutput := output;
      CloseChannel(changed);
      changed := MakeChannel();
    }

    method SetBuilding()
      requires Valid()
      modifies this
      ensures Valid() && View() == WithState(old(View()), Building, None, "")
    {
      SetState(Building, None, "");
    }

    method SetReady(newTarget: Option<Url>)
      requires Valid()
      modifies this
      ensures Valid() && View() == WithState(old(View()), Ready, newTarget, "")
    {
      SetState(Ready, newTarget, "");
    }

    method SetFailed(output: string)
      requires Valid()
      modifies this
      ensures Valid() && View() == WithState(old(View()), Failed, None, output)
    {
      SetState(Failed, None, output);
    }
  }

  // ----- requests ---------------------------------------------------------------------------------------

  datatype Answer = Proxied(target: Url) | NoUpstream | Failure(output: string) | HoldTimeout | Gone

  /** Where ServeHTTP is: before the locked read, after it, in the select, or done. `arrived` is when the
      request came. */
  datatype Request =
    | Reading(arrived: int, deadline: int)
    | Read(arrived: int, deadline: int, state: DevState, proxy: Option<Url>, output: string, channel: nat)
    | Waiting(arrived: int, deadline: int, channel: nat, fires: int)
    | Answered(answer: Answer)

  datatype State = State(front: Front, clock: int, hold: int, requests: map<nat, Request>)

  datatype Step =
    | SetState(state: DevState, target: Option<Url>, output: string)
    | Arrive(id: nat)
    | ReadFront(id: nat)
    | Decide(id: nat)
    | Wake(id: nat)
    | Fire(id: nat)
    | Cancel(id: nat)
    | Tick

  function Initial(clock: int, hold: int): State {
    State(NewFront(), clock, hold, map[])
  }

  /** What ServeHTTP does with what it read, at time `clock`. */
  function Decided(r: Request, clock: int): Request
    requires r.Read?
  {
    match r.state
    case Ready => Answered(if r.proxy.None? then NoUpstream else Proxied(r.proxy.value))
    case Failed => Answered(Failure(r.output))
    case Building =>
      var wait := r.deadline - clock;
      if wait <= 0 then Answered(HoldTimeout) else Waiting(r.arrived, r.deadline, r.channel, clock + wait)
  }

  /** Timers fire on time: the clock does not pass one that has not fired. */
  predicate MayTick(s: State) {
    forall id :: id in s.requests && s.requests[id].Waiting? ==> s.clock < s.requests[id].fires
  }

  predicate Enabled(s: State, step: Step) {
    match step
    case SetState(_, _, _) => true
    case Arrive(id) => id !in s.requests
    case ReadFront(id) => id in s.requests && s.requests[id].Reading?
    case Decide(id) => id in s.requests && s.requests[id].Read?
    case Wake(id) => id in s.requests && s.requests[id].Waiting? && s.requests[id].channel in s.front.closed
    case Fire(id) => id in s.requests && s.requests[id].Waiting? && s.clock >= s.requests[id].fires
    case Cancel(id) => id in s.requests && s.requests[id].Waiting?
    case Tick => MayTick(s)
  }

  function After(s: State, step: Step): State
    requires Enabled(s, step)
  {
    match step
    case SetState(state, target, output) => s.(front := WithState(s.front, state, target, output))
    case Arrive(id) => s.(requests := s.requests[id := Reading(s.clock, s.clock + s.hold)])
    case ReadFront(id) =>
      var r, f := s.requests[id], s.front;
      s.(requests := s.requests[id := Read(r.arrived, r.deadline, f.state, f.proxy, f.output, f.changed)])
    case Decide(id) => s.(requests := s.requests[id := Decided(s.requests[id], s.clock)])
    case Wake(id) => s.(requests := s.requests[id := Reading(s.requests[id].arrived, s.requests[id].deadline)])
    case Fire(id) => s.(requests := s.requests[id := Answered(HoldTimeout)])
    case Cancel(id) => s.(requests := s.requests[id := Answered(Gone)])
    case Tick => s.(clock := s.clock + 1)
  }

  predicate IsRun(s: State, steps: seq<Step>)
    decreases |steps|, 0
  {
    steps == [] ||
    (IsRun(s, steps[..|steps| - 1]) && Enabled(Run(s, steps[..|steps| - 1]), steps[|steps| - 1]))
  }

  function Run(s: State, steps: seq<Step>): State
    requires IsRun(s, steps)
    decreases |steps|, 1
  {
    if steps == [] then s else After(Run(s, steps[..|steps| - 1]), steps[|steps| - 1])
  }

  // ----- what every run keeps ------------------------------------------------------------------------------

  ghost predicate FrontSafe(f: Front) {
    && f.made == f.changed + 1
    && forall c :: c in f.closed <==> 0 <= c < f.changed
  }

  /** What a request read is current if its channel is, and otherwise that channel is closed. */
  predicate RequestSafe(r: Request, f: Front, clock: int, hold: int) {
    match r
    case Reading(arrived, deadline) => arrived <= clock && deadline == arrived + hold
    case Read(arrived, deadline, state, proxy, output, channel) =>
      && arrived <= clock && deadline == arrived + hold
      && channel <= f.changed
      && (channel == f.changed ==> state == f.state && proxy == f.proxy && output == f.output)
    case Waiting(arrived, deadline, channel, fires) =>
      && arrived <= clock && deadline == arrived + hold
      && channel <= f.changed
      && (channel == f.changed ==> f.state.Building?)
      && clock <= fires == deadline
    case Answered(_) => true
  }

  ghost predicate Safe(s: State) {
    && FrontSafe(s.front)
    && forall id :: id in s.requests ==> RequestSafe(s.requests[id], s.front, s.clock, s.hold)
  }

  lemma StepKeeps(s: State, step: Step)
    requires Safe(s) && Enabled(s, step)
    ensures Safe(After(s, step)) && After(s, step).hold == s.hold
  {}

  lemma {:induction false} RunKeeps(s: State, steps: seq<Step>)
    requires Safe(s) && IsRun(s, steps)
    ensures Safe(Run(s, steps)) && Run(s, steps).hold == s.hold
  {
    hide Safe, Enabled, After;
    if steps != [] {
      RunKeeps(s, steps[..|steps| - 1]);
      StepKeeps(Run(s, steps[..|steps| - 1]), steps[|steps| - 1]);
    }
  }

  lemma InitialSafe(clock: int, hold: int)
    ensures Safe(Initial(clock, hold))
  {}

  // ----- the guarantees ----------------------------------------------------------------------------------------

  /** No held request misses a wake-up: a waiter whose channel is current saw the current state, which is
      building; the channel of any other waiter is closed, so it can wake. */
  lemma NoLostWakeup(clock: int, hold: int, steps: seq<Step>, id: nat)
    requires IsRun(Initial(clock, hold), steps)
    ensures var s := Run(Initial(clock, hold), steps);
      id in s.requests && s.requests[id].Waiting? ==>
        && (s.requests[id].channel == s.front.changed ==> s.front.state.Building?)
        && (s.requests[id].channel != s.front.changed ==> Enabled(s, Wake(id)))
  {
    hide Run, IsRun, Initial;
    InitialSafe(clock, hold);
    RunKeeps(Initial(clock, hold), steps);
  }

  /** A request that is held is within `hold` of its arrival, however often the state flips; and a request
      that meets its deadline is not held again. */
  lemma NeverHeldPastDeadline(clock: int, hold: int, steps: seq<Step>, id: nat)
    requires IsRun(Initial(clock, hold), steps)
    ensures var s := Run(Initial(clock, hold), steps);
      && (id in s.requests && s.requests[id].Waiting? ==>
            s.clock <= s.requests[id].deadline == s.requests[id].arrived + hold)
      && (id in s.requests && s.requests[id].Read? && s.clock >= s.requests[id].arrived + hold ==>
            Decided(s.requests[id], s.clock).Answered?)
  {
    hide Run, IsRun;
    InitialSafe(clock, hold);
    RunKeeps(Initial(clock, hold), steps);
  }

  /** A step leaves a request's arrival and deadline as they are. */
  lemma DeadlineIsFixed(s: State, step: Step, id: nat)
    requires Enabled(s, step) && id in s.requests && !s.requests[id].Answered?
    ensures var r := After(s, step).requests[id];
      id in After(s, step).requests &&
      (r.Answered? || (r.arrived == s.requests[id].arrived && r.deadline == s.requests[id].deadline))
  {}

  /** The last target that was not nil. */
  function LastTarget(steps: seq<Step>): Option<Url> {
    if steps == [] then None
    else
      var step := steps[|steps| - 1];
      if step.SetState? && step.target.Some? then step.target else LastTarget(steps[..|steps| - 1])
  }

  lemma {:induction false} ProxyIsForLastTarget(clock: int, hold: int, steps: seq<Step>)
    requires IsRun(Initial(clock, hold), steps)
    ensures var f := Run(Initial(clock, hold), steps).front;
      f.target == LastTarget(steps) && f.proxy == LastTarget(steps)
  {
    if steps != [] {
      var before := steps[..|steps| - 1];
      ProxyIsForLastTarget(clock, hold, before);
      FrontAfter(Run(Initial(clock, hold), before), steps[|steps| - 1]);
      hide Enabled, After, Initial;
    }
  }

  lemma FrontAfter(s: State, step: Step)
    requires Enabled(s, step)
    ensures After(s, step).front ==
      if step.SetState? then WithState(s.front, step.state, step.target, step.output) else s.front
  {}

  /** What was set last: the state, and the output that goes with it. */
  function LastState(steps: seq<Step>): DevState {
    if steps == [] then Building
    else if steps[|steps| - 1].SetState? then steps[|steps| - 1].state
    else LastState(steps[..|steps| - 1])
  }

  function LastOutput(steps: seq<Step>): string {
    if steps == [] then ""
    else if steps[|steps| - 1].SetState? then steps[|steps| - 1].output
    else LastOutput(steps[..|steps| - 1])
  }

  lemma {:induction false} StateIsLast(clock: int, hold: int, steps: seq<Step>)
    requires IsRun(Initial(clock, hold), steps)
    ensures var f := Run(Initial(clock, hold), steps).front;
      f.state == LastState(steps) && f.output == LastOutput(steps)
  {
    if steps != [] {
      var before := steps[..|steps| - 1];
      StateIsLast(clock, hold, before);
      FrontAfter(Run(Initial(clock, hold), before), steps[|steps| - 1]);
      hide Enabled, After, Initial;
    }
  }

  /** What a request is answered at once, or where it waits until when. */
  predicate IsServed(r: Request, steps: seq<Step>, clock: int, arrived: int, hold: int, channel: nat) {
    match LastState(steps)
    case Ready => r == Answered(if LastTarget(steps).Some? then Proxied(LastTarget(steps).value) else NoUpstream)
    case Failed => r == Answered(Failure(LastOutput(steps)))
    case Building =>
      if clock >= arrived + hold then r == Answered(HoldTimeout)
      else r == Waiting(arrived, arrived + hold, channel, arrived + hold)
  }

  /** A held request times out exactly when its time is over; one that its client gives up is not answered. */
  lemma HeldUntilDeadline(clock: int, hold: int, steps: seq<Step>, id: nat)
    requires IsRun(Initial(clock, hold), steps)
    requires var s := Run(Initial(clock, hold), steps); id in s.requests && s.requests[id].Waiting?
    ensures var s := Run(Initial(clock, hold), steps);
      && (Enabled(s, Fire(id)) <==> s.clock >= s.requests[id].arrived + hold)
      && (Enabled(s, Fire(id)) ==> After(s, Fire(id)).requests[id] == Answered(HoldTimeout))
      && Enabled(s, Cancel(id)) && After(s, Cancel(id)).requests[id] == Answered(Gone)
  {
    hide Run, IsRun;
    InitialSafe(clock, hold);
    RunKeeps(Initial(clock, hold), steps);
  }

  /** In every run, a request that reads the front door is proxied to the last target after a ready state, gets
      the output of the build after a failed one, and during a build is held for what is left of its time. */
  lemma ServedExactly(clock: int, hold: int, steps: seq<Step>, id: nat)
    requires IsRun(Initial(clock, hold), steps)
    requires var s := Run(Initial(clock, hold), steps); id in s.requests && s.requests[id].Reading?
    ensures var s := Run(Initial(clock, hold), steps);
      && Enabled(s, ReadFront(id))
      && var read := After(s, ReadFront(id));
         Enabled(read, Decide(id)) &&
         IsServed(After(read, Decide(id)).requests[id], steps, s.clock, s.requests[id].arrived, hold, s.front.changed)
  {
    hide Run, IsRun, LastTarget, LastState, LastOutput;
    InitialSafe(clock, hold);
    RunKeeps(Initial(clock, hold), steps);
    ProxyIsForLastTarget(clock, hold, steps);
    StateIsLast(clock, hold, steps);
  }

  /** In a ready state a request is proxied, to the current target, exactly if some target that was not
      nil was ever set. Otherwise it is told that there is no upstream. */
  lemma ReadyProxiesExactlyWithTarget(clock: int, hold: int, steps: seq<Step>, id: nat)
    requires IsRun(Initial(clock, hold), steps)
    requires var s := Run(Initial(clock, hold), steps);
      LastState(steps) == Ready && id in s.requests && s.requests[id].Reading?
    ensures var s := Run(Initial(clock, hold), steps);
      && Enabled(s, ReadFront(id))
      && var answer := Decided(After(s, ReadFront(id)).requests[id], s.clock);
         answer == Answered(if LastTarget(steps).Some? then Proxied(LastTarget(steps).value) else NoUpstream)
  {
    hide Run, IsRun, Initial, LastTarget, LastState;
    ProxyIsForLastTarget(clock, hold, steps);
    StateIsLast(clock, hold, steps);
  }

  /** A request held during a rebuild can go on as soon as the build is over, and is then answered as the
      new state wants. */
  lemma HeldRequestGoesOn(clock: int, hold: int, steps: seq<Step>, id: nat)
    requires IsRun(Initial(clock, hold), steps)
    requires var s := Run(Initial(clock, hold), steps);
      id in s.requests && s.requests[id].Waiting? && LastState(steps) != Building
    ensures var s := Run(Initial(clock, hold), steps);
      && Enabled(s, Wake(id))
      && var woken := After(s, Wake(id));
         Enabled(woken, ReadFront(id)) &&
         var read := After(woken, ReadFront(id));
         Enabled(read, Decide(id)) &&
         After(read, Decide(id)).requests[id] == Answered(
           if LastState(steps) == Failed then Failure(LastOutput(steps))
           else if LastTarget(steps).Some? then Proxied(LastTarget(steps).value) else NoUpstream)
  {
    hide Run, IsRun, Initial, LastTarget, LastState, LastOutput;
    NoLostWakeup(clock, hold, steps, id);
    ProxyIsForLastTarget(clock, hold, steps);
    StateIsLast(clock, hold, steps);
  }

  /** So a first SetReady(nil) leaves a ready proxy without upstream. */
  lemma ReadyWithoutTarget(clock: int, hold: int)
    ensures var steps := [SetState(Ready, None, ""), Arrive(0)];
      && IsRun(Initial(clock, hold), steps)
      && Run(Initial(clock, hold), steps).front.state.Ready?
      && LastTarget(steps) == None
  {
    var s, steps := Initial(clock, hold), [SetState(Ready, None, ""), Arrive(0)];
    assert steps[..1] == [SetState(Ready, None, "")] && steps[..1][..0] == [];
    assert IsRun(s, steps[..1][..0]);
    assert IsRun(s, steps[..1]);
  }
}
