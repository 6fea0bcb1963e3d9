/** runtime/cache/memory.go: the in-memory cache, which forgets expired entries late. */
module Cache {
  import opened Text
  import opened Numbers

  /** A stored value; None means that it never expires. */
  datatype Entry = Entry(value: string, expiresAt: Option<int>)

  type Entries = map<string, Entry>

  datatype Op =
    | Get(key: string)
    | Set(key: string, value: string, ttl: int)
    | Forget(key: string)
    | Increment(key: string, delta: int64)
    | Sweep

  datatype Answer = Done | Value(value: Option<string>) | Count(n: int64) | NotANumber

  predicate Expired(e: Entry, now: int) {
    e.expiresAt.Some? && now > e.expiresAt.value
  }

  function NewEntry(value: string, ttl: int, now: int): Entry {
    Entry(value, if ttl > 0 then Some(now + ttl) else None)
  }

  /** The number in a value; the empty value counts as zero. */
  function NumberIn(value: string): Option<int64> {
    if value == "" then Some(0) else ParseInt(value)
  }

  // ----- the plain map ------------------------------------------------------------------------------

  /** What an operation does on a map that holds live values only. */
  function Plain(m: Entries, op: Op, now: int): (Entries, Answer) {
    match op
    case Get(key) => (m, Value(if key in m then Some(m[key].value) else None))
    case Set(key, value, ttl) => (m[key := NewEntry(value, ttl, now)], Done)
    case Forget(key) => (m - {key}, Done)
    case Increment(key, delta) =>
      var entry := if key in m then m[key] else Entry("", None);
      var n := NumberIn(entry.value);
      if n.None? then (m, NotANumber)
      else (m[key := entry.(value := FormatInt(Wrap64(n.value + delta)))], Count(Wrap64(n.value + delta)))
    case Sweep => (m, Done)
  }

  /** The live entries at a time. */
  function Live(m: Entries, now: int): Entries {
    map key | key in m && !Expired(m[key], now) :: m[key]
  }

  // ----- the cache -------------------------------------------------------------------------------------

  /** What an operation does on the cache's map, where expired entries may still be. */
  function Cached(m: Entries, op: Op, now: int): (Entries, Answer) {
    match op
    case Get(key) => (m, Value(if key in m && !Expired(m[key], now) then Some(m[key].value) else None))
    case Set(key, value, ttl) => (m[key := NewEntry(value, ttl, now)], Done)
    case Forget(key) => (m - {key}, Done)
    case Increment(key, delta) =>
      var entry := if key in m && !Expired(m[key], now) then m[key] else Entry("", None);
      var n := NumberIn(entry.value);
      if n.None? then (m, NotANumber)
      else (m[key := entry.(value := FormatInt(Wrap64(n.value + delta)))], Count(Wrap64(n.value + delta)))
    case Sweep => (Live(m, now), Done)
  }

  class Memory {
    var entries: Entries

    constructor ()
      ensures entries == map[]
    {
      entries := map[];
    }

    method Get(key: string, now: int) returns (value: string, ok: bool)
      ensures Value(if ok then Some(value) else None) == Cached(entries, Op.Get(key), now).1
      ensures !ok ==> value == ""
    {
      if key !in entries || Expired(entries[key], now) {
        return "", false;
      }
      return entries[key].value, true;
    }

    method Set(key: string, value: string, ttl: int, now: int)
      modifies this
      ensures entries == Cached(old(entries), Op.Set(key, value, ttl), now).0
    {
      var entry := Entry(value, None);
      if ttl > 0 {
        entry := entry.(expiresAt := Some(now + ttl));
      }
      entries := entries[key := entry];
    }

    method Forget(key: string, now: int)
      modifies this
      ensures entries == Cached(old(entries), Op.Forget(key), now).0
    {
      entries := entries - {key};
    }

    method Increment(key: string, delta: int64, now: int) returns (n: int64, err: bool)
      modifies this
      ensures (entries, if err then NotANumber else Count(n)) == Cached(old(entries), Op.Increment(key, delta), now)
    {
      hide FormatInt, ParseInt, Wrap64;
      var entry := if key in entries then entries[key] else Entry("", None);
      if key !in entries || Expired(entry, now) {
        entry := Entry("", None);
      }
      var current: int64 := 0;
      if entry.value != "" {
        var parsed := ParseInt(entry.value);
        if parsed.None? {
          return 0, true;
        }
        current := parsed.value;
      }
      current := Wrap64(current + delta);
      entry := entry.(value := FormatInt(current));
      entries := entries[key := entry];
      return current, false;
    }

    /** One sweep of the janitor. */
    method Sweep(now: int)
      modifies this
      ensures entries == Cached(old(entries), Op.Sweep, now).0
    {
      var rest := entries.Keys;
      while rest != {}
        invariant rest <= entries.Keys <= old(entries).Keys
        invariant forall key :: key in old(entries).Keys ==>
          (key in entries.Keys <==> key in rest || !Expired(old(entries)[key], now))
        invariant forall key :: key in entries.Keys ==> entries[key] == old(entries)[key]
      {
        var key :| key in rest;
        rest := rest - {key};
        if Expired(entries[key], now) {
          entries := entries - {key};
        }
      }
    }
  }

  // ----- the cache is a plain map ---------------------------------------------------------------------

  /** What was live later was live before. */
  lemma LiveLater(m: Entries, now: int, later: int)
    requires now <= later
    ensures Live(Live(m, now), later) == Live(m, later)
  {}

  lemma FreshIsLive(e: Entry, value: string, ttl: int, now: int)
    ensures !Expired(NewEntry(value, ttl, now), now)
    ensures Expired(e.(value := value), now) == Expired(e, now)
  {}

  /** An operation of the cache is one of the plain map on the live entries; a sweep is none. */
  lemma CachedIsPlain(m: Entries, op: Op, now: int)
    ensures Live(Cached(m, op, now).0, now) == Plain(Live(m, now), op, now).0
    ensures Cached(m, op, now).1 == Plain(Live(m, now), op, now).1
  {
    hide FormatInt, NumberIn, Wrap64;
    match op
    case Get(_) =>
    case Set(key, value, ttl) => FreshIsLive(NewEntry("", 0, now), value, ttl, now);
    case Forget(_) =>
    case Increment(key, delta) =>
    case Sweep => LiveLater(m, now, now);
  }

  datatype Timed = Timed(op: Op, now: int)

  predicate InOrder(ops: seq<Timed>) {
    forall i, j :: 0 <= i < j < |ops| ==> ops[i].now <= ops[j].now
  }

  /** The cache after some operations. */
  function CachedAfter(ops: seq<Timed>): Entries {
    if ops == [] then map[]
    else
      var last := ops[|ops| - 1];
      Cached(CachedAfter(ops[..|ops| - 1]), last.op, last.now).0
  }

  /** What the last of some operations answers. */
  function CachedAnswer(ops: seq<Timed>): Answer
    requires ops != []
  {
    var last := ops[|ops| - 1];
    Cached(CachedAfter(ops[..|ops| - 1]), last.op, last.now).1
  }

  /** The same on a plain map, which loses every entry at once when it expires. */
  function PlainAfter(ops: seq<Timed>): Entries {
    if ops == [] then map[]
    else
      var last := ops[|ops| - 1];
      Plain(Live(PlainAfter(ops[..|ops| - 1]), last.now), last.op, last.now).0
  }

  function PlainAnswer(ops: seq<Timed>): Answer
    requires ops != []
  {
    var last := ops[|ops| - 1];
    Plain(Live(PlainAfter(ops[..|ops| - 1]), last.now), last.op, last.now).1
  }

  lemma {:induction false} LiveAfter(ops: seq<Timed>)
    requires InOrder(ops) && ops != []
    ensures Live(CachedAfter(ops), ops[|ops| - 1].now) == PlainAfter(ops)
    ensures CachedAnswer(ops) == PlainAnswer(ops)
  {
    hide Cached, Plain, Live;
    var before, last := ops[..|ops| - 1], ops[|ops| - 1];
    CachedIsPlain(CachedAfter(before), last.op, last.now);
    if before == [] {
      NothingLive(last.now);
    } else {
      LiveAfter(before);
      LiveLater(CachedAfter(before), before[|before| - 1].now, last.now);
    }
  }

  lemma NothingLive(now: int)
    ensures Live(map[], now) == map[]
  {}

  /** Without the sweeps. */
  function NoSweeps(ops: seq<Timed>): seq<Timed> {
    if ops == [] then []
    else
      var before, last := NoSweeps(ops[..|ops| - 1]), ops[|ops| - 1];
      if last.op.Sweep? then before else before + [last]
  }

  lemma {:induction false} NoSweepsHolds(ops: seq<Timed>, t: Timed)
    ensures t in NoSweeps(ops) ==> t in ops
  {
    if ops != [] {
      NoSweepsHolds(ops[..|ops| - 1], t);
    }
  }

  lemma {:induction false} NoSweepsInOrder(ops: seq<Timed>)
    requires InOrder(ops)
    ensures InOrder(NoSweeps(ops))
  {
    if ops != [] {
      var before, last := ops[..|ops| - 1], ops[|ops| - 1];
      NoSweepsInOrder(before);
      forall i | 0 <= i < |NoSweeps(before)|
        ensures NoSweeps(before)[i].now <= last.now
      {
        NoSweepsHolds(before, NoSweeps(before)[i]);
      }
    }
  }

  /** The sweeps do not show in the live entries, from the last operation on. */
  lemma {:induction false} SweepsDoNotShow(ops: seq<Timed>, now: int)
    requires InOrder(ops) && (ops != [] ==> ops[|ops| - 1].now <= now)
    ensures Live(PlainAfter(ops), now) == Live(PlainAfter(NoSweeps(ops)), now)
  {
    hide Live, Plain;
    if ops != [] {
      var before, last := ops[..|ops| - 1], ops[|ops| - 1];
      SweepsDoNotShow(before, last.now);
      if last.op.Sweep? {
        SweepIsNothing(Live(PlainAfter(before), last.now), last.now);
        LiveLater(PlainAfter(before), last.now, now);
        LiveLater(PlainAfter(NoSweeps(before)), last.now, now);
      } else {
        assert (NoSweeps(before) + [last])[..|NoSweeps(before)|] == NoSweeps(before);
      }
    }
  }

  lemma SweepIsNothing(m: Entries, now: int)
    ensures Plain(m, Sweep, now) == (m, Done)
  {}

  /** Under a clock that does not go back, whatever the janitor does: every operation answers what it
      answers on a plain map without any sweep. */
  lemma CacheAnswersLikePlainMap(ops: seq<Timed>)
    requires InOrder(ops) && ops != [] && !ops[|ops| - 1].op.Sweep?
    ensures CachedAnswer(ops) == PlainAnswer(NoSweeps(ops))
  {
    hide Cached, Plain, Live;
    var before, last := ops[..|ops| - 1], ops[|ops| - 1];
    LiveAfter(ops);
    SweepsDoNotShow(before, last.now);
    assert (NoSweeps(before) + [last])[..|NoSweeps(before)|] == NoSweeps(before);
  }

  // ----- what a key answers, by the operations on it ------------------------------------------------------

  predicate Touches(op: Op, key: string) {
    match op
    case Set(k, _, _) => k == key
    case Forget(k) => k == key
    case Increment(k, _) => k == key
    case _ => false
  }

  /** No operation changes the key; sweeps may come at any time. */
  predicate Quiet(ops: seq<Timed>, key: string) {
    forall i :: 0 <= i < |ops| ==> !Touches(ops[i].op, key)
  }

  /** The entry that the key has, unless it is expired. */
  function Found(m: Entries, key: string, now: int): Option<Entry> {
    if key in m && !Expired(m[key], now) then Some(m[key]) else None
  }

  lemma QuietOp(m: Entries, op: Op, key: string, at: int, now: int)
    requires !Touches(op, key) && at <= now
    ensures Found(Cached(m, op, at).0, key, now) == Found(m, key, now)
  {
    hide FormatInt, NumberIn, Wrap64;
  }

  lemma {:induction false} QuietOps(before: seq<Timed>, ops: seq<Timed>, key: string, now: int)
    requires Quiet(ops, key) && forall i :: 0 <= i < |ops| ==> ops[i].now <= now
    ensures Found(CachedAfter(before + ops), key, now) == Found(CachedAfter(before), key, now)
  {
    hide Cached, Found, Touches;
    if ops == [] {
      assert before + [] == before;
    } else {
      var front, last := ops[..|ops| - 1], ops[|ops| - 1];
      QuietOps(before, front, key, now);
      QuietOp(CachedAfter(before + front), last.op, key, last.now, now);
      assert before + ops == (before + front) + [last];
      AfterOne(before + front, last);
    }
  }

  lemma AfterOne(before: seq<Timed>, t: Timed)
    ensures CachedAfter(before + [t]) == Cached(CachedAfter(before), t.op, t.now).0
    ensures CachedAnswer(before + [t]) == Cached(CachedAfter(before), t.op, t.now).1
  {
    hide Cached;
    assert (before + [t])[..|before|] == before;
  }

  lemma GetFinds(m: Entries, key: string, now: int)
    ensures Cached(m, Get(key), now).1 ==
      Value(if Found(m, key, now).Some? then Some(Found(m, key, now).value.value) else None)
  {}

  /** What is read of a key depends on the operations up to the last that touched it. */
  lemma GetAfterQuiet(before: seq<Timed>, ops: seq<Timed>, key: string, now: int)
    requires Quiet(ops, key) && forall i :: 0 <= i < |ops| ==> ops[i].now <= now
    ensures var found := Found(CachedAfter(before), key, now);
      CachedAnswer(before + ops + [Timed(Get(key), now)]) ==
        Value(if found.Some? then Some(found.value.value) else None)
  {
    QuietOps(before, ops, key, now);
    AfterOne(before + ops, Timed(Get(key), now));
    GetFinds(CachedAfter(before + ops), key, now);
    hide Cached, Found;
  }

  /** A value that was set is found until its time to live is over, and for good without one. */
  lemma GetAfterSet(before: seq<Timed>, key: string, value: string, ttl: int, at: int, ops: seq<Timed>, now: int)
    requires Quiet(ops, key) && forall i :: 0 <= i < |ops| ==> ops[i].now <= now
    ensures CachedAnswer(before + [Timed(Set(key, value, ttl), at)] + ops + [Timed(Get(key), now)]) ==
      Value(if ttl <= 0 || now <= at + ttl then Some(value) else None)
  {
    AfterOne(before, Timed(Set(key, value, ttl), at));
    GetAfterQuiet(before + [Timed(Set(key, value, ttl), at)], ops, key, now);
  }

  /** A forgotten key is not found, nor is one that was never touched. */
  lemma GetAfterForget(before: seq<Timed>, key: string, at: int, ops: seq<Timed>, now: int)
    requires Quiet(ops, key) && forall i :: 0 <= i < |ops| ==> ops[i].now <= now
    ensures CachedAnswer(before + [Timed(Forget(key), at)] + ops + [Timed(Get(key), now)]) == Value(None)
    ensures CachedAnswer(ops + [Timed(Get(key), now)]) == Value(None)
  {
    AfterOne(before, Timed(Forget(key), at));
    GetAfterQuiet(before + [Timed(Forget(key), at)], ops, key, now);
    GetAfterQuiet([], ops, key, now);
    assert [] + ops == ops;
  }

  /** A counter goes on from the number that was set, while that is live, and otherwise from zero. */
  lemma IncrementAfterSet(before: seq<Timed>, key: string, n: int64, ttl: int, at: int, ops: seq<Timed>,
                          delta: int64, now: int)
    requires Quiet(ops, key) && forall i :: 0 <= i < |ops| ==> ops[i].now <= now
    ensures CachedAnswer(before + [Timed(Set(key, FormatInt(n), ttl), at)] + ops + [Timed(Increment(key, delta), now)])
      == Count(if ttl <= 0 || now <= at + ttl then Wrap64(n + delta) else delta)
  {
    hide *;
    var set_ := Timed(Set(key, FormatInt(n), ttl), at);
    AfterOne(before, set_);
    QuietOps(before + [set_], ops, key, now);
    AfterOne(before + [set_] + ops, Timed(Increment(key, delta), now));
    IncrementFinds(CachedAfter(before + [set_] + ops), key, delta, now);
    FormatIsNumber(n);
    FoundAfterSet(CachedAfter(before), key, FormatInt(n), ttl, at, now);
    WrapNothing(delta);
  }

  lemma WrapNothing(n: int64)
    ensures Wrap64(0 + n) == n
  {}

  /** A text that is no number is not counted on, and stays. */
  lemma IncrementOfText(before: seq<Timed>, key: string, text: string, ttl: int, at: int, ops: seq<Timed>,
                        delta: int64, now: int)
    requires Quiet(ops, key) && forall i :: 0 <= i < |ops| ==> ops[i].now <= now
    requires text != "" && ParseInt(text) == None && (ttl <= 0 || now <= at + ttl)
    ensures var all := before + [Timed(Set(key, text, ttl), at)] + ops + [Timed(Increment(key, delta), now)];
      && CachedAnswer(all) == NotANumber
      && CachedAnswer(all + [Timed(Get(key), now)]) == Value(Some(text))
  {
    var set_ := Timed(Set(key, text, ttl), at);
    var done := before + [set_] + ops;
    TextIsNoNumber(text);
    hide *;
    AfterOne(before, set_);
    QuietOps(before + [set_], ops, key, now);
    AfterOne(done, Timed(Increment(key, delta), now));
    AfterOne(done + [Timed(Increment(key, delta), now)], Timed(Get(key), now));
    FoundAfterSet(CachedAfter(before), key, text, ttl, at, now);
    IncrementFinds(CachedAfter(done), key, delta, now);
    GetFinds(CachedAfter(done), key, now);
  }

  lemma TextIsNoNumber(text: string)
    requires text != "" && ParseInt(text) == None
    ensures NumberIn(text) == None
  {
    hide ParseInt;
  }

  lemma FoundAfterSet(m: Entries, key: string, value: string, ttl: int, at: int, now: int)
    ensures var found := Found(Cached(m, Set(key, value, ttl), at).0, key, now);
      && (found.Some? <==> ttl <= 0 || now <= at + ttl)
      && (found.Some? ==> found.value.value == value)
  {}

  lemma IncrementFinds(m: Entries, key: string, delta: int64, now: int)
    ensures var found := Found(m, key, now);
      var n := if found.Some? then NumberIn(found.value.value) else Some(0);
      && Cached(m, Increment(key, delta), now).1 == (if n.None? then NotANumber else Count(Wrap64(n.value + delta)))
      && (n.None? ==> Cached(m, Increment(key, delta), now).0 == m)
  {
    hide FormatInt, ParseInt, Wrap64;
  }

  /** And its count is read back, until the value set before it would have expired. */
  lemma GetAfterIncrement(before: seq<Timed>, key: string, delta: int64, at: int, ops: seq<Timed>, now: int)
    requires Quiet(ops, key) && forall i :: 0 <= i < |ops| ==> ops[i].now <= now
    requires CachedAnswer(before + [Timed(Increment(key, delta), at)]).Count?
    ensures var n := CachedAnswer(before + [Timed(Increment(key, delta), at)]).n;
      var found := Found(CachedAfter(before), key, at);
      CachedAnswer(before + [Timed(Increment(key, delta), at)] + ops + [Timed(Get(key), now)]) ==
        Value(if found.None? || found.value.expiresAt.None? || now <= found.value.expiresAt.value
              then Some(FormatInt(n)) else None)
  {
    hide FormatInt, NumberIn, Wrap64;
    AfterOne(before, Timed(Increment(key, delta), at));
    GetAfterQuiet(before + [Timed(Increment(key, delta), at)], ops, key, now);
  }

  // ----- counters ------------------------------------------------------------------------------------------

  lemma WrapAdds(x: int, y: int)
    ensures Wrap64(Wrap64(x) + y) == Wrap64(x + y)
  {}

  lemma FormatIsNumber(n: int64)
    ensures NumberIn(FormatInt(n)) == Some(n)
  {
    ParseFormat(n);
    assert FormatInt(n) != "";
    hide FormatInt, ParseInt;
  }

  /** The entry that an increment starts from. */
  function CounterOf(m: Entries, key: string, now: int): Entry {
    if key in m && !Expired(m[key], now) then m[key] else Entry("", None)
  }

  lemma IncrementIs(m: Entries, key: string, x: int64, now: int)
    ensures var n := NumberIn(CounterOf(m, key, now).value);
      Cached(m, Increment(key, x), now) ==
        if n.None? then (m, NotANumber)
        else (m[key := CounterOf(m, key, now).(value := FormatInt(Wrap64(n.value + x)))], Count(Wrap64(n.value + x)))
  {
    hide FormatInt, NumberIn, Wrap64;
  }

  lemma CounterAfter(m: Entries, key: string, now: int, value: string)
    ensures CounterOf(m[key := CounterOf(m, key, now).(value := value)], key, now) ==
      CounterOf(m, key, now).(value := value)
  {}

  /** Two increments are one: nothing is lost between print and parse, and the expiry stays. An expired
      counter starts again from zero, without expiry. */
  lemma IncrementsAdd(m: Entries, key: string, x: int64, y: int64, now: int)
    requires Cached(m, Increment(key, x), now).1.Count?
    ensures Cached(Cached(m, Increment(key, x), now).0, Increment(key, y), now) ==
      Cached(m, Increment(key, Wrap64(x + y)), now)
    ensures var after := Cached(m, Increment(key, x), now).0;
      key in after && after[key].expiresAt == if key in m && !Expired(m[key], now) then m[key].expiresAt else None
  {
    hide FormatInt, NumberIn, Wrap64, Cached;
    var entry := CounterOf(m, key, now);
    IncrementIs(m, key, x, now);
    IncrementIs(m, key, Wrap64(x + y), now);
    var n := NumberIn(entry.value).value;
    var once := entry.(value := FormatInt(Wrap64(n + x)));
    FormatIsNumber(Wrap64(n + x));
    CounterAfter(m, key, now, once.value);
    IncrementIs(m[key := once], key, y, now);
    TwoSteps(n, x, y);
    Overwritten(m, key, once, entry.(value := FormatInt(Wrap64(Wrap64(n + x) + y))));
  }

  lemma Overwritten(m: Entries, key: string, e: Entry, f: Entry)
    ensures m[key := e][key := f] == m[key := f]
  {}

  lemma TwoSteps(n: int, x: int, y: int)
    ensures Wrap64(Wrap64(n + x) + y) == Wrap64(n + Wrap64(x + y))
  {
    WrapAdds(n + x, y);
    WrapAdds(x + y, n);
    hide Wrap64;
  }
}
