/** Optimistic concurrency against one API-server object: every caller reads the object,
    computes a draft from what it read, and writes the draft under the version it saw.
    Any number of callers and of foreign clients interleave at the level of single requests. */
module Optimistic {
  import opened Wrappers

  /** What one read-modify-write cycle decides after its read. */
  datatype Outcome<+V> =
    | Reject        // the call fails without writing
    | Keep          // the call succeeds without writing
    | Put(value: V) // the call goes on to write `value`

  /** `apply(request, environment, object)` is one cycle; `attempts` bounds the retries on conflict. */
  datatype Protocol<!R, !E, !V> = Protocol(apply: (R, E, Option<V>) -> Outcome<V>, attempts: nat)

  datatype Phase<E, V> =
    | Ready
    | Holding(seen: Option<nat>, env: E, draft: V)  // read at version `seen`, or seen absent
    | Finished(ok: bool)

  datatype Call<R, E, V> = Call(req: R, phase: Phase<E, V>, conflicts: nat)

  datatype Event<R, E, V> =
    | Done(id: nat, req: R, env: E)
    | Foreign(item: Option<V>)

  /** The object with its version, the calls in progress, and the history of effects. */
  datatype State<R, E, V> = State(
    item: Option<V>, version: nat, calls: map<nat, Call<R, E, V>>, log: seq<Event<R, E, V>>)

  datatype Action<R, E, V> =
    | Begin(id: nat, req: R)
    | Fetch(id: nat, env: E)         // Get, then compute
    | Commit(id: nat)                // Create or Update
    | Fail(id: nat)                  // any other API error
    | Other(item: Option<V>)       // another client writes or deletes the object

  function Step<R, E, V>(p: Protocol<R, E, V>, s: State<R, E, V>, a: Action<R, E, V>): State<R, E, V> {
    match a
    case Begin(id, req) =>
      if id in s.calls then s
      else s.(calls := s.calls[id := Call(req, if p.attempts == 0 then Finished(false) else Ready, 0)])
    case Fetch(id, env) =>
      if id !in s.calls || s.calls[id].phase != Ready then s
      else
        var c := s.calls[id];
        (match p.apply(c.req, env, s.item)
         case Reject => s.(calls := s.calls[id := c.(phase := Finished(false))])
         case Keep => s.(calls := s.calls[id := c.(phase := Finished(true))], log := s.log + [Done(id, c.req, env)])
         case Put(draft) =>
           var seen := if s.item.None? then None else Some(s.version);
           s.(calls := s.calls[id := c.(phase := Holding(seen, env, draft))]))
    case Commit(id) =>
      if id !in s.calls || !s.calls[id].phase.Holding? then s
      else
        var c := s.calls[id];
        var current := if s.item.None? then None else Some(s.version);
        if c.phase.seen == current then
          State(Some(c.phase.draft), s.version + 1, s.calls[id := c.(phase := Finished(true))],
                s.log + [Done(id, c.req, c.phase.env)])
        else if c.phase.seen.Some? && s.item.Some? then  // Conflict: the caller starts over
          var again := if c.conflicts + 1 < p.attempts then Ready else Finished(false);
          s.(calls := s.calls[id := c.(phase := again, conflicts := c.conflicts + 1)])
        else                                             // NotFound or AlreadyExists
          s.(calls := s.calls[id := c.(phase := Finished(false))])
    case Fail(id) =>
      if id !in s.calls || s.calls[id].phase.Finished? then s
      else s.(calls := s.calls[id := s.calls[id].(phase := Finished(false))])
    case Other(item) =>
      State(item, s.version + 1, s.calls, s.log + [Foreign(item)])
  }

  function Run<R, E, V>(p: Protocol<R, E, V>, s: State<R, E, V>, acts: seq<Action<R, E, V>>): State<R, E, V> {
    if acts == [] then s else Step(p, Run(p, s, acts[..|acts| - 1]), acts[|acts| - 1])
  }

  function Initial<R, E, V>(item: Option<V>): State<R, E, V> {
    State(item, 0, map[], [])
  }

  // ----- the sequential meaning of a history -----

  function Effect<R, E, V>(p: Protocol<R, E, V>, item: Option<V>, e: Event<R, E, V>): Option<V> {
    match e
    case Done(_, req, env) =>
      var out := p.apply(req, env, item);
      if out.Put? then Some(out.value) else item
    case Foreign(o) => o
  }

  /** The object after performing the events one after another, with nothing in between. */
  function Replay<R, E, V>(p: Protocol<R, E, V>, item: Option<V>, log: seq<Event<R, E, V>>): Option<V> {
    if log == [] then item
    else Effect(p, Replay(p, item, log[..|log| - 1]), log[|log| - 1])
  }

  function CountOf<R, E, V>(log: seq<Event<R, E, V>>, id: nat): nat {
    if log == [] then 0
    else CountOf(log[..|log| - 1], id) + (var e := log[|log| - 1]; if e.Done? && e.id == id then 1 else 0)
  }

  /** An event is the effect of its own request on the very object it replaced. */
  ghost predicate Accepted<R, E, V>(p: Protocol<R, E, V>, init: Option<V>, log: seq<Event<R, E, V>>, i: nat)
    requires i < |log|
  {
    log[i].Done? ==> !p.apply(log[i].req, log[i].env, Replay(p, init, log[..i])).Reject?
  }

  ghost predicate CallOk<R, E, V>(p: Protocol<R, E, V>, s: State<R, E, V>, id: nat)
    requires id in s.calls
  {
    var c := s.calls[id];
    && c.conflicts <= p.attempts
    && (!c.phase.Finished? ==> c.conflicts < p.attempts)
    && CountOf(s.log, id) == (if c.phase == Finished(true) then 1 else 0)
    && (c.phase.Holding? && c.phase.seen.None? ==>
          p.apply(c.req, c.phase.env, None) == Put(c.phase.draft))
    && (c.phase.Holding? && c.phase.seen.Some? ==>
          c.phase.seen.value <= s.version &&
          (c.phase.seen.value == s.version && s.item.Some? ==>
             p.apply(c.req, c.phase.env, s.item) == Put(c.phase.draft)))
  }

  ghost predicate Inv<R, E, V>(p: Protocol<R, E, V>, init: Option<V>, s: State<R, E, V>) {
    && s.item == Replay(p, init, s.log)
    && (forall i :: 0 <= i < |s.log| ==> Accepted(p, init, s.log, i))
    && (forall id <- s.calls :: CallOk(p, s, id))
    && (forall i :: 0 <= i < |s.log| && s.log[i].Done? ==>
        s.log[i].id in s.calls && s.calls[s.log[i].id].req == s.log[i].req)
  }

  lemma ReplaySnoc<R, E, V>(p: Protocol<R, E, V>, init: Option<V>, log: seq<Event<R, E, V>>, e: Event<R, E, V>)
    ensures Replay(p, init, log + [e]) == Effect(p, Replay(p, init, log), e)
    ensures forall id :: CountOf(log + [e], id) == CountOf(log, id) + (if e.Done? && e.id == id then 1 else 0)
    ensures forall i :: 0 <= i < |log| ==> (log + [e])[..i] == log[..i]
    ensures (log + [e])[..|log|] == log
  {
  }

  lemma {:induction false} AbsentUncounted<R, E, V>(log: seq<Event<R, E, V>>, id: nat)
    requires forall i :: 0 <= i < |log| && log[i].Done? ==> log[i].id != id
    ensures CountOf(log, id) == 0
  {
    if log != [] {
      AbsentUncounted(log[..|log| - 1], id);
    }
  }

  /** The history still explains the object: the commit of a held draft is one whole cycle. */
  lemma StepKeepsHistory<R, E, V>(p: Protocol<R, E, V>, init: Option<V>, s: State<R, E, V>, a: Action<R, E, V>)
    requires Inv(p, init, s)
    ensures var t := Step(p, s, a);
            && t.item == Replay(p, init, t.log)
            && (forall i :: 0 <= i < |t.log| ==> Accepted(p, init, t.log, i))
  {
    hide CountOf;
    var t := Step(p, s, a);
    if |t.log| > |s.log| {
      ReplaySnoc(p, init, s.log, t.log[|s.log|]);
      if a.Commit? { assert CallOk(p, s, a.id); }
      forall i | 0 <= i < |t.log| ensures Accepted(p, init, t.log, i) {
        if i < |s.log| { assert Accepted(p, init, s.log, i); }
      }
    }
  }

  lemma CountSnoc<R, E, V>(log: seq<Event<R, E, V>>, e: Event<R, E, V>, id: nat)
    ensures CountOf(log + [e], id) == CountOf(log, id) + (if e.Done? && e.id == id then 1 else 0)
  {
    assert (log + [e])[..|log|] == log;
  }

  lemma ActingCallKept<R, E, V>(p: Protocol<R, E, V>, init: Option<V>, s: State<R, E, V>, a: Action<R, E, V>)
    requires Inv(p, init, s) && !a.Other? && a.id in Step(p, s, a).calls
    ensures CallOk(p, Step(p, s, a), a.id)
  {
    hide Replay, Accepted, CountOf;
    var t := Step(p, s, a);
    if a.id in s.calls { assert CallOk(p, s, a.id); } else { AbsentUncounted(s.log, a.id); }
    if |t.log| > |s.log| { CountSnoc(s.log, t.log[|s.log|], a.id); }
  }

  lemma OtherCallKept<R, E, V>(p: Protocol<R, E, V>, s: State<R, E, V>, a: Action<R, E, V>, id: nat)
    requires id in s.calls && CallOk(p, s, id) && (a.Other? || a.id != id)
    ensures id in Step(p, s, a).calls && CallOk(p, Step(p, s, a), id)
  {
    hide CountOf;
    var t := Step(p, s, a);
    if |t.log| > |s.log| { CountSnoc(s.log, t.log[|s.log|], id); }
  }

  lemma StepKeepsCalls<R, E, V>(p: Protocol<R, E, V>, init: Option<V>, s: State<R, E, V>, a: Action<R, E, V>)
    requires Inv(p, init, s)
    ensures var t := Step(p, s, a);
            && (forall id <- t.calls :: CallOk(p, t, id))
            && (forall i :: 0 <= i < |t.log| && t.log[i].Done? ==>
                t.log[i].id in t.calls && t.calls[t.log[i].id].req == t.log[i].req)
  {
    hide Replay, Accepted, CallOk;
    var t := Step(p, s, a);
    forall id | id in t.calls ensures CallOk(p, t, id) {
      if !a.Other? && a.id == id { ActingCallKept(p, init, s, a); } else { OtherCallKept(p, s, a, id); }
    }
  }

  lemma StepKeeps<R, E, V>(p: Protocol<R, E, V>, init: Option<V>, s: State<R, E, V>, a: Action<R, E, V>)
    requires Inv(p, init, s)
    ensures Inv(p, init, Step(p, s, a))
  {
    hide Step, CallOk, Accepted, Replay;
    StepKeepsHistory(p, init, s, a);
    StepKeepsCalls(p, init, s, a);
  }

  lemma {:induction false} RunKeeps<R, E, V>(p: Protocol<R, E, V>, init: Option<V>, acts: seq<Action<R, E, V>>)
    ensures Inv(p, init, Run(p, Initial(init), acts))
  {
    if acts != [] {
      RunKeeps(p, init, acts[..|acts| - 1]);
      StepKeeps(p, init, Run(p, Initial(init), acts[..|acts| - 1]), acts[|acts| - 1]);
    }
  }

  // ----- one caller among other clients -----

  /** One cycle's circumstances: which requests fail, and what other clients write in between. */
  datatype Round<E, V> = Round(env: E, getFails: bool, writes: seq<Option<V>>, commitFails: bool)

  datatype Verdict = Succeeded | Failed | Again

  function LastOf<V>(item: Option<V>, writes: seq<Option<V>>): Option<V> {
    if writes == [] then item else writes[|writes| - 1]
  }

  /** What one cycle leaves of the object, and whether the caller is done. */
  function CycleOutcome<R, E, V>(p: Protocol<R, E, V>, item: Option<V>, req: R, r: Round<E, V>): (Option<V>, Verdict) {
    var last := LastOf(item, r.writes);
    if r.getFails then (last, Failed)
    else
      match p.apply(req, r.env, item)
      case Reject => (last, Failed)
      case Keep => (last, Succeeded)
      case Put(draft) =>
        if r.commitFails then (last, Failed)
        else if r.writes == [] || (item.None? && last.None?) then (Some(draft), Succeeded)
        else if item.Some? && last.Some? then (last, Again)
        else (last, Failed)
  }

  /** Cycle after cycle, as long as the caller is sent back. */
  function SoloOutcome<R, E, V>(p: Protocol<R, E, V>, item: Option<V>, req: R, rounds: seq<Round<E, V>>)
    : (Option<V>, Verdict)
    decreases rounds
  {
    if rounds == [] then (item, Again)
    else
      var o := CycleOutcome(p, item, req, rounds[0]);
      if o.1.Again? then SoloOutcome(p, o.0, req, rounds[1..]) else o
  }

  function Others<R, E, V>(writes: seq<Option<V>>): seq<Action<R, E, V>> {
    seq(|writes|, i requires 0 <= i < |writes| => Other(writes[i]))
  }

  function Cycle<R, E, V>(id: nat, r: Round<E, V>): seq<Action<R, E, V>> {
    [if r.getFails then Fail(id) else Fetch(id, r.env)] + Others(r.writes) +
    [if r.commitFails then Fail(id) else Commit(id)]
  }

  function Schedule<R, E, V>(p: Protocol<R, E, V>, item: Option<V>, req: R, id: nat, rounds: seq<Round<E, V>>)
    : seq<Action<R, E, V>>
    decreases rounds
  {
    if rounds == [] then []
    else
      var o := CycleOutcome(p, item, req, rounds[0]);
      Cycle(id, rounds[0]) + if o.1.Again? then Schedule(p, o.0, req, id, rounds[1..]) else []
  }

  lemma {:induction false} RunConcat<R, E, V>(
      p: Protocol<R, E, V>, s: State<R, E, V>, a: seq<Action<R, E, V>>, b: seq<Action<R, E, V>>)
    ensures Run(p, s, a + b) == Run(p, Run(p, s, a), b)
    decreases b
  {
    hide Step;
    if b == [] {
      assert a + b == a;
    } else {
      RunConcat(p, s, a, b[..|b| - 1]);
      assert (a + b)[..|a + b| - 1] == a + b[..|b| - 1] && (a + b)[|a + b| - 1] == b[|b| - 1];
    }
  }

  lemma RunOne<R, E, V>(p: Protocol<R, E, V>, s: State<R, E, V>, a: Action<R, E, V>)
    ensures Run(p, s, [a]) == Step(p, s, a)
  {
    hide Step;
    assert [a][..0] == [];
  }

  lemma {:induction false} OthersRun<R, E, V>(p: Protocol<R, E, V>, s: State<R, E, V>, writes: seq<Option<V>>)
    ensures var t := Run(p, s, Others(writes));
            t.item == LastOf(s.item, writes) && t.version == s.version + |writes| && t.calls == s.calls
  {
    if writes != [] {
      var n := |writes| - 1;
      OthersRun(p, s, writes[..n]);
      var acts: seq<Action<R, E, V>> := Others(writes);
      assert acts[..n] == Others(writes[..n]) && acts[n] == Other(writes[n]);
    }
  }

  /** In the protocol, the actions of one cycle do what `CycleOutcome` says, and send the caller
      back at most as often as it has attempts. */
  lemma CycleRuns<R, E, V>(p: Protocol<R, E, V>, s: State<R, E, V>, id: nat, r: Round<E, V>)
    requires id in s.calls && s.calls[id].phase == Ready
    ensures var t := Run(p, s, Cycle(id, r));
            var c := s.calls[id];
            var o := CycleOutcome(p, s.item, c.req, r);
            && t.item == o.0 && id in t.calls && t.calls[id].req == c.req
            && t.calls[id].phase ==
               (match o.1
                case Succeeded => Finished(true)
                case Failed => Finished(false)
                case Again => if c.conflicts + 1 < p.attempts then Ready else Finished(false))
            && t.calls[id].conflicts == c.conflicts + if o.1.Again? then 1 else 0
  {
    hide Run;
    var first: Action<R, E, V> := if r.getFails then Fail(id) else Fetch(id, r.env);
    var last: Action<R, E, V> := if r.commitFails then Fail(id) else Commit(id);
    var others: seq<Action<R, E, V>> := Others(r.writes);
    assert Cycle(id, r) == ([first] + others) + [last];
    RunConcat(p, s, [first] + others, [last]);
    RunConcat(p, s, [first], others);
    RunOne(p, s, first);
    var s1 := Step(p, s, first);
    OthersRun(p, s1, r.writes);
    var s2 := Run(p, s1, others);
    RunOne(p, s2, last);
  }

  lemma {:induction false} RoundsRun<R, E, V>(
      p: Protocol<R, E, V>, s: State<R, E, V>, id: nat, rounds: seq<Round<E, V>>)
    requires id in s.calls && s.calls[id].phase == Ready
    requires rounds != [] && s.calls[id].conflicts + |rounds| == p.attempts
    ensures var req := s.calls[id].req;
            var t := Run(p, s, Schedule(p, s.item, req, id, rounds));
            var o := SoloOutcome(p, s.item, req, rounds);
            t.item == o.0 && id in t.calls && t.calls[id].phase == Finished(o.1.Succeeded?)
    decreases |rounds|
  {
    hide Run, Step, CycleOutcome, Cycle;
    var req := s.calls[id].req;
    var o := CycleOutcome(p, s.item, req, rounds[0]);
    var cycle: seq<Action<R, E, V>> := Cycle(id, rounds[0]);
    CycleRuns(p, s, id, rounds[0]);
    var t := Run(p, s, cycle);
    if !o.1.Again? {
      assert Schedule(p, s.item, req, id, rounds) == cycle + [] == cycle;
    } else {
      var rest := Schedule(p, o.0, req, id, rounds[1..]);
      RunConcat(p, s, cycle, rest);
      if |rounds| > 1 {
        RoundsRun(p, t, id, rounds[1..]);
      } else {
        assert rest == [] && cycle + rest == cycle;
      }
    }
  }

  /** A call with its attempts, scheduled among the writes of other clients, ends in the protocol
      as the loop of one caller does: the same object, and success exactly when the loop succeeds. */
  lemma SoloRun<R, E, V>(p: Protocol<R, E, V>, item: Option<V>, id: nat, req: R, rounds: seq<Round<E, V>>)
    requires rounds != [] && |rounds| == p.attempts
    ensures var acts := [Begin(id, req)] + Schedule(p, item, req, id, rounds);
            var t := Run(p, Initial(item), acts);
            var o := SoloOutcome(p, item, req, rounds);
            t.item == o.0 && id in t.calls && t.calls[id].phase == Finished(o.1.Succeeded?)
  {
    hide Run, Schedule, SoloOutcome;
    var begin: Action<R, E, V> := Begin(id, req);
    var s: State<R, E, V> := Initial(item);
    RunOne(p, s, begin);
    RunConcat(p, s, [begin], Schedule(p, item, req, id, rounds));
    RoundsRun(p, Step(p, s, begin), id, rounds);
  }
}
