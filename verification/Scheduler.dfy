/** The cron scheduler (`pkg/scheduler/scheduler.go`): an index of workflows kept beside the
    cron table that runs them. */
module Scheduler {
  import opened Wrappers

  datatype Entry = Entry(namespace: string, name: string, schedule: string, cronId: nat)

  /** A live job of the cron table: what it triggers, and when. */
  datatype Job = Job(namespace: string, name: string, schedule: string)

  /** The index, the cron table, and the next identifier the cron library hands out. */
  datatype Table = Table(entries: map<string, Entry>, jobs: map<nat, Job>, nextId: nat)

  const EMPTY := Table(map[], map[], 1)

  datatype Op =
    | Register(namespace: string, name: string, schedule: string)
    | Deregister(namespace: string, name: string)

  function KeyOf(namespace: string, name: string): string {
    namespace + "/" + name
  }

  /** One call; `valid` says which schedules the cron library parses. */
  function Perform(t: Table, op: Op, valid: string -> bool): Table {
    var key := KeyOf(op.namespace, op.name);
    match op
    case Register(ns, name, schedule) =>
      if key in t.entries && t.entries[key].schedule == schedule then t
      else
        var jobs := if key in t.entries then t.jobs - {t.entries[key].cronId} else t.jobs;
        if !valid(schedule) then t.(jobs := jobs)
        else Table(t.entries[key := Entry(ns, name, schedule, t.nextId)],
                   jobs[t.nextId := Job(ns, name, schedule)], t.nextId + 1)
    case Deregister(ns, name) =>
      if key in t.entries then t.(entries := t.entries - {key}, jobs := t.jobs - {t.entries[key].cronId}) else t
  }

  function PerformAll(t: Table, ops: seq<Op>, valid: string -> bool): Table {
    if ops == [] then t else Perform(PerformAll(t, ops[..|ops| - 1], valid), ops[|ops| - 1], valid)
  }

  class Scheduler {
    var entries: map<string, Entry>
    var jobs: map<nat, Job>
    var nextId: nat
    const valid: string -> bool

    ghost function State(): Table
      reads this
    {
      Table(entries, jobs, nextId)
    }

    constructor (valid: string -> bool)
      ensures State() == EMPTY && this.valid == valid
    {
      entries, jobs, nextId := map[], map[], 1;
      this.valid := valid;
    }

    /** The cron library: removes a job if it is there. */
    method RemoveJob(id: nat)
      modifies this`jobs
      ensures jobs == old(jobs) - {id}
    {
      jobs := jobs - {id};
    }

    /** The cron library: adds a job under a new identifier, unless the schedule does not parse. */
    method AddFunc(schedule: string, job: Job) returns (id: Option<nat>)
      modifies this`jobs, this`nextId
      ensures id.Some? <==> valid(schedule)
      ensures id.None? ==> jobs == old(jobs) && nextId == old(nextId)
      ensures id.Some? ==> id.value == old(nextId) && nextId == old(nextId) + 1 && jobs == old(jobs)[id.value := job]
    {
      if !valid(schedule) {
        return None;
      }
      id := Some(nextId);
      jobs := jobs[nextId := job];
      nextId := nextId + 1;
    }

    method RegisterWorkflow(namespace: string, name: string, schedule: string) returns (ok: bool)
      modifies this
      ensures State() == Perform(old(State()), Register(namespace, name, schedule), valid)
      ensures ok <==>
              || valid(schedule)
              || (KeyOf(namespace, name) in old(entries) && old(entries)[KeyOf(namespace, name)].schedule == schedule)
    {
      var key := KeyOf(namespace, name);
      if key in entries {
        if entries[key].schedule == schedule {
          return true;
        }
        RemoveJob(entries[key].cronId);
      }
      var id := AddFunc(schedule, Job(namespace, name, schedule));
      if id.None? {
        return false;
      }
      entries := entries[key := Entry(namespace, name, schedule, id.value)];
      return true;
    }

    method DeregisterWorkflow(namespace: string, name: string)
      modifies this
      ensures State() == Perform(old(State()), Deregister(namespace, name), valid)
    {
      var key := KeyOf(namespace, name);
      if key in entries {
        RemoveJob(entries[key].cronId);
        entries := entries - {key};
      }
    }
  }

  // ----- soundness of the index -----

  /** Every live job belongs to the one entry that describes it. */
  ghost predicate Sound(t: Table) {
    && (forall k <- t.entries ::
          k == KeyOf(t.entries[k].namespace, t.entries[k].name) && t.entries[k].cronId < t.nextId)
    && (forall k, l :: k in t.entries && l in t.entries && t.entries[k].cronId == t.entries[l].cronId ==> k == l)
    && (forall id <- t.jobs :: id < t.nextId && exists k :: Owns(t, k, id))
  }

  predicate Owns(t: Table, k: string, id: nat) {
    && k in t.entries && t.entries[k].cronId == id
    && id in t.jobs && t.jobs[id] == Job(t.entries[k].namespace, t.entries[k].name, t.entries[k].schedule)
  }

  /** The job an entry stands for is live, with the entry's schedule. */
  predicate Live(t: Table, k: string)
    requires k in t.entries
  {
    Owns(t, k, t.entries[k].cronId)
  }

  predicate SameWorkflow(a: Job, b: Job) {
    a.namespace == b.namespace && a.name == b.name
  }

  lemma PerformKeepsSound(t: Table, op: Op, valid: string -> bool)
    requires Sound(t)
    ensures Sound(Perform(t, op, valid))
  {
    hide KeyOf;
    var u := Perform(t, op, valid);
    var key := KeyOf(op.namespace, op.name);
    forall id | id in u.jobs ensures id < u.nextId && exists k :: Owns(u, k, id) {
      if id in t.jobs {
        var k :| Owns(t, k, id);
        assert u == t || k != key;
        assert Owns(u, k, id);
      } else {
        assert Owns(u, key, id);
      }
    }
  }

  /** In every run, each live job is owned by exactly one entry, and no workflow has two jobs. */
  lemma {:induction false} RunsStaySound(ops: seq<Op>, valid: string -> bool)
    ensures var t := PerformAll(EMPTY, ops, valid);
            && Sound(t)
            && (forall id <- t.jobs :: exists k :: Owns(t, k, id) && forall l :: Owns(t, l, id) ==> l == k)
            && (forall i, j :: i in t.jobs && j in t.jobs && SameWorkflow(t.jobs[i], t.jobs[j]) ==> i == j)
  {
    hide KeyOf, Perform;
    if ops != [] {
      RunsStaySound(ops[..|ops| - 1], valid);
      PerformKeepsSound(PerformAll(EMPTY, ops[..|ops| - 1], valid), ops[|ops| - 1], valid);
    }
    var t := PerformAll(EMPTY, ops, valid);
    forall id | id in t.jobs ensures exists k :: Owns(t, k, id) && forall l :: Owns(t, l, id) ==> l == k {
      var k :| Owns(t, k, id);
      assert forall l :: Owns(t, l, id) ==> l == k;
    }
    forall i, j | i in t.jobs && j in t.jobs && SameWorkflow(t.jobs[i], t.jobs[j])
      ensures i == j
    {
      var k :| Owns(t, k, i);
      var l :| Owns(t, l, j);
    }
  }

  // ----- entries whose job is gone -----

  /** A registration that changes the schedule of an indexed workflow to one that does not parse. */
  predicate FailedChange(t: Table, op: Op, valid: string -> bool) {
    op.Register? && KeyOf(op.namespace, op.name) in t.entries &&
    t.entries[KeyOf(op.namespace, op.name)].schedule != op.schedule && !valid(op.schedule)
  }

  /** Exactly which entries are live after a call: those of other workflows as before; the
      called one dies by a failed change, stays dead when the recorded schedule is registered
      again, and is live after any other registration that leaves it indexed. */
  lemma LiveAfter(t: Table, op: Op, valid: string -> bool, k: string)
    requires Sound(t) && k in Perform(t, op, valid).entries
    ensures var key := KeyOf(op.namespace, op.name);
            Live(Perform(t, op, valid), k) <==>
            if k != key then k in t.entries && Live(t, k)
            else !FailedChange(t, op, valid) &&
                 (key in t.entries && op.Register? && t.entries[key].schedule == op.schedule ==> Live(t, key))
  {
    hide KeyOf;
    var u := Perform(t, op, valid);
    var key := KeyOf(op.namespace, op.name);
    if k != key {
      assert k in t.entries && u.entries[k] == t.entries[k];
      assert t.entries[k].cronId < t.nextId;
      if key in t.entries {
        assert t.entries[k].cronId != t.entries[key].cronId;
      }
    }
  }

  /** No call of the run is a failed change, each judged on the table it meets. */
  predicate NoFailedChange(ops: seq<Op>, valid: string -> bool) {
    forall i :: 0 <= i < |ops| ==> !FailedChange(PerformAll(EMPTY, ops[..i], valid), ops[i], valid)
  }

  predicate AllLive(t: Table) {
    forall k <- t.entries :: Live(t, k)
  }

  lemma {:induction false} StaysLive(ops: seq<Op>, valid: string -> bool)
    requires NoFailedChange(ops, valid)
    ensures AllLive(PerformAll(EMPTY, ops, valid))
  {
    hide Perform, Live, FailedChange, KeyOf, Sound;
    if ops != [] {
      var n := |ops| - 1;
      forall i | 0 <= i < n ensures !FailedChange(PerformAll(EMPTY, ops[..n][..i], valid), ops[..n][i], valid) {
        assert ops[..n][..i] == ops[..i];
      }
      StaysLive(ops[..n], valid);
      RunsStaySound(ops[..n], valid);
      var t := PerformAll(EMPTY, ops[..n], valid);
      assert !FailedChange(t, ops[n], valid);
      forall k | k in Perform(t, ops[n], valid).entries ensures Live(Perform(t, ops[n], valid), k) {
        LiveAfter(t, ops[n], valid, k);
        PerformEntries(t, ops[n], valid, k);
      }
    }
  }

  lemma FailedChangeKills(t: Table, op: Op, valid: string -> bool)
    requires Sound(t) && FailedChange(t, op, valid)
    ensures !AllLive(Perform(t, op, valid))
  {
    hide KeyOf, Live, Sound;
    LiveAfter(t, op, valid, KeyOf(op.namespace, op.name));
  }

  /** Throughout a run every entry has a live job with its recorded schedule, exactly when no call
      of the run is a failed change. */
  lemma RunsStayLive(ops: seq<Op>, valid: string -> bool)
    ensures (forall n :: 0 <= n <= |ops| ==> AllLive(PerformAll(EMPTY, ops[..n], valid))) <==>
            NoFailedChange(ops, valid)
  {
    hide Perform, FailedChange, AllLive;
    if NoFailedChange(ops, valid) {
      forall n | 0 <= n <= |ops| ensures AllLive(PerformAll(EMPTY, ops[..n], valid)) {
        assert forall i :: 0 <= i < n ==> ops[..n][..i] == ops[..i];
        StaysLive(ops[..n], valid);
      }
    }
    if forall n :: 0 <= n <= |ops| ==> AllLive(PerformAll(EMPTY, ops[..n], valid)) {
      forall i | 0 <= i < |ops| ensures !FailedChange(PerformAll(EMPTY, ops[..i], valid), ops[i], valid) {
        var t := PerformAll(EMPTY, ops[..i], valid);
        RunsStaySound(ops[..i], valid);
        assert AllLive(PerformAll(EMPTY, ops[..i + 1], valid));
        assert ops[..i + 1][..i] == ops[..i];
        if FailedChange(t, ops[i], valid) { FailedChangeKills(t, ops[i], valid); }
      }
    }
  }

  lemma PerformEntries(t: Table, op: Op, valid: string -> bool, k: string)
    requires k in Perform(t, op, valid).entries
    ensures k in t.entries || k == KeyOf(op.namespace, op.name)
  {
  }

  // ----- what a call does to the index -----

  /** A call leaves every other workflow alone: its entry, and the job of that entry. */
  lemma OthersStay(t: Table, op: Op, valid: string -> bool, k: string)
    requires Sound(t) && k != op.namespace + "/" + op.name
    ensures var u := Perform(t, op, valid);
            && (k in u.entries <==> k in t.entries)
            && (k in t.entries ==>
                  var id := t.entries[k].cronId;
                  && u.entries[k] == t.entries[k]
                  && (id in u.jobs <==> id in t.jobs)
                  && (id in t.jobs ==> u.jobs[id] == t.jobs[id]))
  {
    var key := KeyOf(op.namespace, op.name);
    assert key == op.namespace + "/" + op.name;
    hide KeyOf;
    if k in t.entries && key in t.entries {
      assert t.entries[k].cronId != t.entries[key].cronId;
    }
  }

  /** A registration with a schedule that parses leaves the workflow indexed with it, and live unless
      the same schedule was recorded for a dead entry; one that does not parse changes no entry. */
  lemma RegistersWorkflow(t: Table, ns: string, name: string, schedule: string, valid: string -> bool)
    requires Sound(t)
    ensures var u := Perform(t, Register(ns, name, schedule), valid);
            var k := ns + "/" + name;
            && (valid(schedule) ==>
                  && k in u.entries && u.entries[k].schedule == schedule
                  && (Live(u, k) <==> (k in t.entries && t.entries[k].schedule == schedule ==> Live(t, k)))
                  && (Live(u, k) && !(k in t.entries && t.entries[k].schedule == schedule) ==>
                        u.jobs[u.entries[k].cronId] == Job(ns, name, schedule)))
            && (!valid(schedule) ==> u.entries == t.entries)
  {
    var op := Register(ns, name, schedule);
    if valid(schedule) {
      LiveAfter(t, op, valid, ns + "/" + name);
    }
  }

  /** A deregistration leaves neither entry nor job of the workflow. */
  lemma DeregistersWorkflow(t: Table, ns: string, name: string, valid: string -> bool)
    requires Sound(t)
    ensures var u := Perform(t, Deregister(ns, name), valid);
            && ns + "/" + name !in u.entries
            && forall id <- u.jobs :: !(u.jobs[id].namespace == ns && u.jobs[id].name == name)
  {
    var op := Deregister(ns, name);
    var u := Perform(t, op, valid);
    PerformKeepsSound(t, op, valid);
    forall id | id in u.jobs ensures !(u.jobs[id].namespace == ns && u.jobs[id].name == name) {
      var k :| Owns(u, k, id);
    }
  }

  /** A registration of the workflow with a schedule that parses. */
  predicate Puts(op: Op, k: string, valid: string -> bool) {
    op.Register? && op.namespace + "/" + op.name == k && valid(op.schedule)
  }

  predicate Takes(op: Op, k: string) {
    op.Deregister? && op.namespace + "/" + op.name == k
  }

  lemma IndexStep(t: Table, op: Op, valid: string -> bool, k: string)
    requires Sound(t)
    ensures var u := Perform(t, op, valid);
            && (k in u.entries <==> Puts(op, k, valid) || (k in t.entries && !Takes(op, k)))
            && (k in u.entries ==>
                  u.entries[k].schedule == if Puts(op, k, valid) then op.schedule else t.entries[k].schedule)
  {
    hide Perform, Live, Sound;
    var key := op.namespace + "/" + op.name;
    if k != key {
      OthersStay(t, op, valid, k);
    } else if op.Register? {
      RegistersWorkflow(t, op.namespace, op.name, op.schedule, valid);
    } else {
      DeregistersWorkflow(t, op.namespace, op.name, valid);
    }
  }

  /** Over runs: a workflow is indexed exactly if it was registered with a schedule that parses and
      not deregistered since, and it is recorded with the latest such schedule. */
  lemma {:induction false} IndexedLatest(ops: seq<Op>, valid: string -> bool, k: string) returns (i: nat)
    ensures var t := PerformAll(EMPTY, ops, valid);
            && (k in t.entries ==>
                  && i < |ops| && Puts(ops[i], k, valid) && t.entries[k].schedule == ops[i].schedule
                  && forall j :: i < j < |ops| ==> !Puts(ops[j], k, valid) && !Takes(ops[j], k))
            && (k !in t.entries ==>
                  forall j :: 0 <= j < |ops| && Puts(ops[j], k, valid) ==>
                      exists l :: j < l < |ops| && Takes(ops[l], k))
  {
    hide Perform, Puts, Takes;
    i := 0;
    if ops != [] {
      var n := |ops| - 1;
      var before := PerformAll(EMPTY, ops[..n], valid);
      i := IndexedLatest(ops[..n], valid, k);
      RunsStaySound(ops[..n], valid);
      IndexStep(before, ops[n], valid, k);
      PutsOrTakes(ops[n], k, valid);
      if k in PerformAll(EMPTY, ops, valid).entries {
        if Puts(ops[n], k, valid) { i := n; } else { assert ops[..n][i] == ops[i]; }
      } else {
        forall j | 0 <= j < |ops| && Puts(ops[j], k, valid) ensures exists l :: j < l < |ops| && Takes(ops[l], k) {
          if Takes(ops[n], k) {
            assert j < n;
          } else {
            assert ops[..n][j] == ops[j];
            var l :| j < l < n && Takes(ops[..n][l], k);
            assert ops[l] == ops[..n][l];
          }
        }
      }
    }
  }

  lemma PutsOrTakes(op: Op, k: string, valid: string -> bool)
    ensures !(Puts(op, k, valid) && Takes(op, k))
  {
  }

  /** For every workflow and every pair of a parsed and an unparsed schedule: after the failed
      change the entry still records the old schedule but its job is gone, registering the old
      schedule again reports success and restores nothing, and another parsed schedule does. */
  lemma FailedChangeSticks(ns: string, name: string, good: string, bad: string, other: string, valid: string -> bool)
    requires valid(good) && !valid(bad) && valid(other) && other != good
    ensures var k := KeyOf(ns, name);
            var stuck := PerformAll(EMPTY, [Register(ns, name, good), Register(ns, name, bad)], valid);
            && k in stuck.entries && stuck.entries[k].schedule == good && stuck.jobs == map[] && !Live(stuck, k)
            && Perform(stuck, Register(ns, name, good), valid) == stuck
            && var fixed := Perform(stuck, Register(ns, name, other), valid);
               k in fixed.entries && Live(fixed, k) && fixed.entries[k].schedule == other
  {
    hide KeyOf;
    var ops := [Register(ns, name, good), Register(ns, name, bad)];
    var one := Perform(EMPTY, Register(ns, name, good), valid);
    assert ops[..1] == [Register(ns, name, good)] && ops[..1][..0] == [];
    assert PerformAll(EMPTY, ops[..1], valid) == one;
    var stuck := Perform(one, Register(ns, name, bad), valid);
    assert PerformAll(EMPTY, ops, valid) == stuck;
    assert stuck.jobs == map[];
  }
}
