/** `transferOrphanedTentacles` (`pkg/tools/enclave.go`): the Deployments of removed members
    are handed to the enclave owner, one update at a time, each of which may fail. */
module Tentacles {
  import opened Wrappers
  import opened Text
  import opened Annotations

  datatype Deployment = Deployment(managed: bool, ann: Option<Annotations>)

  type Deployments = map<string, Deployment>

  datatype Transfer = Transfer(tentacle: string, fromOwner: string, toOwner: string, success: bool)

  function LowerSet(ms: seq<string>): set<string> {
    set m <- ms :: ToLower(m)
  }

  /** A managed Deployment whose owner, in any letter case, is among the removed members. */
  predicate Orphan(d: Deployment, removed: set<string>) {
    d.managed && d.ann.Some? && Get(d.ann.value, Owner) != "" && ToLower(Get(d.ann.value, Owner)) in removed
  }

  function HandedOver(d: Deployment, newOwner: string): Deployment
    requires d.ann.Some?
  {
    d.(ann := Some(d.ann.value[Owner := newOwner][OwnerEmail := newOwner][OwnerSub := ""]))
  }

  function Orphans(ds: Deployments, removed: set<string>): set<string> {
    set n | n in ds && Orphan(ds[n], removed)
  }

  /** The Deployments after a transfer in which the updates named by `fails` failed. */
  function Transferred(ds: Deployments, removed: set<string>, newOwner: string, fails: set<string>): Deployments {
    map n | n in ds :: if Orphan(ds[n], removed) && n !in fails then HandedOver(ds[n], newOwner) else ds[n]
  }

  function Named(r: seq<Transfer>): set<string> {
    set t <- r :: t.tentacle
  }

  /** One report for each orphan, none for anything else, and each says what happened. */
  predicate ReportsExactly(
      ds: Deployments, r: seq<Transfer>, removed: set<string>, newOwner: string, fails: set<string>)
  {
    && Named(r) == Orphans(ds, removed)
    && (forall i, j :: 0 <= i < j < |r| ==> r[i].tentacle != r[j].tentacle)
    && (forall t <- r :: t.tentacle in ds && ds[t.tentacle].ann.Some? &&
          t == Transfer(t.tentacle, ToLower(Get(ds[t.tentacle].ann.value, Owner)), newOwner, t.tentacle !in fails))
  }

  /** The Deployments after the transfer has gone through some of the listed names. */
  function Part(ds: Deployments, names: seq<string>, removed: set<string>, newOwner: string, fails: set<string>)
    : Deployments
  {
    map n | n in ds ::
      if n in names && Orphan(ds[n], removed) && n !in fails then HandedOver(ds[n], newOwner) else ds[n]
  }

  predicate Known(ds: Deployments, names: seq<string>) {
    forall i :: 0 <= i < |names| ==> names[i] in ds
  }

  function Reports(ds: Deployments, names: seq<string>, removed: set<string>, newOwner: string, fails: set<string>)
    : seq<Transfer>
    requires Known(ds, names)
  {
    if names == [] then []
    else
      var n := names[|names| - 1];
      Reports(ds, names[..|names| - 1], removed, newOwner, fails) +
      if Orphan(ds[n], removed) then [Transfer(n, ToLower(Get(ds[n].ann.value, Owner)), newOwner, n !in fails)] else []
  }

  lemma PartNone(ds: Deployments, removed: set<string>, newOwner: string, fails: set<string>)
    ensures Part(ds, [], removed, newOwner, fails) == ds
  {
  }

  lemma PartSnoc(ds: Deployments, names: seq<string>, n: string, removed: set<string>, newOwner: string,
      fails: set<string>)
    requires n in ds && n !in names
    ensures var p := Part(ds, names, removed, newOwner, fails);
            && p[n] == ds[n]
            && Part(ds, names + [n], removed, newOwner, fails) ==
               if Orphan(ds[n], removed) && n !in fails then p[n := HandedOver(ds[n], newOwner)] else p
  {
    hide Orphan, HandedOver;
    var q := Part(ds, names + [n], removed, newOwner, fails);
    var p := Part(ds, names, removed, newOwner, fails);
    forall x | x in ds && x != n ensures q[x] == p[x] {
      assert x in names + [n] <==> x in names;
    }
  }

  lemma ReportsSnoc(ds: Deployments, names: seq<string>, n: string, more: seq<string>,
                    removed: set<string>, newOwner: string, fails: set<string>)
    requires more == names + [n] && Known(ds, names) && n in ds
    ensures Known(ds, more)
    ensures Reports(ds, more, removed, newOwner, fails) ==
            Reports(ds, names, removed, newOwner, fails) +
            if Orphan(ds[n], removed) then [Transfer(n, ToLower(Get(ds[n].ann.value, Owner)), newOwner, n !in fails)]
            else []
  {
    assert more[..|names|] == names;
  }

  lemma PartAll(ds: Deployments, names: seq<string>, removed: set<string>, newOwner: string, fails: set<string>)
    requires forall n :: n in names <==> n in ds && ds[n].managed
    ensures Part(ds, names, removed, newOwner, fails) == Transferred(ds, removed, newOwner, fails)
  {
  }

  lemma {:induction false} ReportsMembers(ds: Deployments, names: seq<string>, removed: set<string>, newOwner: string,
      fails: set<string>)
    requires Known(ds, names)
    requires forall i, j :: 0 <= i < j < |names| ==> names[i] != names[j]
    ensures var r := Reports(ds, names, removed, newOwner, fails);
            && (forall t <- r :: t.tentacle in names && Orphan(ds[t.tentacle], removed) &&
                  t == Transfer(t.tentacle, ToLower(Get(ds[t.tentacle].ann.value, Owner)), newOwner,
                      t.tentacle !in fails))
            && (forall n <- names :: Orphan(ds[n], removed) ==> n in Named(r))
            && (forall i, j :: 0 <= i < j < |r| ==> r[i].tentacle != r[j].tentacle)
  {
    hide ToLower;
    if names != [] {
      var i := |names| - 1;
      ReportsMembers(ds, names[..i], removed, newOwner, fails);
      assert names == names[..i] + [names[i]];
      assert names[i] !in names[..i];
      var before := Reports(ds, names[..i], removed, newOwner, fails);
      var r := Reports(ds, names, removed, newOwner, fails);
      if Orphan(ds[names[i]], removed) {
        assert r[|before|] in r;
        assert forall t <- before :: t in r;
      }
    }
  }

  lemma ReportsAll(ds: Deployments, names: seq<string>, removed: set<string>, newOwner: string, fails: set<string>)
    requires forall n :: n in names <==> n in ds && ds[n].managed
    requires forall i, j :: 0 <= i < j < |names| ==> names[i] != names[j]
    ensures ReportsExactly(ds, Reports(ds, names, removed, newOwner, fails), removed, newOwner, fails)
  {
    ReportsMembers(ds, names, removed, newOwner, fails);
  }

  class DeploymentApi {
    var deps: Deployments

    constructor (ds: Deployments)
      ensures deps == ds
    {
      deps := ds;
    }

    /** The server lists the managed Deployments in an order of its own. */
    method ListManaged() returns (names: seq<string>)
      ensures forall n :: n in names <==> n in deps && deps[n].managed
      ensures forall i, j :: 0 <= i < j < |names| ==> names[i] != names[j]
    {
      var todo := set n | n in deps && deps[n].managed;
      ghost var all := todo;
      names := [];
      while todo != {}
        invariant todo <= all
        invariant forall n :: n in names <==> n in all && n !in todo
        invariant forall i, j :: 0 <= i < j < |names| ==> names[i] != names[j]
        decreases todo
      {
        var n :| n in todo;
        todo := todo - {n};
        names := names + [n];
      }
    }

    /** One report per orphan, in listing order; exactly the reported successes are handed over. */
    method TransferOrphanedTentacles(removedMembers: seq<string>, newOwner: string, listFails: bool,
        updateFails: set<string>)
      returns (r: Option<seq<Transfer>>)
      modifies this
      ensures r.None? <==> listFails
      ensures listFails ==> deps == old(deps)
      ensures !listFails ==> deps == Transferred(old(deps), LowerSet(removedMembers), newOwner, updateFails)
      ensures !listFails ==> ReportsExactly(old(deps), r.value, LowerSet(removedMembers), newOwner, updateFails)
    {
      var removed := LowerSet(removedMembers);
      if listFails {
        return None;
      }
      var names := ListManaged();
      ghost var ds := deps;
      var result: seq<Transfer> := [];
      PartNone(ds, removed, newOwner, updateFails);
      for i := 0 to |names|
        invariant deps == Part(ds, names[..i], removed, newOwner, updateFails)
        invariant Known(ds, names)
        invariant result == Reports(ds, names[..i], removed, newOwner, updateFails)
      {
        hide ToLower, LowerSet;
        var n := names[i];
        assert names[..i + 1] == names[..i] + [n];
        PartSnoc(ds, names[..i], n, removed, newOwner, updateFails);
        ReportsSnoc(ds, names[..i], n, names[..i + 1], removed, newOwner, updateFails);
        var dep := deps[n];
        if dep.ann.None? {
          continue;
        }
        var currentOwner := ToLower(Get(dep.ann.value, Owner));
        LowerEmpty(Get(dep.ann.value, Owner));
        if currentOwner == "" || currentOwner !in removed {
          continue;
        }
        var success := n !in updateFails;
        if success {
          deps := deps[n := HandedOver(dep, newOwner)];
        }
        result := result + [Transfer(n, currentOwner, newOwner, success)];
      }
      assert names[..|names|] == names;
      PartAll(ds, names, removed, newOwner, updateFails);
      ReportsAll(ds, names, removed, newOwner, updateFails);
      return Some(result);
    }
  }

  /** Only owner, owner e-mail and owner subject of orphans change; the display name stays. */
  lemma TransferFrame(ds: Deployments, removed: set<string>, newOwner: string, fails: set<string>, n: string, k: Key)
    requires n in ds && ds[n].ann.Some? && k !in {Owner, OwnerEmail, OwnerSub}
    ensures var d := Transferred(ds, removed, newOwner, fails);
            n in d && d[n].managed == ds[n].managed && d[n].ann.Some? &&
                Get(d[n].ann.value, k) == Get(ds[n].ann.value, k)
  {
  }

  /** A handed-over Deployment names the new owner in both owner annotations, and no subject;
      every other Deployment is as it was. */
  lemma TransferHandsOver(ds: Deployments, removed: set<string>, newOwner: string, fails: set<string>, n: string)
    requires n in ds
    ensures var d := Transferred(ds, removed, newOwner, fails)[n];
            if n in Orphans(ds, removed) && n !in fails then
              d.ann.Some? && Get(d.ann.value, Owner) == newOwner && Get(d.ann.value, OwnerEmail) == newOwner &&
              Get(d.ann.value, OwnerSub) == ""
            else d == ds[n]
  {
  }

  /** After a transfer, the orphans are those whose update failed, and, if the new owner is
      among the removed members, also those that were handed over. */
  lemma OrphansAfter(ds: Deployments, removed: set<string>, newOwner: string, fails: set<string>)
    ensures Orphans(Transferred(ds, removed, newOwner, fails), removed) ==
            if newOwner != "" && ToLower(newOwner) in removed then Orphans(ds, removed)
            else Orphans(ds, removed) * fails
  {
    var d := Transferred(ds, removed, newOwner, fails);
    forall n
      ensures n in Orphans(d, removed) <==>
              n in (if newOwner != "" && ToLower(newOwner) in removed then Orphans(ds, removed)
                    else Orphans(ds, removed) * fails)
    {
      if n in ds && Orphan(ds[n], removed) && n !in fails {
        assert Get(d[n].ann.value, Owner) == newOwner;
      }
    }
  }

  /** A rerun without failures leaves no orphan, whatever failed before, exactly when the new
      owner is not a removed member (or there was no orphan to begin with). */
  lemma RerunSettles(ds: Deployments, removed: set<string>, newOwner: string, fails: set<string>)
    ensures Orphans(Transferred(Transferred(ds, removed, newOwner, fails), removed, newOwner, {}), removed) == {} <==>
            newOwner == "" || ToLower(newOwner) !in removed || Orphans(ds, removed) == {}
  {
    OrphansAfter(ds, removed, newOwner, fails);
    OrphansAfter(Transferred(ds, removed, newOwner, fails), removed, newOwner, {});
  }
}
