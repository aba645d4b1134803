/**
 The reconcile of one hub Application, call by call, while its users and others go on changing the
 Application and the ManifestWorks between any two calls.
 */
module Propagation {
  import opened Options
  import opened ManifestWorks
  import opened PropagationHistory

  datatype Response = Works | Fails

  /** The world is, at any time, what the history since the start makes of it. */
  class Hub {
    var world: World
    const response: nat -> Response
    const edits: nat -> seq<Edit>
    var calls: nat
    ghost const origin: World
    ghost var trace: seq<Moment>

    constructor (world: World, response: nat -> Response, edits: nat -> seq<Edit>)
      requires Tallied(world)
      ensures this.world == world && origin == world && this.response == response && this.edits == edits
      ensures Valid() && calls == 0 && trace == []
    {
      this.world, this.response, this.edits, calls := world, response, edits, 0;
      origin, trace := world, [];
    }

    /** What others do is given by `edits`, one batch for each call; all else in the history is the controller's. */
    ghost predicate Valid()
      reads this
    {
      && world == Replay(origin, trace) && LawfulTrace(origin, trace) && Tallied(world) && Tallied(origin)
      && OthersOf(trace) == Batches(calls)
    }

    ghost function Batches(n: nat): seq<seq<Edit>> {
      seq(n, i requires 0 <= i < n => edits(i))
    }

    ghost predicate NobodyElse() {
      forall n {:trigger edits(n)} :: edits(n) == []
    }

    /** With nobody else about, all requests issued or withdrawn were so from the start. */
    lemma AloneNothingIsWithdrawn()
      requires Valid() && NobodyElse()
      ensures SameRequests(origin, world)
    {
      OnlyUsersWithdraw(origin, trace);
    }

    ghost method Note(m: Moment)
      requires LawfulTrace(origin, trace) && Lawful(Replay(origin, trace), m) && Tallied(Replay(origin, trace))
      modifies this`trace
      ensures trace == old(trace) + [m] && Replay(origin, trace) == After(Replay(origin, old(trace)), m)
      ensures LawfulTrace(origin, trace) && Tallied(Replay(origin, trace))
      ensures OthersOf(trace) == OthersOf(old(trace)) + if m.OthersActed? then [m.edits] else []
      ensures OwnOf(trace) == OwnOf(old(trace)) + if m.OthersActed? then [] else [m]
    {
      Next(origin, trace, m);
      MomentTallied(Replay(origin, trace), m);
      trace := trace + [m];
    }

    // -----------------------------------------------------------------------------------------
    // The API server
    // -----------------------------------------------------------------------------------------

    /** Time passes: others act, and the controller's next call is answered. */
    method Call() returns (r: Response)
      requires Valid()
      modifies this
      ensures Valid() && r == response(old(calls)) && calls == old(calls) + 1
      ensures old(trace) <= trace && OwnOf(trace) == OwnOf(old(trace))
      ensures world == AfterEdits(old(world), edits(old(calls))) && Onward(old(world), world)
    {
      r := response(calls);
      var acts := edits(calls);
      Note(OthersActed(acts));
      EditsOnward(world, acts);
      assert Batches(calls + 1) == Batches(calls) + [edits(calls)];
      calls := calls + 1;
      for i := 0 to |acts|
        invariant world == AfterEdits(old(world), acts[..i])
        invariant trace == old(trace) + [OthersActed(acts)] && calls == old(calls) + 1
      {
        assert acts[..i + 1][..i] == acts[..i];
        world := AfterEdit(world, acts[i]);
      }
      assert acts[..|acts|] == acts;
    }

    method GetApplication() returns (found: Option<App>)
      requires Valid()
      modifies this
      ensures Valid() && calls == old(calls) + 1 && old(trace) <= trace && OwnOf(trace) == OwnOf(old(trace))
      ensures world == AfterEdits(old(world), edits(old(calls)))
      ensures found == if response(old(calls)).Works? then world.app else None
    {
      var r := Call();
      return if r.Works? then world.app else None;
    }

    /** Written only if the Application is still as it was read. */
    method UpdateApplication(before: App, local: App) returns (ok: bool)
      requires Valid() && Later(Some(before), world.app) && local.version == before.version
      requires Entitled(world, before, local) && KeyOf(before).name == world.own
      modifies this
      ensures Valid() && calls == old(calls) + 1
      ensures old(trace) <= trace
      ensures OwnOf(trace) == if ok then OwnOf(old(trace)) + [AppWritten(before, local)] else OwnOf(old(trace))
      ensures ok <==> response(old(calls)).Works? && AfterEdits(old(world), edits(old(calls))).app == Some(before)
      ensures world.own == old(world).own
      ensures forall k: WorkKey :: k.name == world.own && Live(world.works, k) ==> Live(old(world).works, k)
    {
      var r := Call();
      if r.Fails? || world.app.None? || world.app.value.version != local.version {
        return false;
      }
      Note(AppWritten(before, local));
      if local.deleting && local.finalizers == [] {
        world := world.(app := None);
      } else {
        world := world.(app := Some(Touched(local)));
      }
      return true;
    }

    /** Whether the work exists; None when that cannot be found out. */
    method GetWork(key: WorkKey) returns (present: Option<bool>)
      requires Valid()
      modifies this
      ensures Valid() && calls == old(calls) + 1 && old(trace) <= trace && OwnOf(trace) == OwnOf(old(trace))
      ensures Onward(old(world), world)
      ensures present == if response(old(calls)).Works? then Some(key in world.works) else None
    {
      var r := Call();
      return if r.Fails? then None else Some(key in world.works);
    }

    method DeleteWork(key: WorkKey) returns (ok: bool)
      requires Valid() && key.name == world.own
      modifies this
      ensures Valid() && calls == old(calls) + 1 && Onward(old(world), world)
      ensures old(trace) <= trace
      ensures OwnOf(trace) == if ok then OwnOf(old(trace)) + [WorkDeleted(key)] else OwnOf(old(trace))
      ensures ok ==> !Live(world.works, key)
      ensures ok <==> response(old(calls)).Works? && key in AfterEdits(old(world), edits(old(calls))).works
    {
      var r := Call();
      if r.Fails? || key !in world.works {
        return false;
      }
      Note(WorkDeleted(key));
      world := world.(works := world.works[key := world.works[key].(deleting := true)]);
      return true;
    }

    /** Creates the work, or replaces its labels, annotations and spec. */
    method WriteWork(app: App, project: Project, hash: string, create: bool) returns (ok: bool)
      requires Valid() && KeyOf(app).name == world.own
      modifies this
      ensures Valid() && calls == old(calls) + 1 && Later(old(world).app, world.app) && world.own == old(world).own
      ensures old(trace) <= trace
      ensures OwnOf(trace) == if ok then OwnOf(old(trace)) + [WorkWritten(app, project, hash)] else OwnOf(old(trace))
      ensures ok <==>
                && response(old(calls)).Works?
                && create == (KeyOf(app) !in AfterEdits(old(world), edits(old(calls))).works)
      ensures ok ==> Carried(GenerateManifestWork(app, project, hash).manifests) <= world.sent
    {
      var r := Call();
      var key := KeyOf(app);
      if r.Fails? || create != (key !in world.works) {
        return false;
      }
      Note(WorkWritten(app, project, hash));
      var work := GenerateManifestWork(app, project, hash);
      world := world.(works := world.works[key := work.(deleting := key in world.works && world.works[key].deleting)],
                      sent := world.sent + Carried(work.manifests));
      return true;
    }

    // -----------------------------------------------------------------------------------------
    // The controller
    // -----------------------------------------------------------------------------------------

    /** The Application is being deleted: first its work goes, then the finalizer. */
    method Release(app0: App) returns (released: bool, ghost own: seq<Moment>)
      requires Valid() && Later(Some(app0), world.app) && app0.deleting && KeyOf(app0).name == world.own
      modifies this
      ensures Valid() && old(trace) <= trace && calls >= old(calls) && OwnOf(trace) == OwnOf(old(trace)) + own
      ensures released ==> !Live(world.works, KeyOf(app0))
      ensures IsRelease(own, app0, released)
    {
      var local := Unfinalize(app0);
      var gone;
      gone, own := EnsureWorkDeleted(app0);
      ReleaseShape(own, app0);
      if !gone {
        return false, own;
      }
      MayRelease(world, app0);
      released := UpdateApplication(app0, local);
      if released {
        PlusIsAssociative(OwnOf(old(trace)), own, [AppWritten(app0, local)]);
        own := own + [AppWritten(app0, local)];
      }
    }

    /** The work of the Application is not there, or its deletion has been accepted. */
    method EnsureWorkDeleted(app0: App) returns (gone: bool, ghost own: seq<Moment>)
      requires Valid() && KeyOf(app0).name == world.own
      modifies this
      ensures Valid() && old(trace) <= trace && calls >= old(calls) && OwnOf(trace) == OwnOf(old(trace)) + own
      ensures Onward(old(world), world)
      ensures own == [] || own == [WorkDeleted(KeyOf(app0))]
      ensures gone ==> !Live(world.works, KeyOf(app0))
    {
      var key := KeyOf(app0);
      var found := GetWork(key);
      if found.None? {
        return false, [];
      }
      if !found.value {
        return true, [];
      }
      gone := DeleteWork(key);
      own := if gone then [WorkDeleted(key)] else [];
    }

    /** Writes the work, then clears the requests it carries. */
    method Propagate(app0: App, project: Project, hash: string) returns (done: bool, ghost own: seq<Moment>)
      requires Valid() && Later(Some(app0), world.app) && KeyOf(app0).name == world.own
      modifies this
      ensures Valid() && old(trace) <= trace && calls >= old(calls) && OwnOf(trace) == OwnOf(old(trace)) + own
      ensures IsPropagation(own, app0, project, hash, done)
    {
      var written;
      written, own := WriteOwnWork(app0, project, hash);
      if !written {
        return false, own;
      }
      var local := Localized(app0);
      var needsUpdate := false;
      if local.operation.Some? {
        local := local.(operation := None);
        needsUpdate := true;
      }
      if local.refresh.Some? {
        local := local.(refresh := None);
        needsUpdate := true;
      }
      if !needsUpdate {
        return true, own;
      }
      assert local == Cleared(Localized(app0));
      MayClear(world, app0, project, hash);
      done := UpdateApplication(app0, local);
      if done {
        PlusIsAssociative(OwnOf(old(trace)), own, [AppWritten(app0, local)]);
        own := own + [AppWritten(app0, local)];
      }
    }

    /** Creates the work, or updates it when it is there. */
    method WriteOwnWork(app0: App, project: Project, hash: string) returns (written: bool, ghost own: seq<Moment>)
      requires Valid() && Later(Some(app0), world.app) && KeyOf(app0).name == world.own
      modifies this
      ensures Valid() && old(trace) <= trace && calls >= old(calls) && OwnOf(trace) == OwnOf(old(trace)) + own
      ensures Later(Some(app0), world.app) && world.own == old(world).own
      ensures own == if written then [WorkWritten(app0, project, hash)] else []
      ensures written ==> Carried(GenerateManifestWork(app0, project, hash).manifests) <= world.sent
    {
      var found := GetWork(KeyOf(app0));
      if found.None? {
        return false, [];
      }
      written := WriteWork(app0, project, hash, !found.value);
      own := if written then [WorkWritten(app0, project, hash)] else [];
    }

    /** `app0` is the Application as the reconcile read it, in its first call. */
    method Reconcile(input: Input) returns (outcome: Outcome, ghost app0: Option<App>, ghost own: seq<Moment>)
      requires Valid()
      modifies this
      ensures Valid() && old(trace) <= trace && calls >= old(calls) && OwnOf(trace) == OwnOf(old(trace)) + own
      ensures input.flag == Disabled ==>
                outcome == Skipped && calls == old(calls) && trace == old(trace) && world == old(world)
      ensures app0.Some? ==> app0 == AfterEdits(old(world), edits(old(calls))).app
      ensures IsReconcile(own, app0, input, outcome)
      ensures outcome == Released ==> app0.Some? && !Live(world.works, KeyOf(app0.value))
    {
      own := [];
      if input.flag == Disabled {
        return Skipped, None, own;
      }
      var found := GetApplication();
      if found.None? {
        return Absent, None, own;
      }
      app0 := found;
      var a := found.value;
      if a.deleting {
        var released;
        released, own := Release(a);
        return if released then Released else Failed, app0, own;
      }
      var authorized := CheckAuthorization(a, input);
      if authorized != Some(true) {
        return if authorized == Some(false) then Rejected else Failed, app0, own;
      }
      if input.project.None? {
        return Failed, app0, own;
      }
      var done;
      done, own := Propagate(a, input.project.value, input.hash);
      return if done then Propagated else Failed, app0, own;
    }

    /** None when the managed cluster is not found, or something cannot be found out. */
    method CheckAuthorization(a: App, input: Input) returns (authorized: Option<bool>)
      requires Valid()
      modifies this
      ensures Valid() && old(trace) <= trace && calls >= old(calls) && OwnOf(trace) == OwnOf(old(trace))
      ensures Onward(old(world), world)
      ensures authorized == Some(true) ==> Authorized(a, input.clusters, input.decisions)
      ensures authorized == Some(false) ==> !Authorized(a, input.clusters, input.decisions)
    {
      var r := Call();
      var target := Get(a.annotations, ManagedCluster).GetOr("");
      if r.Fails? || target !in input.clusters {
        return None;
      }
      r := Call();
      if r.Fails? {
        return None;
      }
      var bound := IsClusterBoundToNamespace(target, input.decisions);
      return Some(bound);
    }

    /**
     Any number of reconciles of the Application, one at a time: the history only grows, by what others do in each
     call and by what reconciles with a readable or unreadable flag write, and in it no request is lost.
     */
    method Run(inputs: seq<Input>) returns (ghost owns: seq<seq<Moment>>)
      requires Valid()
      modifies this
      ensures Valid() && old(trace) <= trace && calls >= old(calls)
      ensures AreReconciles(owns, inputs) && OwnOf(trace) == OwnOf(old(trace)) + Joined(owns)
      ensures forall i: nat :: i < world.issues && world.app.Some? ==> AccountedFor(origin, trace, i)
      ensures AllDisabled(inputs) ==> trace == old(trace) && world == old(world)
      ensures NobodyElse() ==> SameRequests(old(world), world)
    {
      if NobodyElse() {
        AloneNothingIsWithdrawn();
      }
      owns := [];
      for i := 0 to |inputs|
        invariant Valid() && old(trace) <= trace && calls >= old(calls)
        invariant AreReconciles(owns, inputs[..i]) && OwnOf(trace) == OwnOf(old(trace)) + Joined(owns)
        invariant AllDisabled(inputs) ==> trace == old(trace) && world == old(world)
      {
        var outcome, app0, own := Reconcile(inputs[i]);
        assert IsReconcile(own, app0, inputs[i], outcome);
        JoinedNext(OwnOf(old(trace)), owns, own);
        ReconcilesNext(owns, own, inputs, i);
        owns := owns + [own];
      }
      assert inputs[..|inputs|] == inputs;
      if NobodyElse() {
        AloneNothingIsWithdrawn();
      }
      forall i: nat | i < world.issues && world.app.Some? ensures AccountedFor(origin, trace, i) {
        EveryRequestIsAccountedFor(origin, trace, i);
      }
    }

    /** Sweeps the works as `store` has them; the sweep and what others write during it are one moment. */
    method Sweep(store: WorkStore) returns (ok: bool)
      requires Valid() && store.works == world.works
      modifies this, store
      ensures Valid() && calls == old(calls) && trace == old(trace) + [WorksSwept(world.works)]
      ensures world == old(world).(works := world.works) && world.works.Keys == old(world).works.Keys
      ensures store.FailureFree(old(world).works) ==>
                forall k :: k in world.works && IsPullModelManifestWork(old(world).works[k]) ==>
                              !NeedsReadOnly(world.works[k])
      ensures store.FailureFree(old(world).works) && store.NoConflicts() ==> world.works == Swept(old(world).works)
    {
      ok := store.SweepManifestWorksToReadOnly();
      Note(WorksSwept(store.works));
      world := world.(works := store.works);
    }

    /**
     Disabling the pull model: after a sweep without failures every work that was recognised is frozen, and stays so
     through any reconciles that read the flag; without conflicts nothing else has changed.
     */
    method Disable(store: WorkStore, inputs: seq<Input>)
      requires Valid() && store.works == world.works
      requires AllDisabled(inputs)
      modifies this, store
      ensures Valid() && world.app == old(world).app && world.works.Keys == old(world).works.Keys
      ensures store.FailureFree(old(world).works) ==>
                forall k :: k in world.works && IsPullModelManifestWork(old(world).works[k]) ==>
                              !NeedsReadOnly(world.works[k])
      ensures store.FailureFree(old(world).works) && store.NoConflicts() ==> world.works == Swept(old(world).works)
    {
      var ok := Sweep(store);
      var owns := Run(inputs);
    }
  }

  /** Not committed yet. */
  method Unfinalize(app: App) returns (local: App)
    ensures local == Unfinalized(app)
  {
    local := app;
    if |app.finalizers| != 0 {
      var finalizers := RemoveFinalizer(app.finalizers, RESOURCES_FINALIZER);
      local := local.(finalizers := finalizers);
    }
  }

  predicate HasRequests(app: App) {
    app.operation.Some? || app.refresh.Some?
  }

  function Unfinalized(app: App): App {
    app.(finalizers := Without(app.finalizers, RESOURCES_FINALIZER))
  }

  lemma ReleaseShape(own: seq<Moment>, app0: App)
    requires own == [] || own == [WorkDeleted(KeyOf(app0))]
    ensures IsRelease(own, app0, false) && IsRelease(own + [AppWritten(app0, Unfinalized(app0))], app0, true)
  {
    if own == [] {
      assert own + [AppWritten(app0, Unfinalized(app0))] == [AppWritten(app0, Unfinalized(app0))];
    }
  }

  lemma MayRelease(w: World, app: App)
    requires app.deleting && !Live(w.works, KeyOf(app))
    ensures Entitled(w, app, Unfinalized(app))
    ensures app.finalizers == [] ==> Unfinalized(app) == app
  {
  }

  /** After the work was written the requests may be cleared, by whoever acts in between. */
  lemma MayClear(w: World, app: App, project: Project, hash: string)
    requires Carried(GenerateManifestWork(app, project, hash).manifests) <= w.sent
    ensures Entitled(w, app, Cleared(Localized(app)))
  {
    forall i | Pending(app, i) ensures i in w.sent || Unsendable(app, i) {
      DeliveredOrUnsendable(app, project, hash, i);
    }
  }

  /** A reconcile deletes no work but the one under the key of the Application it has read. */
  lemma ReconcileKeepsOtherWorks(own: seq<Moment>, app0: Option<App>, input: Input, outcome: Outcome, k: WorkKey)
    requires IsReconcile(own, app0, input, outcome) && (app0.Some? ==> KeyOf(app0.value) != k)
    ensures forall m :: m in own ==> !Removes(m, k) && !Rewrites(m, k)
  {
  }

  /** The work is deleted unless it is not there, and then the finalizer removed. */
  ghost predicate IsRelease(own: seq<Moment>, app0: App, released: bool) {
    var deleted, written := WorkDeleted(KeyOf(app0)), AppWritten(app0, Unfinalized(app0));
    if released then own == [written] || own == [deleted] + [written] else own == [] || own == [deleted]
  }

  /** The work is written, and then the requests cleared if there are any. */
  ghost predicate IsPropagation(own: seq<Moment>, app0: App, project: Project, hash: string, done: bool) {
    var written, cleared := WorkWritten(app0, project, hash), AppWritten(app0, Cleared(Localized(app0)));
    if done then own == if HasRequests(app0) then [written] + [cleared] else [written]
    else own == [] || (HasRequests(app0) && own == [written])
  }

  /** All that a reconcile writes, in order, having read `app0`: works only with the flag not set, and authorized. */
  ghost predicate IsReconcile(own: seq<Moment>, app0: Option<App>, input: Input, outcome: Outcome) {
    if app0.None? || input.flag == Disabled then
      own == [] && outcome == if input.flag == Disabled then Skipped else Absent
    else if app0.value.deleting then
      IsRelease(own, app0.value, outcome == Released) && (outcome == Released || outcome == Failed)
    else if !Authorized(app0.value, input.clusters, input.decisions) then
      own == [] && (outcome == Rejected || outcome == Failed)
    else if input.project.None? then own == [] && outcome == Failed
    else
      && IsPropagation(own, app0.value, input.project.value, input.hash, outcome == Propagated)
      && (outcome == Propagated || outcome == Failed)
  }

  predicate AllDisabled(inputs: seq<Input>) {
    forall i :: 0 <= i < |inputs| ==> inputs[i].flag == Disabled
  }

  ghost predicate SomeReconcile(own: seq<Moment>, input: Input) {
    exists app0, outcome :: IsReconcile(own, app0, input, outcome)
  }

  /** What each of several reconciles writes. */
  ghost predicate AreReconciles(owns: seq<seq<Moment>>, inputs: seq<Input>) {
    |owns| == |inputs| && forall i :: 0 <= i < |inputs| ==> SomeReconcile(owns[i], inputs[i])
  }

  lemma ReconcilesNext(owns: seq<seq<Moment>>, own: seq<Moment>, inputs: seq<Input>, n: nat)
    requires n < |inputs| && AreReconciles(owns, inputs[..n]) && SomeReconcile(own, inputs[n])
    ensures AreReconciles(owns + [own], inputs[..n + 1])
  {
    assert forall i :: 0 <= i < n ==> inputs[..n + 1][i] == inputs[..n][i] && (owns + [own])[i] == owns[i];
  }

  lemma PlusIsAssociative<T>(a: seq<T>, b: seq<T>, c: seq<T>)
    ensures a + (b + c) == (a + b) + c
  {
  }

  function Joined<T>(parts: seq<seq<T>>): seq<T> {
    if parts == [] then [] else Joined(parts[..|parts| - 1]) + parts[|parts| - 1]
  }

  lemma JoinedNext<T>(head: seq<T>, parts: seq<seq<T>>, part: seq<T>)
    ensures head + Joined(parts + [part]) == (head + Joined(parts)) + part
  {
    assert (parts + [part])[..|parts|] == parts;
  }

  /** What a reconcile finds besides the Application and its work. */
  datatype Input = Input(flag: Flag, clusters: set<string>, decisions: seq<seq<string>>, project: Option<Project>,
                         hash: string)

  /** Disabling the pull model may be readable or not; when not, the reconcile goes on. */
  datatype Flag = Enabled | Disabled | Unreadable

  datatype Outcome = Skipped | Absent | Rejected | Failed | Propagated | Released

  predicate Selected(cluster: string, decisions: seq<seq<string>>) {
    exists i :: 0 <= i < |decisions| && cluster in decisions[i]
  }

  /** The managed cluster exists, and a placement decision in the Application's namespace selects it. */
  predicate Authorized(app: App, clusters: set<string>, decisions: seq<seq<string>>) {
    var target := Get(app.annotations, ManagedCluster).GetOr("");
    target in clusters && Selected(target, decisions)
  }

  method IsClusterBoundToNamespace(cluster: string, decisions: seq<seq<string>>) returns (bound: bool)
    ensures bound <==> Selected(cluster, decisions)
  {
    for i := 0 to |decisions|
      invariant forall j :: 0 <= j < i ==> cluster !in decisions[j]
    {
      for j := 0 to |decisions[i]|
        invariant cluster !in decisions[i][..j]
      {
        if decisions[i][j] == cluster {
          return true;
        }
      }
      assert decisions[i][..|decisions[i]|] == decisions[i];
    }
    return false;
  }
}
