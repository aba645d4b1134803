/**
 The ManifestWork that carries an Application to its managed cluster, and the sweep that freezes such
 works once the pull model is disabled.
 */
module ManifestWorks {
  import opened Options

  // ---------------------------------------------------------------------------------------------
  // Applications
  // ---------------------------------------------------------------------------------------------

  datatype Label = PullLabel | AppSetLabel | AppSetHashLabel | OtherLabel(name: string)

  datatype Annotation =
    | ManagedCluster | AppNamespace | AppSetAnnotation | SkipReconcile | HubApplicationNamespace | HubApplicationName
    | OtherAnnotation(name: string)

  datatype OwnerRef = OwnerRef(isApplicationSet: bool, name: string)

  /** The namespace is None when it is missing or not a string. */
  datatype Destination = Destination(name: string, namespace: Option<string>, server: string)

  datatype Spec = Spec(destination: Option<Destination>, rest: string)

  /** A sync operation or refresh asked for by a user; `issue` tells one request from another. */
  datatype Request = Request(issue: nat, isMap: bool, content: string)

  /** At least as long as the part of it that names works. */
  type Uid = s: string | |s| >= 5 witness "00000"

  datatype App = App(name: string, namespace: string, uid: Uid, version: nat, labels: map<Label, string>,
                     annotations: map<Annotation, string>, refresh: Option<Request>, operation: Option<Request>,
                     spec: Option<Spec>,
                     owners: seq<OwnerRef>, finalizers: seq<string>, deleting: bool)

  const RESOURCES_FINALIZER := "resources-finalizer.argocd.argoproj.io"
  const IN_CLUSTER_SERVER := "https://kubernetes.default.svc"
  const GITOPS_NAMESPACE := "openshift-gitops"

  // ---------------------------------------------------------------------------------------------
  // Works
  // ---------------------------------------------------------------------------------------------

  datatype WorkKey = WorkKey(namespace: string, name: string)

  datatype Project = Project(namespace: string, name: string)

  datatype Payload = Payload(name: string, namespace: string, labels: map<Label, string>,
                             annotations: map<Annotation, string>,
                             refresh: Option<Request>, operation: Option<Request>, spec: Option<Spec>,
                             finalizers: seq<string>)

  datatype Manifest = NamespaceManifest(namespace: string) | ProjectManifest(project: Project)
      | AppManifest(payload: Payload)

  datatype Strategy = NoStrategy | ReadOnly | ServerSideApply | OtherStrategy

  datatype Config = Config(group: string, resource: string, namespace: string, name: string, strategy: Strategy)

  /** What deleting the work leaves on the cluster. */
  datatype Orphan = OrphanNamespace(namespace: string) | OrphanProject(project: Project)

  datatype Work = Work(labels: map<Label, string>, annotations: map<Annotation, string>, manifests: seq<Manifest>,
                       configs: seq<Config>,
                       orphans: seq<Orphan>, deleting: bool)

  const ARGO_GROUP := "argoproj.io"
  const APPLICATIONS := "applications"

  // ---------------------------------------------------------------------------------------------
  // Generating
  // ---------------------------------------------------------------------------------------------

  /** The first ApplicationSet owner's name; empty when there is none. */
  function AppSetOwnerName(owners: seq<OwnerRef>): string {
    if owners == [] then "" else if owners[0].isApplicationSet then owners[0].name else AppSetOwnerName(owners[1..])
  }

  function TargetNamespace(app: App): string {
    var custom := Get(app.annotations, AppNamespace).GetOr("");
    if custom != "" then custom else if app.namespace != "" then app.namespace else "argocd"
  }

  function LocalDestination(d: Destination, namespace: string): Destination {
    Destination("", if d.namespace == Some("") then Some(namespace) else d.namespace, IN_CLUSTER_SERVER)
  }

  function LocalSpec(spec: Spec, namespace: string): Spec {
    if spec.destination.None? then spec
        else spec.(destination := Some(LocalDestination(spec.destination.value, namespace)))
  }

  /** The payload shares its spec with the Application in memory, so this is also what happens to the latter. */
  function Localized(app: App): App {
    app.(spec := if app.spec.None? then None else Some(LocalSpec(app.spec.value, TargetNamespace(app))))
  }

  function PayloadOf(app: App): Payload {
    var owner := AppSetOwnerName(app.owners);
    var labels := app.labels - {PullLabel};
    var annotations := app.annotations - {ManagedCluster, AppNamespace, SkipReconcile};
    Payload(app.name, TargetNamespace(app),
            if owner == "" then labels else labels[AppSetLabel := "true"],
            if owner == "" then annotations else annotations[AppSetAnnotation := app.namespace + "/" + owner],
            app.refresh,
            if app.operation.Some? && app.operation.value.isMap then app.operation else None,
            Localized(app).spec, app.finalizers)
  }

  predicate Included(project: Project) {
    project != Project(GITOPS_NAMESPACE, "default")
  }

  /** `hash` stands for the digest of the ApplicationSet's name. */
  function GenerateManifestWork(app: App, project: Project, hash: string): Work {
    var owner := AppSetOwnerName(app.owners);
    var payload := PayloadOf(app);
    var annotations := map[HubApplicationNamespace := app.namespace, HubApplicationName := app.name];
    Work(if owner == "" then map[PullLabel := "true"] else map[AppSetLabel := "true", AppSetHashLabel := hash],
         if owner == "" then annotations else annotations[AppSetAnnotation := app.namespace + "/" + owner],
         [NamespaceManifest(payload.namespace)] + (if Included(project) then [ProjectManifest(project)] else [])
             + [AppManifest(payload)],
         [Config(ARGO_GROUP, APPLICATIONS, payload.namespace, payload.name, ServerSideApply)],
         [OrphanNamespace(payload.namespace)] + (if Included(project) then [OrphanProject(project)] else []), false)
  }

  /** The name of the Application and five characters of its identity. */
  function GenerateManifestWorkName(name: string, uid: Uid): string {
    name + "-" + uid[..5]
  }

  lemma WorkNamesAreDistinct(name: string, uid: Uid, name': string, uid': Uid)
    ensures GenerateManifestWorkName(name, uid) == GenerateManifestWorkName(name', uid') <==>
              name == name' && uid[..5] == uid'[..5]
  {
    var n, n' := GenerateManifestWorkName(name, uid), GenerateManifestWorkName(name', uid');
    assert n[..|n| - 6] == name && n[|n| - 5..] == uid[..5];
    assert n'[..|n'| - 6] == name' && n'[|n'| - 5..] == uid'[..5];
  }

  /** Localizing the Application's own spec does not change what is generated from it. */
  lemma LocalizingIsIdempotent(app: App, project: Project, hash: string)
    ensures Localized(Localized(app)) == Localized(app)
    ensures GenerateManifestWork(Localized(app), project, hash) == GenerateManifestWork(app, project, hash)
  {
    assert TargetNamespace(Localized(app)) == TargetNamespace(app);
    assert TargetNamespace(app) != "";
  }

  predicate Orphaned(w: Work, m: Manifest) {
    match m
    case NamespaceManifest(namespace) => OrphanNamespace(namespace) in w.orphans
    case ProjectManifest(project) => OrphanProject(project) in w.orphans
    case AppManifest(_) => false
  }

  /**
   The work delivers one Application, to the cluster it runs in, and deleting the work takes that Application with it
   and nothing else.
   */
  lemma WorkDeliversOneApplication(app: App, project: Project, hash: string)
    ensures var w := GenerateManifestWork(app, project, hash);
            && AppManifest(PayloadOf(app)) in w.manifests
            && (forall m :: m in w.manifests ==> (Orphaned(w, m) <==> m != AppManifest(PayloadOf(app))))
            && (forall m :: m in w.manifests && m.AppManifest? ==>
                  w.configs == [Config(ARGO_GROUP, APPLICATIONS, m.payload.namespace, m.payload.name, ServerSideApply)])
    ensures var p := PayloadOf(app);
            p.spec.Some? && p.spec.value.destination.Some? ==>
                  && p.spec.value.destination.value.server == IN_CLUSTER_SERVER
                  && p.spec.value.destination.value.name == ""
  {
    var w := GenerateManifestWork(app, project, hash);
    forall m | m in w.manifests ensures Orphaned(w, m) <==> m != AppManifest(PayloadOf(app)) {
      if m.NamespaceManifest? {
        assert w.orphans[0] == OrphanNamespace(PayloadOf(app).namespace);
      } else if m.ProjectManifest? {
        assert w.orphans[1] == OrphanProject(project);
      }
    }
    assert w.manifests[|w.manifests| - 1] == AppManifest(PayloadOf(app));
  }

  // ---------------------------------------------------------------------------------------------
  // Freezing
  // ---------------------------------------------------------------------------------------------

  predicate IsApplications(c: Config) {
    c.group == ARGO_GROUP && c.resource == APPLICATIONS
  }

  predicate IsPullModelManifestWork(w: Work) {
    && HubApplicationName in w.annotations
    && (Get(w.labels, AppSetLabel) == Some("true") || Get(w.labels, PullLabel) == Some("true"))
  }

  /** The entry is about applications and does more than read. */
  predicate Enforces(c: Config) {
    IsApplications(c) && c.strategy != ReadOnly
  }

  predicate NeedsReadOnly(w: Work) {
    exists i :: 0 <= i < |w.configs| && Enforces(w.configs[i])
  }

  function FrozenConfigs(configs: seq<Config>): seq<Config> {
    seq(|configs|, i requires 0 <= i < |configs| => if IsApplications(configs[i])
        then configs[i].(strategy := ReadOnly) else configs[i])
  }

  function Frozen(w: Work): Work {
    w.(configs := FrozenConfigs(w.configs))
  }

  function SweptWork(w: Work): Work {
    if IsPullModelManifestWork(w) then Frozen(w) else w
  }

  /** What the sweep makes of all works. */
  function Swept(works: map<WorkKey, Work>): map<WorkKey, Work> {
    map k | k in works :: SweptWork(works[k])
  }

  /** The sweep recognises every work that is generated, each of which enforces its payload. */
  lemma GeneratedIsRecognised(app: App, project: Project, hash: string)
    ensures IsPullModelManifestWork(GenerateManifestWork(app, project, hash))
    ensures NeedsReadOnly(GenerateManifestWork(app, project, hash))
  {
    assert Enforces(GenerateManifestWork(app, project, hash).configs[0]);
  }

  /** Freezing is needed exactly when it changes something. */
  lemma FreezingSettles(w: Work)
    ensures !NeedsReadOnly(Frozen(w)) && IsPullModelManifestWork(Frozen(w)) == IsPullModelManifestWork(w)
    ensures NeedsReadOnly(w) <==> Frozen(w) != w
  {
    if NeedsReadOnly(w) {
      var i :| 0 <= i < |w.configs| && Enforces(w.configs[i]);
      assert FrozenConfigs(w.configs)[i] != w.configs[i];
    } else {
      assert forall i :: 0 <= i < |w.configs| ==> !Enforces(w.configs[i]);
      assert FrozenConfigs(w.configs) == w.configs;
    }
  }

  lemma SweepingIsIdempotent(works: map<WorkKey, Work>)
    ensures Swept(Swept(works)) == Swept(works)
  {
    forall k | k in works ensures Swept(Swept(works))[k] == Swept(works)[k] {
      FreezingSettles(works[k]);
      FreezingSettles(Frozen(works[k]));
    }
  }

  /** Sets the entries about applications, wherever they are in the list. */
  method SetReadOnly(configs: array<Config>)
    modifies configs
    ensures configs[..] == FrozenConfigs(old(configs[..]))
  {
    for i := 0 to configs.Length
      invariant forall j :: 0 <= j < i ==> configs[j] == FrozenConfigs(old(configs[..]))[j]
      invariant forall j :: i <= j < configs.Length ==> configs[j] == old(configs[j])
    {
      if configs[i].group != ARGO_GROUP || configs[i].resource != APPLICATIONS {
        continue;
      }
      configs[i] := configs[i].(strategy := ReadOnly);
    }
    assert configs[..] == FrozenConfigs(old(configs[..]));
  }

  method CheckNeedsReadOnly(w: Work) returns (needed: bool)
    ensures needed <==> NeedsReadOnly(w)
  {
    for i := 0 to |w.configs|
      invariant forall j :: 0 <= j < i ==> !Enforces(w.configs[j])
    {
      if !IsApplications(w.configs[i]) {
        continue;
      }
      if w.configs[i].strategy != ReadOnly {
        assert Enforces(w.configs[i]);
        return true;
      }
    }
    return false;
  }

  datatype Reply = Fine | Conflict | Broken

  const ATTEMPTS := 4

  /**
   The works, and how the API server replies: to the n-th call on each. Others write a work just before an update of it
   conflicts.
   */
  class WorkStore {
    var works: map<WorkKey, Work>
    var updates: nat
    const listed: bool
    const onGet: (WorkKey, nat) -> Reply
    const onUpdate: (WorkKey, nat) -> Reply
    const others: (WorkKey, nat) -> Work

    constructor (works: map<WorkKey, Work>, listed: bool, onGet: (WorkKey, nat) -> Reply,
                 onUpdate: (WorkKey, nat) -> Reply,
                 others: (WorkKey, nat) -> Work)
      ensures this.works == works && updates == 0 && this.listed == listed
      ensures this.onGet == onGet && this.onUpdate == onUpdate && this.others == others
    {
      this.works, updates, this.listed, this.onGet, this.onUpdate, this.others := works, 0, listed, onGet, onUpdate,
      others;
    }

    /** The work after `n` conflicts. */
    function Version(k: WorkKey, w: Work, n: nat): Work {
      if n == 0 then w else others(k, n - 1)
    }

    ghost predicate ConflictsBefore(k: WorkKey, w: Work, n: nat) {
      forall m: nat :: m < n ==> onGet(k, m) == Fine && NeedsReadOnly(Version(k, w, m)) && onUpdate(k, m) == Conflict
    }

    /** Some attempt finds the work frozen or freezes it, after nothing but conflicts. */
    ghost predicate Patchable(k: WorkKey, w: Work) {
      exists n: nat :: PatchedAt(k, w, n)
    }

    ghost predicate PatchedAt(k: WorkKey, w: Work, n: nat) {
      && n < ATTEMPTS && ConflictsBefore(k, w, n) && onGet(k, n) == Fine
      && (onUpdate(k, n) == Fine || !NeedsReadOnly(Version(k, w, n)))
    }

    /** Freezes one work as it is by then, trying again when somebody else has written it in between. */
    method Patch(k: WorkKey) returns (ok: bool, ghost n: nat)
      requires k in works
      modifies this`works, this`updates
      ensures ok <==> Patchable(k, old(works)[k])
      ensures n <= ATTEMPTS && ConflictsBefore(k, old(works)[k], n)
      ensures works == old(works)[k := if ok then Frozen(Version(k, old(works)[k], n))
              else Version(k, old(works)[k], n)]
      ensures updates == old(updates) + if ok && NeedsReadOnly(Version(k, old(works)[k], n)) then 1 else 0
    {
      ghost var w := works[k];
      n := 0;
      for i := 0 to ATTEMPTS
        invariant n == i && ConflictsBefore(k, w, n) && updates == old(updates)
        invariant works == old(works)[k := Version(k, w, n)]
      {
        if onGet(k, i) != Fine {
          return false, n;
        }
        FreezingSettles(works[k]);
        var needed := CheckNeedsReadOnly(works[k]);
        if !needed {
          assert PatchedAt(k, w, n);
          return true, n;
        }
        var reply := onUpdate(k, i);
        if reply == Fine {
          assert PatchedAt(k, w, n);
          FreezeStored(k);
          return true, n;
        }
        if reply == Broken {
          return false, n;
        }
        works := works[k := others(k, i)];
        n := n + 1;
      }
      return false, n;
    }

    method FreezeStored(k: WorkKey)
      requires k in works
      modifies this`works, this`updates
      ensures works == old(works)[k := Frozen(old(works)[k])] && updates == old(updates) + 1
    {
      var configs := works[k].configs;
      var entries := new Config[|configs|](i requires 0 <= i < |configs| => configs[i]);
      assert entries[..] == configs;
      SetReadOnly(entries);
      works := works[k := works[k].(configs := entries[..])];
      updates := updates + 1;
    }

    /**
     What a sweep may make of a work: nothing if it is not recognised, and otherwise some version of it, frozen unless
     calls fail.
     */
    ghost predicate SweptTo(k: WorkKey, w: Work, w': Work) {
      if !IsPullModelManifestWork(w) || !NeedsReadOnly(w) then w' == w
      else exists n: nat :: n <= ATTEMPTS && ConflictsBefore(k, w, n) && w' == if Patchable(k, w)
          then Frozen(Version(k, w, n)) else Version(k, w, n)
    }

    method SweepOne(k: WorkKey)
      requires k in works
      modifies this`works, this`updates
      ensures k in works && works == old(works)[k := works[k]] && SweptTo(k, old(works)[k], works[k])
      ensures NoConflicts() ==> updates == old(updates) + if works[k] == old(works)[k] then 0 else 1
      ensures updates >= old(updates)
    {
      assert old(works)[k := old(works)[k]] == old(works);
      if !IsPullModelManifestWork(works[k]) {
        return;
      }
      var needed := CheckNeedsReadOnly(works[k]);
      if needed {
        FreezingSettles(works[k]);
        var patched, n := Patch(k);
        if NoConflicts() {
          FirstTry(k, old(works)[k], n);
        }
      }
    }

    lemma FirstTry(k: WorkKey, w: Work, n: nat)
      requires NoConflicts() && ConflictsBefore(k, w, n)
      ensures n == 0
    {
      var first: nat := 0;
      var reply := onUpdate(k, first);
      assert first < n ==> reply == Conflict;
    }

    /** The works are listed, and each can be patched. */
    ghost predicate FailureFree(works: map<WorkKey, Work>) {
      listed && forall k :: k in works ==> Patchable(k, works[k])
    }

    ghost predicate NoConflicts() {
      forall k, n {:trigger onUpdate(k, n)} :: onUpdate(k, n) != Conflict
    }

    /** Without conflicts the only version is the listed one. */
    lemma SweptWithoutConflicts(k: WorkKey, w: Work, w': Work)
      requires NoConflicts() && SweptTo(k, w, w')
      ensures w' == w || w' == SweptWork(w)
      ensures Patchable(k, w) ==> w' == SweptWork(w)
    {
      FreezingSettles(w);
      if IsPullModelManifestWork(w) && NeedsReadOnly(w) {
        var n: nat :| n <= ATTEMPTS && ConflictsBefore(k, w, n) && w' == if Patchable(k, w)
            then Frozen(Version(k, w, n)) else Version(k, w, n);
        FirstTry(k, w, n);
      }
    }

    /** Freezes the works it recognises in the list; those it cannot write stay as others leave them. */
    method SweepManifestWorksToReadOnly() returns (ok: bool)
      modifies this`works, this`updates
      ensures ok == listed && works.Keys == old(works).Keys && (!listed ==> works == old(works))
      ensures listed ==> forall k :: k in works ==> SweptTo(k, old(works)[k], works[k])
      ensures FailureFree(old(works)) ==> forall k :: k in works && IsPullModelManifestWork(old(works)[k]) ==>
                !NeedsReadOnly(works[k])
      ensures FailureFree(old(works)) && NoConflicts() ==> works == Swept(old(works))
      ensures NoConflicts() ==> (updates == old(updates) <==> works == old(works))
    {
      if !listed {
        return false;
      }
      var left := works.Keys;
      while left != {}
        invariant left <= works.Keys == old(works).Keys && updates >= old(updates)
        invariant forall k :: k in left ==> works[k] == old(works)[k]
        invariant forall k :: k in works && k !in left ==> SweptTo(k, old(works)[k], works[k])
        invariant NoConflicts() ==> (updates == old(updates) <==> works == old(works))
        decreases left
      {
        var k :| k in left;
        left := left - {k};
        ghost var before := works;
        SweepOne(k);
        StillSame(old(works), before, works, k);
      }
      SweepEnds(old(works), works);
      return true;
    }

    lemma StillSame(start: map<WorkKey, Work>, before: map<WorkKey, Work>, now: map<WorkKey, Work>, k: WorkKey)
      requires k in start && k in before && before[k] == start[k] && k in now && now == before[k := now[k]]
      ensures now == start <==> before == start && now[k] == start[k]
    {
      if before == start && now[k] == start[k] {
        assert start[k := start[k]] == start;
      }
      if now == start {
        assert before == now[k := before[k]];
      }
    }

    lemma SweepEnds(start: map<WorkKey, Work>, end: map<WorkKey, Work>)
      requires end.Keys == start.Keys && forall k :: k in end ==> SweptTo(k, start[k], end[k])
      ensures FailureFree(start) ==> forall k :: k in end && IsPullModelManifestWork(start[k]) ==>
                !NeedsReadOnly(end[k])
      ensures FailureFree(start) && NoConflicts() ==> end == Swept(start)
    {
      if FailureFree(start) {
        forall k | k in end && IsPullModelManifestWork(start[k]) ensures !NeedsReadOnly(end[k]) {
          if NeedsReadOnly(start[k]) {
            var n: nat :| n <= ATTEMPTS && ConflictsBefore(k, start[k], n) && end[k] == Frozen(Version(k, start[k], n));
            FreezingSettles(Version(k, start[k], n));
          }
        }
        if NoConflicts() {
          forall k | k in end ensures end[k] == Swept(start)[k] {
            SweptWithoutConflicts(k, start[k], end[k]);
          }
        }
      }
    }
  }
}
