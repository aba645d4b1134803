/**
 What happens to one hub Application and the ManifestWorks: the edits of users and others, the writes of the
 controller, and what holds in every history of these.
 */
module PropagationHistory {
  import opened Options
  import opened ManifestWorks

  // ---------------------------------------------------------------------------------------------
  // Requests
  // ---------------------------------------------------------------------------------------------

  predicate Asks(request: Option<Request>, issue: nat) {
    request.Some? && request.value.issue == issue
  }

  predicate Pending(app: App, issue: nat) {
    Asks(app.operation, issue) || Asks(app.refresh, issue)
  }

  function Asked(p: Payload): set<nat> {
    (if p.operation.Some? then {p.operation.value.issue} else {})
        + (if p.refresh.Some? then {p.refresh.value.issue} else {})
  }

  /** The requests carried by the Applications among the manifests. */
  function Carried(manifests: seq<Manifest>): set<nat> {
    if manifests == [] then {}
    else
      var last := |manifests| - 1;
      Carried(manifests[..last]) + if manifests[last].AppManifest? then Asked(manifests[last].payload) else {}
  }

  /** An operation that is not an object is not copied into the payload. */
  predicate Unsendable(app: App, issue: nat) {
    Asks(app.operation, issue) && !app.operation.value.isMap && !Asks(app.refresh, issue)
  }

  function Cleared(app: App): App {
    app.(operation := None, refresh := None)
  }

  /**
   Propagation delivers exactly the requests it then clears, but for operations that are not objects: these it only
   clears.
   */
  lemma DeliveredOrUnsendable(app: App, project: Project, hash: string, issue: nat)
    ensures issue in Carried(GenerateManifestWork(app, project, hash).manifests) <==>
              Pending(app, issue) && !Unsendable(app, issue)
    ensures !Pending(Cleared(app), issue)
  {
    var manifests := GenerateManifestWork(app, project, hash).manifests;
    var payload := PayloadOf(app);
    var others := [NamespaceManifest(payload.namespace)]
        + (if Included(project) then [ProjectManifest(project)] else []);
    assert Carried(others) == {} by {
      assert Carried(others[..1]) == {};
    }
    assert manifests == others + [AppManifest(payload)] && manifests[..|others|] == others;
    assert Carried(manifests) == Asked(payload);
  }

  // ---------------------------------------------------------------------------------------------
  // Finalizers
  // ---------------------------------------------------------------------------------------------

  function Without(finalizers: seq<string>, finalizer: string): seq<string> {
    if finalizers == [] then []
    else
      var last := |finalizers| - 1;
      Without(finalizers[..last], finalizer) + if finalizers[last] == finalizer then [] else [finalizers[last]]
  }

  lemma {:induction false} WithoutIsGone(finalizers: seq<string>, finalizer: string)
    ensures forall f :: f in Without(finalizers, finalizer) <==> f in finalizers && f != finalizer
  {
    if finalizers != [] {
      var last := |finalizers| - 1;
      WithoutIsGone(finalizers[..last], finalizer);
      assert finalizers == finalizers[..last] + [finalizers[last]];
    }
  }

  lemma WithoutNext(finalizers: seq<string>, finalizer: string, n: nat)
    requires n < |finalizers|
    ensures Without(finalizers[..n + 1], finalizer) ==
              Without(finalizers[..n], finalizer) + if finalizers[n] == finalizer then [] else [finalizers[n]]
  {
    assert finalizers[..n + 1][..n] == finalizers[..n];
  }

  /** Between what is kept and what is still to come, one element is dropped, or kept. */
  lemma Between<T>(kept: seq<T>, rest: seq<T>)
    requires rest != []
    ensures var f, i := kept + rest, |kept|;
            && f[i] == rest[0]
            && f[..i] + f[i + 1..] == kept + rest[1..]
            && f == (kept + [rest[0]]) + rest[1..]
  {
  }

  /** Removes in place, stepping back after each removal. */
  method RemoveFinalizer(finalizers: seq<string>, finalizer: string) returns (f: seq<string>)
    ensures f == Without(finalizers, finalizer)
  {
    f := finalizers;
    var i := 0;
    ghost var done: nat := 0;
    ghost var kept := [];
    while i < |f|
      invariant done <= |finalizers| && kept == Without(finalizers[..done], finalizer)
      invariant f == kept + finalizers[done..] && i == |kept|
      decreases |f| - i
    {
      WithoutNext(finalizers, finalizer, done);
      Between(kept, finalizers[done..]);
      assert finalizers[done..][1..] == finalizers[done + 1..];
      if f[i] == finalizer {
        f := f[..i] + f[i + 1..];
        i := i - 1;
      } else {
        kept := kept + [f[i]];
      }
      i := i + 1;
      done := done + 1;
    }
    assert finalizers[..done] == finalizers;
  }

  // ---------------------------------------------------------------------------------------------
  // The world, and what others do to it
  // ---------------------------------------------------------------------------------------------

  /**
   The Application, all works, and a ledger of requests: those issued so far are numbered from 0; users have
   withdrawn some, some were written into a work of the Application, some are operations that are not objects.
   Works of the Application are called `own`.
   */
  datatype World = World(app: Option<App>, works: map<WorkKey, Work>, own: string,
                         issues: nat, withdrawn: set<nat>, sent: set<nat>, unsendable: set<nat>)

  datatype Edit =
    | SetOperation(isMap: bool, content: string)
    | ClearOperation
    | SetRefresh(content: string)
    | ClearRefresh
    | Redefine(annotations: map<Annotation, string>, labels: map<Label, string>, spec: Option<Spec>,
               finalizers: seq<string>)
    | Delete
    | Disappear
    | WriteWork(key: WorkKey, work: Work)
    | RemoveWork(key: WorkKey)

  function Touched(app: App): App {
    app.(version := app.version + 1)
  }

  function IssueOf(request: Option<Request>): set<nat> {
    if request.Some? then {request.value.issue} else {}
  }

  function WithOperation(w: World, request: Option<Request>): World {
    if w.app.None? then w
    else
      w.(app := Some(Touched(w.app.value.(operation := request))),
         issues := w.issues + |IssueOf(request)|,
         withdrawn := w.withdrawn + IssueOf(w.app.value.operation),
         unsendable := w.unsendable + if request.Some? && !request.value.isMap then IssueOf(request) else {})
  }

  function WithRefresh(w: World, request: Option<Request>): World {
    if w.app.None? then w
    else
      w.(app := Some(Touched(w.app.value.(refresh := request))),
         issues := w.issues + |IssueOf(request)|,
         withdrawn := w.withdrawn + IssueOf(w.app.value.refresh))
  }

  /** Others write works that are there, marks of deletion aside, and create works under other names. */
  function AfterEdit(w: World, e: Edit): World {
    match e
    case SetOperation(isMap, content) => WithOperation(w, Some(Request(w.issues, isMap, content)))
    case ClearOperation => WithOperation(w, None)
    case SetRefresh(content) => WithRefresh(w, Some(Request(w.issues, true, content)))
    case ClearRefresh => WithRefresh(w, None)
    case Redefine(annotations, labels, spec, finalizers) =>
      if w.app.None? then w
      else w.(app := Some(Touched(w.app.value.(annotations := annotations, labels := labels, spec := spec,
                                               finalizers := finalizers))))
    case Delete => if w.app.None? then w else w.(app := Some(Touched(w.app.value.(deleting := true))))
    case Disappear => w.(app := None)
    case WriteWork(key, work) =>
      if key in w.works then w.(works := w.works[key := work.(deleting := w.works[key].deleting)])
      else if key.name == w.own then w
      else w.(works := w.works[key := work.(deleting := false)])
    case RemoveWork(key) => w.(works := w.works - {key})
  }

  function AfterEdits(w: World, edits: seq<Edit>): World {
    if edits == [] then w else AfterEdit(AfterEdits(w, edits[..|edits| - 1]), edits[|edits| - 1])
  }

  predicate Live(works: map<WorkKey, Work>, key: WorkKey) {
    key in works && !works[key].deleting
  }

  /** A later state of the Application: a different version, or the very same. */
  ghost predicate Later(s: Option<App>, t: Option<App>) {
    match (s, t)
    case (None, _) => t.None?
    case (Some(a), Some(b)) => b.version >= a.version && (b.version == a.version ==> b == a)
    case (Some(_), None) => true
  }

  /** What others cannot do: go back to an earlier version, bring a work of the Application back, or send requests. */
  ghost predicate Onward(w: World, v: World) {
    && Later(w.app, v.app) && v.sent == w.sent && v.own == w.own
    && (forall k: WorkKey :: k.name == w.own && Live(v.works, k) ==> Live(w.works, k))
  }

  lemma EditOnward(w: World, e: Edit)
    ensures Onward(w, AfterEdit(w, e))
  {
  }

  lemma {:induction false} EditsOnward(w: World, edits: seq<Edit>)
    ensures Onward(w, AfterEdits(w, edits))
  {
    if edits != [] {
      EditsOnward(w, edits[..|edits| - 1]);
      EditOnward(AfterEdits(w, edits[..|edits| - 1]), edits[|edits| - 1]);
    }
  }

  // ---------------------------------------------------------------------------------------------
  // Histories
  // ---------------------------------------------------------------------------------------------

  function KeyOf(app: App): WorkKey {
    WorkKey(Get(app.annotations, ManagedCluster).GetOr(""), GenerateManifestWorkName(app.name, app.uid))
  }

  /** What happens, one thing after the other; `app` of a written work is the Application it was generated from. */
  datatype Moment =
    | OthersActed(edits: seq<Edit>)
    | WorkWritten(app: App, project: Project, hash: string)
    | WorkDeleted(key: WorkKey)
    | AppWritten(before: App, after: App)
    | WorksSwept(works: map<WorkKey, Work>)

  /** A work others have finalizers on stays when deleted, marked; an Application without finalizers goes. */
  function After(w: World, m: Moment): World {
    match m
    case OthersActed(edits) => AfterEdits(w, edits)
    case WorkWritten(app, project, hash) =>
      var work, key := GenerateManifestWork(app, project, hash), KeyOf(app);
      w.(works := w.works[key := work.(deleting := key in w.works && w.works[key].deleting)],
         sent := w.sent + Carried(work.manifests))
    case WorkDeleted(key) =>
      if key in w.works then w.(works := w.works[key := w.works[key].(deleting := true)]) else w
    case AppWritten(_, after) =>
      w.(app := if after.deleting && after.finalizers == [] then None else Some(Touched(after)))
    case WorksSwept(works) => w.(works := works)
  }

  /** Requests are cleared once sent; the finalizer goes once the work is gone or on its way out. */
  ghost predicate Entitled(w: World, before: App, after: App) {
    && (forall i :: Pending(before, i) && !Pending(after, i) ==> i in w.sent || Unsendable(before, i))
    && (after.operation.Some? ==> after.operation == before.operation)
    && (after.refresh.Some? ==> after.refresh == before.refresh)
    && (after.finalizers == before.finalizers
        || (before.deleting && after.finalizers == Without(before.finalizers, RESOURCES_FINALIZER)
            && !Live(w.works, KeyOf(before))))
    && after == before.(finalizers := after.finalizers, operation := after.operation, refresh := after.refresh,
                        spec := after.spec)
  }

  /** What the controller may do: write and delete works of the Application, and write the Application as it is now. */
  ghost predicate Lawful(w: World, m: Moment) {
    match m
    case OthersActed(_) => true
    case WorkWritten(app, _, _) => KeyOf(app).name == w.own
    case WorkDeleted(key) => key in w.works && key.name == w.own
    case AppWritten(before, after) => w.app == Some(before) && Entitled(w, before, after)
    case WorksSwept(works) =>
      && works.Keys == w.works.Keys
      && forall k :: k in works && !IsPullModelManifestWork(w.works[k]) ==> works[k] == w.works[k]
  }

  function Replay(origin: World, trace: seq<Moment>): World {
    if trace == [] then origin else After(Replay(origin, trace[..|trace| - 1]), trace[|trace| - 1])
  }

  ghost predicate LawfulTrace(origin: World, trace: seq<Moment>) {
    trace == []
    || (LawfulTrace(origin, trace[..|trace| - 1])
        && Lawful(Replay(origin, trace[..|trace| - 1]), trace[|trace| - 1]))
  }

  /** The edits of others in a history, batch by batch. */
  function OthersOf(trace: seq<Moment>): seq<seq<Edit>> {
    if trace == [] then []
    else
      var m := trace[|trace| - 1];
      OthersOf(trace[..|trace| - 1]) + if m.OthersActed? then [m.edits] else []
  }

  /** What the controller did in a history, in order. */
  function OwnOf(trace: seq<Moment>): seq<Moment> {
    if trace == [] then []
    else
      var m := trace[|trace| - 1];
      OwnOf(trace[..|trace| - 1]) + if m.OthersActed? then [] else [m]
  }

  lemma Next(origin: World, trace: seq<Moment>, m: Moment)
    ensures Replay(origin, trace + [m]) == After(Replay(origin, trace), m)
    ensures LawfulTrace(origin, trace + [m]) <==> LawfulTrace(origin, trace) && Lawful(Replay(origin, trace), m)
    ensures OthersOf(trace + [m]) == OthersOf(trace) + if m.OthersActed? then [m.edits] else []
    ensures OwnOf(trace + [m]) == OwnOf(trace) + if m.OthersActed? then [] else [m]
  {
    assert (trace + [m])[..|trace + [m]| - 1] == trace;
  }

  // ---------------------------------------------------------------------------------------------
  // No request is lost
  // ---------------------------------------------------------------------------------------------

  ghost predicate IsPending(w: World, issue: nat) {
    w.app.Some? && Pending(w.app.value, issue)
  }

  /**
   Each request issued is still on the Application, was sent, or was withdrawn, unless it could not be sent or the
   Application is gone.
   */
  ghost predicate NothingLost(w: World) {
    forall i: nat :: i < w.issues && w.app.Some? ==>
                       IsPending(w, i) || i in w.sent || i in w.withdrawn || i in w.unsendable
  }

  /** Pending requests are numbered, and the ledger knows the operations that are not objects. */
  ghost predicate Numbered(w: World) {
    w.app.Some? ==>
      && GenerateManifestWorkName(w.app.value.name, w.app.value.uid) == w.own
      && (w.app.value.refresh.Some? ==> w.app.value.refresh.value.issue < w.issues)
      && (w.app.value.operation.Some? ==>
            && w.app.value.operation.value.issue < w.issues
            && (w.app.value.operation.value.isMap || w.app.value.operation.value.issue in w.unsendable))
  }

  ghost predicate Tallied(w: World) {
    NothingLost(w) && Numbered(w)
  }

  lemma EditTallied(w: World, e: Edit)
    requires Tallied(w)
    ensures Tallied(AfterEdit(w, e))
  {
  }

  lemma {:induction false} EditsTallied(w: World, edits: seq<Edit>)
    requires Tallied(w)
    ensures Tallied(AfterEdits(w, edits))
  {
    if edits != [] {
      EditsTallied(w, edits[..|edits| - 1]);
      EditTallied(AfterEdits(w, edits[..|edits| - 1]), edits[|edits| - 1]);
    }
  }

  lemma MomentTallied(w: World, m: Moment)
    requires Tallied(w) && Lawful(w, m)
    ensures Tallied(After(w, m))
  {
    match m {
      case OthersActed(edits) => EditsTallied(w, edits);
      case AppWritten(before, after) =>
        if After(w, m).app.Some? {
          forall i: nat | i < w.issues
            ensures IsPending(After(w, m), i) || i in w.sent || i in w.withdrawn || i in w.unsendable
          {
            assert Pending(before, i) && !Pending(after, i) ==> i in w.sent || Unsendable(before, i);
          }
        }
      case _ =>
    }
  }

  /** In every lawful history no request is lost. */
  lemma {:induction false} HistoryLosesNothing(origin: World, trace: seq<Moment>)
    requires Tallied(origin) && LawfulTrace(origin, trace)
    ensures Tallied(Replay(origin, trace))
  {
    if trace != [] {
      HistoryLosesNothing(origin, trace[..|trace| - 1]);
      MomentTallied(Replay(origin, trace[..|trace| - 1]), trace[|trace| - 1]);
    }
  }

  // ---------------------------------------------------------------------------------------------
  // What the ledger means
  // ---------------------------------------------------------------------------------------------

  /** The edit replaces or withdraws the request. */
  predicate TakesBack(w: World, e: Edit, issue: nat) {
    && w.app.Some?
    && if e.SetOperation? || e.ClearOperation? then Asks(w.app.value.operation, issue)
       else (e.SetRefresh? || e.ClearRefresh?) && Asks(w.app.value.refresh, issue)
  }

  /** The edit issues the request, as an operation that is not an object. */
  predicate IssuesUnsendable(w: World, e: Edit, issue: nat) {
    w.app.Some? && e.SetOperation? && !e.isMap && issue == w.issues
  }

  ghost predicate TakesBackAt(w: World, edits: seq<Edit>, j: nat, issue: nat)
    requires j < |edits|
  {
    TakesBack(AfterEdits(w, edits[..j]), edits[j], issue)
  }

  ghost predicate IssuesUnsendableAt(w: World, edits: seq<Edit>, j: nat, issue: nat)
    requires j < |edits|
  {
    IssuesUnsendable(AfterEdits(w, edits[..j]), edits[j], issue)
  }

  ghost predicate TakenBackBy(w: World, edits: seq<Edit>, issue: nat) {
    exists j: nat :: j < |edits| && TakesBackAt(w, edits, j, issue)
  }

  ghost predicate UnsendableBy(w: World, edits: seq<Edit>, issue: nat) {
    exists j: nat :: j < |edits| && IssuesUnsendableAt(w, edits, j, issue)
  }

  lemma EditLedger(w: World, e: Edit, issue: nat)
    ensures var v := AfterEdit(w, e);
            && (issue in v.withdrawn <==> issue in w.withdrawn || TakesBack(w, e, issue))
            && (issue in v.unsendable <==> issue in w.unsendable || IssuesUnsendable(w, e, issue))
  {
  }

  lemma {:induction false} EditsLedger(w: World, edits: seq<Edit>, issue: nat)
    ensures issue in AfterEdits(w, edits).withdrawn <==> issue in w.withdrawn || TakenBackBy(w, edits, issue)
    ensures issue in AfterEdits(w, edits).unsendable <==> issue in w.unsendable || UnsendableBy(w, edits, issue)
  {
    if edits != [] {
      var n: nat := |edits| - 1;
      EditsLedger(w, edits[..n], issue);
      EditLedger(AfterEdits(w, edits[..n]), edits[n], issue);
      TakenBackByNext(w, edits, n, issue);
      UnsendableByNext(w, edits, n, issue);
    }
  }

  lemma TakenBackByNext(w: World, edits: seq<Edit>, n: nat, issue: nat)
    requires |edits| == n + 1
    ensures TakenBackBy(w, edits, issue) <==>
              TakenBackBy(w, edits[..n], issue) || TakesBackAt(w, edits, n, issue)
  {
    forall j: nat | j < n ensures TakesBackAt(w, edits[..n], j, issue) == TakesBackAt(w, edits, j, issue) {
      assert edits[..n][..j] == edits[..j];
    }
  }

  lemma UnsendableByNext(w: World, edits: seq<Edit>, n: nat, issue: nat)
    requires |edits| == n + 1
    ensures UnsendableBy(w, edits, issue) <==>
              UnsendableBy(w, edits[..n], issue) || IssuesUnsendableAt(w, edits, n, issue)
  {
    forall j: nat | j < n
      ensures IssuesUnsendableAt(w, edits[..n], j, issue) == IssuesUnsendableAt(w, edits, j, issue)
    {
      assert edits[..n][..j] == edits[..j];
    }
  }

  /** At this moment users replaced or withdrew the request. */
  ghost predicate TakenBackAt(origin: World, trace: seq<Moment>, p: nat, issue: nat)
    requires p < |trace|
  {
    trace[p].OthersActed? && TakenBackBy(Replay(origin, trace[..p]), trace[p].edits, issue)
  }

  /** At this moment a user issued the request as an operation that is not an object. */
  ghost predicate UnsendableAt(origin: World, trace: seq<Moment>, p: nat, issue: nat)
    requires p < |trace|
  {
    trace[p].OthersActed? && UnsendableBy(Replay(origin, trace[..p]), trace[p].edits, issue)
  }

  /** At this moment a work was written that carries the request. */
  predicate SentAt(trace: seq<Moment>, p: nat, issue: nat)
    requires p < |trace|
  {
    && trace[p].WorkWritten?
    && issue in Carried(GenerateManifestWork(trace[p].app, trace[p].project, trace[p].hash).manifests)
  }

  ghost predicate EverTakenBack(origin: World, trace: seq<Moment>, issue: nat) {
    exists p: nat :: p < |trace| && TakenBackAt(origin, trace, p, issue)
  }

  ghost predicate EverUnsendable(origin: World, trace: seq<Moment>, issue: nat) {
    exists p: nat :: p < |trace| && UnsendableAt(origin, trace, p, issue)
  }

  ghost predicate EverSent(trace: seq<Moment>, issue: nat) {
    exists p: nat :: p < |trace| && SentAt(trace, p, issue)
  }

  /** A request has been withdrawn exactly if users took it back at some moment. */
  lemma {:induction false} WithdrawnIsHistory(origin: World, trace: seq<Moment>, issue: nat)
    ensures issue in Replay(origin, trace).withdrawn <==>
              issue in origin.withdrawn || EverTakenBack(origin, trace, issue)
  {
    if trace != [] {
      var n: nat := |trace| - 1;
      WithdrawnIsHistory(origin, trace[..n], issue);
      MomentWithdraws(Replay(origin, trace[..n]), trace[n], issue);
      EverTakenBackNext(origin, trace, n, issue);
    }
  }

  /** An operation could not be sent exactly if a user issued it as something other than an object. */
  lemma {:induction false} UnsendableIsHistory(origin: World, trace: seq<Moment>, issue: nat)
    ensures issue in Replay(origin, trace).unsendable <==>
              issue in origin.unsendable || EverUnsendable(origin, trace, issue)
  {
    if trace != [] {
      var n: nat := |trace| - 1;
      UnsendableIsHistory(origin, trace[..n], issue);
      MomentIssuesUnsendable(Replay(origin, trace[..n]), trace[n], issue);
      EverUnsendableNext(origin, trace, n, issue);
    }
  }

  /** A request has been sent exactly if a work was written that carries it. */
  lemma {:induction false} SentIsHistory(origin: World, trace: seq<Moment>, issue: nat)
    ensures issue in Replay(origin, trace).sent <==> issue in origin.sent || EverSent(trace, issue)
  {
    if trace != [] {
      var n: nat := |trace| - 1;
      SentIsHistory(origin, trace[..n], issue);
      MomentSends(Replay(origin, trace[..n]), trace[n], issue);
      EverSentNext(trace, n, issue);
    }
  }

  lemma MomentWithdraws(w: World, m: Moment, issue: nat)
    ensures issue in After(w, m).withdrawn <==>
              issue in w.withdrawn || (m.OthersActed? && TakenBackBy(w, m.edits, issue))
  {
    if m.OthersActed? {
      EditsLedger(w, m.edits, issue);
    }
  }

  lemma MomentIssuesUnsendable(w: World, m: Moment, issue: nat)
    ensures issue in After(w, m).unsendable <==>
              issue in w.unsendable || (m.OthersActed? && UnsendableBy(w, m.edits, issue))
  {
    if m.OthersActed? {
      EditsLedger(w, m.edits, issue);
    }
  }

  lemma MomentSends(w: World, m: Moment, issue: nat)
    ensures issue in After(w, m).sent <==>
              || issue in w.sent
              || (m.WorkWritten? && issue in Carried(GenerateManifestWork(m.app, m.project, m.hash).manifests))
  {
    if m.OthersActed? {
      EditsOnward(w, m.edits);
    }
  }

  lemma EverTakenBackNext(origin: World, trace: seq<Moment>, n: nat, issue: nat)
    requires |trace| == n + 1
    ensures EverTakenBack(origin, trace, issue) <==>
              EverTakenBack(origin, trace[..n], issue) || TakenBackAt(origin, trace, n, issue)
  {
    forall p: nat | p < n ensures TakenBackAt(origin, trace[..n], p, issue) == TakenBackAt(origin, trace, p, issue) {
      assert trace[..n][..p] == trace[..p];
    }
  }

  lemma EverUnsendableNext(origin: World, trace: seq<Moment>, n: nat, issue: nat)
    requires |trace| == n + 1
    ensures EverUnsendable(origin, trace, issue) <==>
              EverUnsendable(origin, trace[..n], issue) || UnsendableAt(origin, trace, n, issue)
  {
    forall p: nat | p < n ensures UnsendableAt(origin, trace[..n], p, issue) == UnsendableAt(origin, trace, p, issue) {
      assert trace[..n][..p] == trace[..p];
    }
  }

  lemma EverSentNext(trace: seq<Moment>, n: nat, issue: nat)
    requires |trace| == n + 1
    ensures EverSent(trace, issue) <==> EverSent(trace[..n], issue) || SentAt(trace, n, issue)
  {
    forall p: nat | p < n ensures SentAt(trace[..n], p, issue) == SentAt(trace, p, issue) {
    }
  }

  /** The request has a known fate, or was settled before the start. */
  ghost predicate AccountedFor(origin: World, trace: seq<Moment>, issue: nat) {
    || IsPending(Replay(origin, trace), issue)
    || EverSent(trace, issue)
    || EverTakenBack(origin, trace, issue)
    || EverUnsendable(origin, trace, issue)
    || issue in origin.withdrawn || issue in origin.sent || issue in origin.unsendable
  }

  /**
   Each request is still on the Application, or a work was written that carries it, or users took it back, unless it
   was an operation that is not an object, or was settled before the start, or the Application is gone.
   */
  lemma EveryRequestIsAccountedFor(origin: World, trace: seq<Moment>, issue: nat)
    requires Tallied(origin) && LawfulTrace(origin, trace)
    requires issue < Replay(origin, trace).issues && Replay(origin, trace).app.Some?
    ensures AccountedFor(origin, trace, issue)
  {
    HistoryLosesNothing(origin, trace);
    WithdrawnIsHistory(origin, trace, issue);
    UnsendableIsHistory(origin, trace, issue);
    SentIsHistory(origin, trace, issue);
  }

  predicate SameRequests(w: World, v: World) {
    v.issues == w.issues && v.withdrawn == w.withdrawn && v.unsendable == w.unsendable
  }

  /** Only users issue and withdraw requests: without others the controller can do no more than send them. */
  lemma {:induction false} OnlyUsersWithdraw(origin: World, trace: seq<Moment>)
    requires forall batch :: batch in OthersOf(trace) ==> batch == []
    ensures SameRequests(origin, Replay(origin, trace))
  {
    if trace != [] {
      var n := |trace| - 1;
      assert forall batch :: batch in OthersOf(trace[..n]) ==> batch in OthersOf(trace);
      OnlyUsersWithdraw(origin, trace[..n]);
      assert trace[n].OthersActed? ==> trace[n].edits in OthersOf(trace);
    }
  }

  // ---------------------------------------------------------------------------------------------
  // Frozen works
  // ---------------------------------------------------------------------------------------------

  /** The moment may change more of the work than its mark of deletion. */
  predicate Rewrites(m: Moment, k: WorkKey) {
    match m
    case WorkWritten(app, _, _) => KeyOf(app) == k
    case OthersActed(edits) => exists e :: e in edits && e.WriteWork? && e.key == k
    case WorksSwept(_) => true
    case _ => false
  }

  /** The work is gone, or as before but for its mark of deletion. */
  ghost predicate SameWork(w: World, v: World, k: WorkKey) {
    k in v.works ==> k in w.works && v.works[k] == w.works[k].(deleting := v.works[k].deleting)
  }

  lemma EditKeepsWork(w: World, e: Edit, k: WorkKey)
    requires e.WriteWork? ==> e.key != k
    ensures SameWork(w, AfterEdit(w, e), k)
  {
  }

  lemma SameWorkOnward(u: World, v: World, w: World, k: WorkKey)
    requires SameWork(u, v, k) && SameWork(v, w, k)
    ensures SameWork(u, w, k)
  {
  }

  lemma {:induction false} EditsKeepWork(w: World, edits: seq<Edit>, k: WorkKey)
    requires forall e :: e in edits && e.WriteWork? ==> e.key != k
    ensures SameWork(w, AfterEdits(w, edits), k)
  {
    if edits != [] {
      var n := |edits| - 1;
      assert edits[n] in edits && forall e :: e in edits[..n] ==> e in edits;
      EditsKeepWork(w, edits[..n], k);
      EditKeepsWork(AfterEdits(w, edits[..n]), edits[n], k);
      SameWorkOnward(w, AfterEdits(w, edits[..n]), AfterEdits(w, edits), k);
    }
  }

  /** A work nobody rewrites stays frozen, or enforcing, as it is. */
  lemma {:induction false} WorkStays(origin: World, trace: seq<Moment>, k: WorkKey)
    requires forall p :: 0 <= p < |trace| ==> !Rewrites(trace[p], k)
    ensures SameWork(origin, Replay(origin, trace), k)
    ensures k in Replay(origin, trace).works ==>
              k in origin.works && NeedsReadOnly(Replay(origin, trace).works[k]) == NeedsReadOnly(origin.works[k])
  {
    if trace != [] {
      var n := |trace| - 1;
      assert forall p :: 0 <= p < n ==> trace[..n][p] == trace[p];
      WorkStays(origin, trace[..n], k);
      assert !Rewrites(trace[n], k);
      if trace[n].OthersActed? {
        EditsKeepWork(Replay(origin, trace[..n]), trace[n].edits, k);
      }
    }
  }

  /** Propagating to a work makes it enforce its payload, frozen or not before, until somebody rewrites it. */
  lemma PropagationThaws(origin: World, app: App, project: Project, hash: string, rest: seq<Moment>)
    requires forall p :: 0 <= p < |rest| ==> !Rewrites(rest[p], KeyOf(app))
    ensures var end := Replay(After(origin, WorkWritten(app, project, hash)), rest);
            KeyOf(app) in end.works ==>
              NeedsReadOnly(end.works[KeyOf(app)]) && IsPullModelManifestWork(end.works[KeyOf(app)])
  {
    var written := After(origin, WorkWritten(app, project, hash));
    var k, work := KeyOf(app), GenerateManifestWork(app, project, hash);
    GeneratedIsRecognised(app, project, hash);
    WorkStays(written, rest, k);
    var marked := written.works[k];
    assert marked.configs == work.configs && NeedsReadOnly(marked) by {
      var i :| 0 <= i < |work.configs| && Enforces(work.configs[i]);
      assert Enforces(marked.configs[i]);
    }
  }

  // ---------------------------------------------------------------------------------------------
  // Works left behind
  // ---------------------------------------------------------------------------------------------

  /** The moment may take the work away, or mark it as being deleted. */
  predicate Removes(m: Moment, k: WorkKey) {
    match m
    case WorkDeleted(key) => key == k
    case OthersActed(edits) => exists e :: e in edits && e == RemoveWork(k)
    case WorksSwept(_) => true
    case _ => false
  }

  lemma {:induction false} EditsKeepLive(w: World, edits: seq<Edit>, k: WorkKey)
    requires RemoveWork(k) !in edits && Live(w.works, k)
    ensures Live(AfterEdits(w, edits).works, k)
  {
    if edits != [] {
      var n := |edits| - 1;
      assert edits[n] in edits && forall e :: e in edits[..n] ==> e in edits;
      EditsKeepLive(w, edits[..n], k);
    }
  }

  /**
   A work stays unless it is removed under its own key. The controller removes works under the key of the Application
   as it is then: one that has been retargeted leaves the work under its earlier target behind for good.
   */
  lemma {:induction false} WorkStaysBehind(origin: World, trace: seq<Moment>, k: WorkKey)
    requires Live(origin.works, k) && forall p :: 0 <= p < |trace| ==> !Removes(trace[p], k)
    ensures Live(Replay(origin, trace).works, k)
  {
    if trace != [] {
      var n := |trace| - 1;
      assert forall p :: 0 <= p < n ==> trace[..n][p] == trace[p];
      WorkStaysBehind(origin, trace[..n], k);
      assert !Removes(trace[n], k);
      if trace[n].OthersActed? {
        EditsKeepLive(Replay(origin, trace[..n]), trace[n].edits, k);
      }
    }
  }
}
