/**
 One reconcile of a GitOpsCluster from start to end: which steps it takes, where it gives up, and what
 its conditions say afterwards. The work of each step is reduced to whether it succeeds.
 */
module GitOpsClusterReconcile {
  import opened Options
  import opened GitOpsClusterConditions

  datatype WriteResult = Written | ObjectGone | WriteFailed

  /** How a reconcile ends: at its end, at a failed step, or because the object has disappeared. */
  datatype Exit = Completed | FinalWriteFailed | Errored | Abandoned

  datatype PolicyOutcome = PolicyCreated | PolicySkipped | PolicyFailed

  /** Which steps succeed. */
  datatype Environment = Environment(
    specValid: bool, policyTemplate: bool, namespaceAuthorized: bool, argoServerFound: bool, configMaps: bool,
    rbac: bool,
    placement: bool,
    redisSecret: bool, jwtSecret: bool, caCertificate: bool, principalCertificate: bool, proxyCertificate: bool,
    endpointConfigured: bool, discovery: bool, endpointFilled: bool,
    addonRBAC: bool, addonTemplate: bool, selectsLocalCluster: bool, policy: PolicyOutcome, deploymentConfigs: bool,
    addons: bool,
    finalCACertificate: bool, registration: bool, caPropagation: bool)

  predicate PreparationSucceeds(env: Environment) {
    env.specValid && env.namespaceAuthorized && env.argoServerFound && env.placement
  }

  predicate AgentSucceeds(env: Environment) {
    && env.redisSecret && env.jwtSecret && env.caCertificate && env.principalCertificate && env.proxyCertificate
    && (env.endpointConfigured || (env.discovery && env.endpointFilled))
  }

  predicate AddonSucceeds(spec: Spec, env: Environment) {
    && (spec.agentEnabled ==> env.addonRBAC && env.addonTemplate)
    && !env.selectsLocalCluster && !env.policy.PolicyFailed? && env.deploymentConfigs && env.addons
  }

  predicate RegistrationSucceeds(spec: Spec, env: Environment) {
    && (spec.agentEnabled ==> env.finalCACertificate) && env.registration
    && (spec.agentEnabled && !spec.skipHubCAPropagation ==> env.caPropagation)
  }

  predicate Succeeds(spec: Spec, env: Environment) {
    && PreparationSucceeds(env)
    && (spec.agentEnabled ==> AgentSucceeds(env))
    && (spec.addonEnabled ==> AddonSucceeds(spec, env))
    && RegistrationSucceeds(spec, env)
  }

  function Passed(b: bool): Status {
    if b then IsTrue else IsFalse
  }

  type Mark = Option<Status>

  /** The statuses of all conditions but Ready. */
  datatype Board = Board(
    placementResolved: Mark, argoServerVerified: Mark, applicationSetResourcesReady: Mark, policyTemplateReady: Mark,
    clustersRegistered: Mark,
    addOnTemplateReady: Mark, addOnDeploymentConfigsReady: Mark, managedClusterAddOnsReady: Mark,
    agentPrereqsReady: Mark, gitOpsAddonPrereqsReady: Mark,
    certificatesReady: Mark, manifestWorksApplied: Mark, olmSubscriptionReady: Mark, argoCDPolicyReady: Mark)

  function BoardOf(view: View): Board {
    Board(
      StatusOf(view, PlacementResolved), StatusOf(view, ArgoServerVerified),
      StatusOf(view, ApplicationSetResourcesReady),
      StatusOf(view, PolicyTemplateReady), StatusOf(view, ClustersRegistered), StatusOf(view, AddOnTemplateReady),
      StatusOf(view, AddOnDeploymentConfigsReady), StatusOf(view, ManagedClusterAddOnsReady),
      StatusOf(view, ArgoCDAgentPrereqsReady),
      StatusOf(view, GitOpsAddonPrereqsReady), StatusOf(view, CertificatesReady), StatusOf(view, ManifestWorksApplied),
      StatusOf(view, OLMSubscriptionReady), StatusOf(view, ArgoCDPolicyReady))
  }

  function At(b: Board, kind: ConditionType): Mark
    requires kind != Ready
  {
    match kind
    case PlacementResolved => b.placementResolved
    case ArgoServerVerified => b.argoServerVerified
    case ApplicationSetResourcesReady => b.applicationSetResourcesReady
    case PolicyTemplateReady => b.policyTemplateReady
    case ClustersRegistered => b.clustersRegistered
    case AddOnTemplateReady => b.addOnTemplateReady
    case AddOnDeploymentConfigsReady => b.addOnDeploymentConfigsReady
    case ManagedClusterAddOnsReady => b.managedClusterAddOnsReady
    case ArgoCDAgentPrereqsReady => b.agentPrereqsReady
    case GitOpsAddonPrereqsReady => b.gitOpsAddonPrereqsReady
    case CertificatesReady => b.certificatesReady
    case ManifestWorksApplied => b.manifestWorksApplied
    case OLMSubscriptionReady => b.olmSubscriptionReady
    case ArgoCDPolicyReady => b.argoCDPolicyReady
  }

  function Put(b: Board, kind: ConditionType, mark: Mark): Board {
    match kind
    case Ready => b
    case PlacementResolved => b.(placementResolved := mark)
    case ArgoServerVerified => b.(argoServerVerified := mark)
    case ApplicationSetResourcesReady => b.(applicationSetResourcesReady := mark)
    case PolicyTemplateReady => b.(policyTemplateReady := mark)
    case ClustersRegistered => b.(clustersRegistered := mark)
    case AddOnTemplateReady => b.(addOnTemplateReady := mark)
    case AddOnDeploymentConfigsReady => b.(addOnDeploymentConfigsReady := mark)
    case ManagedClusterAddOnsReady => b.(managedClusterAddOnsReady := mark)
    case ArgoCDAgentPrereqsReady => b.(agentPrereqsReady := mark)
    case GitOpsAddonPrereqsReady => b.(gitOpsAddonPrereqsReady := mark)
    case CertificatesReady => b.(certificatesReady := mark)
    case ManifestWorksApplied => b.(manifestWorksApplied := mark)
    case OLMSubscriptionReady => b.(olmSubscriptionReady := mark)
    case ArgoCDPolicyReady => b.(argoCDPolicyReady := mark)
  }

  function Or(mark: Mark, otherwise: Mark): Mark {
    if mark.Some? then mark else otherwise
  }

  /** The board `b` with what `updates` says written over it. */
  function Override(b: Board, updates: Board): Board {
    Board(
      Or(updates.placementResolved, b.placementResolved), Or(updates.argoServerVerified, b.argoServerVerified),
      Or(updates.applicationSetResourcesReady, b.applicationSetResourcesReady),
      Or(updates.policyTemplateReady, b.policyTemplateReady),
      Or(updates.clustersRegistered, b.clustersRegistered), Or(updates.addOnTemplateReady, b.addOnTemplateReady),
      Or(updates.addOnDeploymentConfigsReady, b.addOnDeploymentConfigsReady),
      Or(updates.managedClusterAddOnsReady, b.managedClusterAddOnsReady),
      Or(updates.agentPrereqsReady, b.agentPrereqsReady),
      Or(updates.gitOpsAddonPrereqsReady, b.gitOpsAddonPrereqsReady),
      Or(updates.certificatesReady, b.certificatesReady), Or(updates.manifestWorksApplied, b.manifestWorksApplied),
      Or(updates.olmSubscriptionReady, b.olmSubscriptionReady), Or(updates.argoCDPolicyReady, b.argoCDPolicyReady))
  }

  lemma BoardAt(view: View, kind: ConditionType)
    requires kind != Ready
    ensures At(BoardOf(view), kind) == StatusOf(view, kind)
  {
  }

  predicate AnyFailed(b: Board) {
    || b.placementResolved == Some(IsFalse) || b.argoServerVerified == Some(IsFalse)
    || b.applicationSetResourcesReady == Some(IsFalse)
    || b.policyTemplateReady == Some(IsFalse) || b.clustersRegistered == Some(IsFalse)
    || b.addOnTemplateReady == Some(IsFalse)
    || b.addOnDeploymentConfigsReady == Some(IsFalse) || b.managedClusterAddOnsReady == Some(IsFalse)
    || b.agentPrereqsReady == Some(IsFalse)
    || b.gitOpsAddonPrereqsReady == Some(IsFalse) || b.certificatesReady == Some(IsFalse)
    || b.manifestWorksApplied == Some(IsFalse)
    || b.olmSubscriptionReady == Some(IsFalse) || b.argoCDPolicyReady == Some(IsFalse)
  }

  /** The marks that must be True. */
  predicate AllNeededTrue(b: Board, spec: Spec) {
    && b.placementResolved == Some(IsTrue) && b.argoServerVerified == Some(IsTrue)
    && b.clustersRegistered == Some(IsTrue)
    && b.applicationSetResourcesReady != Some(IsFalse) && b.policyTemplateReady != Some(IsFalse)
    && (spec.addonEnabled ==>
          && b.addOnDeploymentConfigsReady == Some(IsTrue) && b.managedClusterAddOnsReady == Some(IsTrue)
          && b.argoCDPolicyReady == Some(IsTrue))
    && (spec.OlmSubscriptionEnabled() ==> b.olmSubscriptionReady == Some(IsTrue))
    && (spec.agentEnabled ==>
          && b.addOnTemplateReady == Some(IsTrue) && b.agentPrereqsReady == Some(IsTrue)
          && b.certificatesReady == Some(IsTrue))
    && (spec.agentEnabled && !spec.skipHubCAPropagation ==> b.manifestWorksApplied == Some(IsTrue))
  }

  /** Ready as a function of all the other statuses. */
  function ReadyOf(b: Board, spec: Spec): Status {
    if AnyFailed(b) then IsFalse else if AllNeededTrue(b, spec) then IsTrue else IsUnknown
  }

  /** Unknown when absent. */
  function Init(mark: Mark): Mark {
    Or(mark, Some(IsUnknown))
  }

  function InitIf(b: bool, mark: Mark): Mark {
    if b then Init(mark) else mark
  }

  function Initialized(b: Board, spec: Spec): Board {
    InitializedOptional(
      b.(placementResolved := Init(b.placementResolved), argoServerVerified := Init(b.argoServerVerified),
         applicationSetResourcesReady := Init(b.applicationSetResourcesReady),
         policyTemplateReady := Init(b.policyTemplateReady),
         clustersRegistered := Init(b.clustersRegistered)), spec)
  }

  function InitializedOptional(b: Board, spec: Spec): Board {
    b.(addOnDeploymentConfigsReady := InitIf(spec.addonEnabled, b.addOnDeploymentConfigsReady),
       managedClusterAddOnsReady := InitIf(spec.addonEnabled, b.managedClusterAddOnsReady),
       argoCDPolicyReady := InitIf(spec.addonEnabled, b.argoCDPolicyReady),
       olmSubscriptionReady := InitIf(spec.OlmSubscriptionEnabled(), b.olmSubscriptionReady),
       addOnTemplateReady := InitIf(spec.agentEnabled, b.addOnTemplateReady),
       agentPrereqsReady := InitIf(spec.agentEnabled, b.agentPrereqsReady),
       certificatesReady := InitIf(spec.agentEnabled, b.certificatesReady),
       manifestWorksApplied := InitIf(spec.agentEnabled && !spec.skipHubCAPropagation, b.manifestWorksApplied))
  }

  const TRUE := Some(IsTrue)

  function Checked(b: Board, env: Environment): Board {
    b.(argoServerVerified := TRUE, applicationSetResourcesReady := Some(Passed(env.configMaps && env.rbac)))
  }

  function WithPolicyTemplate(b: Board, env: Environment): Board {
    b.(policyTemplateReady := Some(Passed(env.policyTemplate)))
  }

  function Prepared(b: Board, spec: Spec, env: Environment): Board {
    Checked(WithPolicyTemplate(Initialized(b, spec), env), env)
  }

  function WithTemplate(b: Board): Board {
    b.(addOnTemplateReady := TRUE, gitOpsAddonPrereqsReady := TRUE)
  }

  function Deployed(b: Board, spec: Spec): Board {
    var b := if spec.agentEnabled then WithTemplate(b) else b;
    b.(argoCDPolicyReady := TRUE, addOnDeploymentConfigsReady := TRUE, olmSubscriptionReady := TRUE,
       managedClusterAddOnsReady := TRUE)
  }

  function Registered(b: Board, spec: Spec): Board {
    if spec.agentEnabled then b.(clustersRegistered := TRUE) else b
  }

  function TrueUnless(b: bool, mark: Mark): Mark {
    if b then mark else TRUE
  }

  /** The last update of a reconcile. */
  function Finished(b: Board, spec: Spec): Board {
    b.(placementResolved := TRUE, clustersRegistered := TRUE, agentPrereqsReady := TRUE, certificatesReady := TRUE,
       manifestWorksApplied := TRUE,
       addOnDeploymentConfigsReady := TrueUnless(spec.addonEnabled, b.addOnDeploymentConfigsReady),
       managedClusterAddOnsReady := TrueUnless(spec.addonEnabled, b.managedClusterAddOnsReady),
       addOnTemplateReady := TrueUnless(spec.agentEnabled, b.addOnTemplateReady),
       gitOpsAddonPrereqsReady := TrueUnless(spec.agentEnabled, b.gitOpsAddonPrereqsReady),
       argoCDPolicyReady := TrueUnless(spec.agentEnabled || spec.addonEnabled, b.argoCDPolicyReady),
       olmSubscriptionReady := TrueUnless(spec.agentEnabled || spec.addonEnabled, b.olmSubscriptionReady))
  }

  /** What the API server has when the preparation is over: each of its four writes counts if it succeeded. */
  function StoredAfterPreparing(b: Board, stored: Board, spec: Spec, env: Environment, w: nat -> WriteResult): Board {
    var initialized := Initialized(b, spec);
    var stored := if w(0).Written? then initialized else stored;
    var withTemplate := WithPolicyTemplate(initialized, env);
    var stored := if w(1).Written? then withTemplate else stored;
    StoredAfterChecking(withTemplate, stored, env, w(2), w(3))
  }

  function StoredAfterChecking(b: Board, stored: Board, env: Environment, first: WriteResult,
                               second: WriteResult): Board {
    if second.Written? then Checked(b, env) else if first.Written? then b.(argoServerVerified := TRUE) else stored
  }

  /** The discovery of the endpoint reads the status back from the API server. */
  predicate Rereads(spec: Spec, env: Environment) {
    spec.agentEnabled && !env.endpointConfigured
  }

  /** The board in memory when the clusters' part begins. */
  function Reached(b: Board, stored: Board, spec: Spec, env: Environment, w: nat -> WriteResult): Board {
    if Rereads(spec, env) then StoredAfterPreparing(b, stored, spec, env, w) else Prepared(b, spec, env)
  }

  /** The board at the end of a reconcile none of whose steps gives up, from what was reached after the preparation. */
  function AtEndFrom(p: Board, spec: Spec): Board {
    var p := if spec.addonEnabled then Deployed(p, spec) else p;
    Finished(Registered(p, spec), spec)
  }

  function AtEnd(b: Board, spec: Spec, env: Environment): Board {
    AtEndFrom(Prepared(b, spec, env), spec)
  }

  /**
   With the agent enabled and the addon disabled, a reconcile that succeeds leaves four conditions as it found them.
   */
  predicate StaleFailure(b: Board) {
    || b.addOnTemplateReady == Some(IsFalse) || b.gitOpsAddonPrereqsReady == Some(IsFalse)
    || b.olmSubscriptionReady == Some(IsFalse) || b.argoCDPolicyReady == Some(IsFalse)
  }

  /**
   Ready at the end: what was reached of the first three steps, and in the one unusual setup also what earlier
   reconciles left behind.
   */
  function EndReadyFrom(p: Board, spec: Spec): Status {
    var unusual := spec.agentEnabled && !spec.addonEnabled;
    if p.policyTemplateReady == Some(IsFalse) || p.applicationSetResourcesReady == Some(IsFalse)
        || p.argoServerVerified == Some(IsFalse) then IsFalse
    else if unusual && StaleFailure(p) then IsFalse
    else if p.argoServerVerified == TRUE && (unusual ==> p.addOnTemplateReady == TRUE) then IsTrue
    else IsUnknown
  }

  /** Ready at the end when the preparation was not read back without having been written. */
  function EndReady(b: Board, spec: Spec, env: Environment): Status {
    if !(env.policyTemplate && env.configMaps && env.rbac) then IsFalse
    else if spec.addonEnabled || !spec.agentEnabled then IsTrue
    else if StaleFailure(b) then IsFalse
    else if b.addOnTemplateReady == TRUE then IsTrue
    else IsUnknown
  }

  /** The whole run summed up: nothing else of what was reached matters to the final Ready. */
  lemma ReadyAtEnd(p: Board, spec: Spec)
    ensures ReadyOf(AtEndFrom(p, spec), spec) == EndReadyFrom(p, spec)
  {
  }

  /**
   Unless the status is read back with the last of the first four writes lost, Ready at the end follows from the start
   in closed form.
   */
  lemma ReadyFromStart(b: Board, stored: Board, spec: Spec, env: Environment, w: nat -> WriteResult)
    requires Rereads(spec, env) ==> w(3).Written?
    ensures EndReadyFrom(Reached(b, stored, spec, env, w), spec) == EndReady(b, spec, env)
  {
  }

  /**
   With all four writes lost, the run ends as if the preparation had not taken place: a server once recorded as
   missing keeps Ready False although it has been found.
   */
  lemma LostWritesBringTheStoreBack(b: Board, stored: Board, spec: Spec, env: Environment, w: nat -> WriteResult)
    requires Rereads(spec, env) && forall n :: 0 <= n < 4 ==> !w(n).Written?
    ensures EndReadyFrom(Reached(b, stored, spec, env, w), spec) == EndReadyFrom(stored, spec)
    ensures stored.argoServerVerified == Some(IsFalse) ==>
              EndReadyFrom(Reached(b, stored, spec, env, w), spec) == IsFalse
  {
    assert !w(0).Written? && !w(1).Written? && !w(2).Written? && !w(3).Written?;
  }

  /**
   Ready at the end ignores every earlier condition exactly when the addon is on, the agent is off, or an optional step
   failed.
   */
  lemma NothingStaleSurvives(spec: Spec, env: Environment)
    ensures spec.addonEnabled || !spec.agentEnabled || !(env.policyTemplate && env.configMaps && env.rbac) <==>
              forall b, c :: ReadyOf(AtEnd(b, spec, env), spec) == ReadyOf(AtEnd(c, spec, env), spec)
  {
    forall b ensures ReadyOf(AtEnd(b, spec, env), spec) == EndReady(b, spec, env) {
      ReadyAtEnd(Prepared(b, spec, env), spec);
    }
    var none := BoardOf(map[]);
    var b, c := none.(addOnTemplateReady := TRUE), none.(argoCDPolicyReady := Some(IsFalse));
    assert EndReady(b, spec, env) == EndReady(c, spec, env) <==>
             spec.addonEnabled || !spec.agentEnabled || !(env.policyTemplate && env.configMaps && env.rbac);
  }

  lemma OverrideOne(b: Board, kind: ConditionType, update: Update)
    requires kind != Ready
    ensures Override(b, BoardOf(map[kind := update])) == Put(b, kind, Some(update.status))
    ensures update.status == IsFalse ==> AnyFailed(Put(b, kind, Some(update.status)))
  {
    match kind {
      case _ =>
    }
  }

  /** `board` and `ready` are what a reader of the conditions sees. */
  ghost predicate Shows(view: View, board: Board, ready: Mark) {
    (forall k :: k != Ready ==> At(board, k) == StatusOf(view, k)) && ready == StatusOf(view, Ready)
  }

  lemma Read(view: View) returns (board: Board, ready: Mark)
    ensures Shows(view, board, ready)
  {
    board, ready := BoardOf(view), StatusOf(view, Ready);
    forall k | k != Ready ensures At(board, k) == StatusOf(view, k) {
      BoardAt(view, k);
    }
  }

  lemma PutAt(b: Board, kind: ConditionType, mark: Mark, other: ConditionType)
    requires kind != Ready && other != Ready
    ensures At(Put(b, kind, mark), other) == if other == kind then mark else At(b, other)
  {
    match kind {
      case _ =>
    }
  }

  lemma ShowsUpdate(view: View, board: Board, ready: Mark, kind: ConditionType, update: Update)
    requires Shows(view, board, ready) && kind != Ready
    ensures Shows(view[kind := update], Put(board, kind, Some(update.status)), ready)
  {
    forall k | k != Ready ensures At(Put(board, kind, Some(update.status)), k) == StatusOf(view[kind := update], k) {
      PutAt(board, kind, Some(update.status), k);
      assert At(board, k) == StatusOf(view, k);
    }
  }

  lemma ShowsUpdates(view: View, board: Board, ready: Mark, updates: View, summary: Update)
    requires Shows(view, board, ready)
    ensures Shows((view + updates)[Ready := summary], Override(board, BoardOf(updates)), Some(summary.status))
  {
    forall k | k != Ready
      ensures At(Override(board, BoardOf(updates)), k) == StatusOf((view + updates)[Ready := summary], k)
    {
      assert At(board, k) == StatusOf(view, k);
      OverrideAt(board, BoardOf(updates), k);
      BoardAt(updates, k);
    }
  }

  lemma OverrideAt(b: Board, updates: Board, kind: ConditionType)
    requires kind != Ready
    ensures At(Override(b, updates), kind) == Or(At(updates, kind), At(b, kind))
  {
    match kind {
      case _ =>
    }
  }

  lemma InitializeOne(b: Board, kind: ConditionType)
    requires kind != Ready && At(b, kind).Some?
    ensures b == Put(b, kind, Init(At(b, kind)))
  {
    match kind {
      case _ =>
    }
  }

  lemma SummaryOnBoard(view: View, board: Board, ready: Mark, spec: Spec)
    requires Shows(view, board, ready)
    ensures Summary(view, spec).status == ReadyOf(board, spec)
  {
    AnyFailedOnBoard(view, board, ready);
    if !SomeFailed(view) {
      if AllNeededTrue(board, spec) {
        NeededSuffice(view, board, ready, spec);
      }
      if AllCriticalTrue(view, spec) {
        NeededAreCritical(view, board, ready, spec);
      }
    }
  }

  lemma AnyFailedOnBoard(view: View, board: Board, ready: Mark)
    requires Shows(view, board, ready)
    ensures AnyFailed(board) <==> SomeFailed(view)
  {
    if k :| k != Ready && StatusOf(view, k) == Some(IsFalse) {
      FailedAt(board, k);
    }
    if AnyFailed(board) {
      var k := FailedKind(board);
      assert At(board, k) == StatusOf(view, k);
    }
  }

  lemma FailedAt(b: Board, kind: ConditionType)
    requires kind != Ready && At(b, kind) == Some(IsFalse)
    ensures AnyFailed(b)
  {
    match kind {
      case _ =>
    }
  }

  lemma FailedKind(b: Board) returns (kind: ConditionType)
    requires AnyFailed(b)
    ensures kind != Ready && At(b, kind) == Some(IsFalse)
  {
    kind := if b.placementResolved == Some(IsFalse) then PlacementResolved
            else if b.argoServerVerified == Some(IsFalse) then ArgoServerVerified
            else if b.applicationSetResourcesReady == Some(IsFalse) then ApplicationSetResourcesReady
            else if b.policyTemplateReady == Some(IsFalse) then PolicyTemplateReady
            else if b.clustersRegistered == Some(IsFalse) then ClustersRegistered
            else if b.addOnTemplateReady == Some(IsFalse) then AddOnTemplateReady
            else if b.addOnDeploymentConfigsReady == Some(IsFalse) then AddOnDeploymentConfigsReady
            else if b.managedClusterAddOnsReady == Some(IsFalse) then ManagedClusterAddOnsReady
            else if b.agentPrereqsReady == Some(IsFalse) then ArgoCDAgentPrereqsReady
            else if b.gitOpsAddonPrereqsReady == Some(IsFalse) then GitOpsAddonPrereqsReady
            else if b.certificatesReady == Some(IsFalse) then CertificatesReady
            else if b.manifestWorksApplied == Some(IsFalse) then ManifestWorksApplied
            else if b.olmSubscriptionReady == Some(IsFalse) then OLMSubscriptionReady
            else ArgoCDPolicyReady;
  }

  lemma NeededSuffice(view: View, board: Board, ready: Mark, spec: Spec)
    requires Shows(view, board, ready) && !SomeFailed(view) && AllNeededTrue(board, spec)
    ensures AllCriticalTrue(view, spec)
  {
    forall k | Critical(view, spec, k) ensures StatusOf(view, k) == Some(IsTrue) {
      assert At(board, k) == StatusOf(view, k);
      if k != ApplicationSetResourcesReady && k != PolicyTemplateReady {
        NeededAt(view, board, spec, k);
      } else {
        var status := StatusOf(view, k).value;
        assert StatusOf(view, k) != Some(IsFalse) && status != IsUnknown;
        match status {
          case _ =>
        }
      }
    }
  }

  lemma NeededAt(view: View, b: Board, spec: Spec, kind: ConditionType)
    requires AllNeededTrue(b, spec) && Critical(view, spec, kind)
    requires kind != ApplicationSetResourcesReady && kind != PolicyTemplateReady
    ensures At(b, kind) == TRUE
  {
    match kind {
      case _ =>
    }
  }

  lemma NeededAreCritical(view: View, board: Board, ready: Mark, spec: Spec)
    requires Shows(view, board, ready) && AllCriticalTrue(view, spec) && !SomeFailed(view)
    ensures AllNeededTrue(board, spec)
  {
    assert At(board, ApplicationSetResourcesReady) == StatusOf(view, ApplicationSetResourcesReady) != Some(IsFalse);
    assert At(board, PolicyTemplateReady) == StatusOf(view, PolicyTemplateReady) != Some(IsFalse);
    forall k | k != Ready && Critical(view, spec, k) ensures At(board, k) == TRUE {
      assert At(board, k) == StatusOf(view, k);
    }
    AllTrueAt(view, board, spec);
  }

  lemma AllTrueAt(view: View, b: Board, spec: Spec)
    requires forall k :: k != Ready && Critical(view, spec, k) ==> At(b, k) == TRUE
    requires At(b, ApplicationSetResourcesReady) != Some(IsFalse) && At(b, PolicyTemplateReady) != Some(IsFalse)
    ensures AllNeededTrue(b, spec)
  {
    assert At(b, PlacementResolved) == TRUE && At(b, ArgoServerVerified) == TRUE && At(b, ClustersRegistered) == TRUE;
    if spec.addonEnabled {
      assert At(b, AddOnDeploymentConfigsReady) == TRUE && At(b, ManagedClusterAddOnsReady) == TRUE;
      assert At(b, ArgoCDPolicyReady) == TRUE;
    }
    assert spec.OlmSubscriptionEnabled() ==> At(b, OLMSubscriptionReady) == TRUE;
    if spec.agentEnabled {
      assert At(b, AddOnTemplateReady) == TRUE && At(b, ArgoCDAgentPrereqsReady) == TRUE;
      assert At(b, CertificatesReady) == TRUE;
      assert !spec.skipHubCAPropagation ==> At(b, ManifestWorksApplied) == TRUE;
    }
  }

  // ---------------------------------------------------------------------------------------------
  // The run
  // ---------------------------------------------------------------------------------------------

  /** A board, and Ready. */
  datatype Sight = Sight(board: Board, ready: Mark)

  class Reconciliation {
    const spec: Spec
    const env: Environment
    const writeResult: nat -> WriteResult
    const instance: GitOpsClusterStatus
    var stored: seq<Condition>
    var writes: nat
    /** What `instance` says: the statuses of the other conditions, and that of Ready. */
    ghost var board: Board
    ghost var ready: Mark
    /** What `stored` says. */
    ghost var saved: Sight

    constructor (spec: Spec, env: Environment, writeResult: nat -> WriteResult, instance: GitOpsClusterStatus)
      requires instance.Valid()
      ensures this.spec == spec && this.env == env && this.writeResult == writeResult && this.instance == instance
      ensures stored == instance.conditions && writes == 0
      ensures Valid() && saved == Sight(board, ready)
    {
      this.spec, this.env, this.writeResult, this.instance := spec, env, writeResult, instance;
      stored, writes := instance.conditions, 0;
      new;
      this.board, this.ready := Read(instance.GetView());
      saved := Sight(board, ready);
    }

    ghost predicate Valid()
      reads this, instance
    {
      && instance.Valid() && OncePerType(stored)
      && Shows(instance.GetView(), board, ready) && Shows(Seen(stored), saved.board, saved.ready)
    }

    ghost predicate Failed()
      reads this
    {
      ready == Some(IsFalse)
    }

    /** The API server has the conditions held in memory. */
    predicate Saved()
      reads this, instance
    {
      stored == instance.conditions
    }

    method StatusUpdate() returns (result: WriteResult)
      requires Valid()
      modifies this`stored, this`saved, this`writes
      ensures Valid() && writes == old(writes) + 1 && result == writeResult(old(writes))
      ensures stored == if result.Written? then instance.conditions else old(stored)
      ensures saved == if result.Written? then Sight(board, ready) else old(saved)
    {
      result := writeResult(writes);
      writes := writes + 1;
      if result.Written? {
        stored := instance.conditions;
        saved := Sight(board, ready);
      }
    }

    method UpdateAll(updates: View)
      requires Valid() && Ready !in updates
      modifies instance, this`board, this`ready
      ensures Valid()
      ensures board == Override(old(board), BoardOf(updates)) && ready == Some(ReadyOf(board, spec))
    {
      ghost var before := instance.GetView();
      instance.UpdateConditions(updates, spec);
      ghost var summary := Summary(before + updates, spec);
      ShowsUpdates(before, board, ready, updates, summary);
      board := Override(board, BoardOf(updates));
      ready := Some(summary.status);
      SummaryIgnoresReady(before + updates, instance.GetView(), spec);
      SummaryOnBoard(instance.GetView(), board, ready, spec);
    }

    method UpdateOne(kind: ConditionType, status: Status, reason: string)
      requires Valid() && kind != Ready
      modifies instance, this`board, this`ready
      ensures Valid()
      ensures board == Put(old(board), kind, Some(status)) && ready == Some(ReadyOf(board, spec))
      ensures status == IsFalse ==> Failed()
    {
      var updates := map[kind := Update(status, reason)];
      UpdateAll(updates);
      OverrideOne(old(board), kind, updates[kind]);
    }

    /** A failed step: its condition becomes False, the status is written, and the reconcile returns an error. */
    method Fail(kind: ConditionType, reason: string) returns (result: WriteResult)
      requires Valid() && kind != Ready
      modifies this`stored, this`saved, this`writes, this`board, this`ready, instance
      ensures Valid() && Failed()
      ensures writes == old(writes) + 1 && result == writeResult(old(writes)) && (result.Written? ==> Saved())
    {
      UpdateOne(kind, IsFalse, reason);
      result := StatusUpdate();
    }

    method InitializeCondition(kind: ConditionType)
      requires Valid()
      modifies instance, this`board, this`ready
      ensures Valid()
      ensures board == if kind == Ready then old(board) else Put(old(board), kind, Init(At(old(board), kind)))
    {
      var found := instance.GetCondition(kind);
      if found.None? {
        ghost var before := instance.GetView();
        ViewOfUpdate(ByType(instance.conditions), kind, Condition(kind, IsUnknown, "Reconciling", instance.clock));
        instance.SetCondition(kind, IsUnknown, "Reconciling");
        if kind == Ready {
          ready := Some(IsUnknown);
        } else {
          ShowsUpdate(before, board, ready, kind, Update(IsUnknown, "Reconciling"));
          board := Put(board, kind, Some(IsUnknown));
        }
      } else if kind != Ready {
        InitializeOne(board, kind);
      }
    }

    method InitializeConditions()
      requires Valid()
      modifies instance, this`board, this`ready
      ensures Valid()
      ensures board == Initialized(old(board), spec)
    {
      InitializeCondition(Ready);
      InitializeCondition(PlacementResolved);
      InitializeCondition(ArgoServerVerified);
      InitializeStepConditions();
      InitializeOptionalConditions();
    }

    method InitializeStepConditions()
      requires Valid()
      modifies instance, this`board, this`ready
      ensures Valid()
      ensures board == old(board).(applicationSetResourcesReady := Init(old(board).applicationSetResourcesReady),
                                   policyTemplateReady := Init(old(board).policyTemplateReady),
                                   clustersRegistered := Init(old(board).clustersRegistered))
    {
      InitializeCondition(ApplicationSetResourcesReady);
      InitializeCondition(PolicyTemplateReady);
      InitializeCondition(ClustersRegistered);
    }

    method InitializeOptionalConditions()
      requires Valid()
      modifies instance, this`board, this`ready
      ensures Valid()
      ensures board == InitializedOptional(old(board), spec)
    {
      if spec.addonEnabled {
        InitializeAddonConditions();
      }
      if spec.OlmSubscriptionEnabled() {
        InitializeCondition(OLMSubscriptionReady);
      }
      if spec.agentEnabled {
        InitializeAgentConditions();
      }
    }

    method InitializeAddonConditions()
      requires Valid()
      modifies instance, this`board, this`ready
      ensures Valid()
      ensures board == old(board).(addOnDeploymentConfigsReady := Init(old(board).addOnDeploymentConfigsReady),
                                   managedClusterAddOnsReady := Init(old(board).managedClusterAddOnsReady),
                                   argoCDPolicyReady := Init(old(board).argoCDPolicyReady))
    {
      InitializeCondition(AddOnDeploymentConfigsReady);
      InitializeClusterConditions();
    }

    method InitializeClusterConditions()
      requires Valid()
      modifies instance, this`board, this`ready
      ensures Valid()
      ensures board == old(board).(managedClusterAddOnsReady := Init(old(board).managedClusterAddOnsReady),
                                   argoCDPolicyReady := Init(old(board).argoCDPolicyReady))
    {
      InitializeCondition(ManagedClusterAddOnsReady);
      InitializeCondition(ArgoCDPolicyReady);
    }

    method InitializeAgentConditions()
      requires Valid() && spec.agentEnabled
      modifies instance, this`board, this`ready
      ensures Valid()
      ensures board == old(board).(addOnTemplateReady := Init(old(board).addOnTemplateReady),
                                   agentPrereqsReady := Init(old(board).agentPrereqsReady),
                                   certificatesReady := Init(old(board).certificatesReady),
                                   manifestWorksApplied := InitIf(!spec.skipHubCAPropagation,
                                                                  old(board).manifestWorksApplied))
    {
      InitializeCondition(AddOnTemplateReady);
      InitializeCondition(ArgoCDAgentPrereqsReady);
      InitializeCertificateConditions();
    }

    method InitializeCertificateConditions()
      requires Valid()
      modifies instance, this`board, this`ready
      ensures Valid()
      ensures board == old(board).(certificatesReady := Init(old(board).certificatesReady),
                                   manifestWorksApplied := InitIf(!spec.skipHubCAPropagation,
                                                                  old(board).manifestWorksApplied))
    {
      InitializeCondition(CertificatesReady);
      if !spec.skipHubCAPropagation {
        InitializeCondition(ManifestWorksApplied);
      }
    }

    /** Every status write succeeds. */
    ghost predicate AllWritten() {
      forall n {:trigger writeResult(n)} :: writeResult(n).Written?
    }

    /** What every phase promises when it ends the reconcile; `ok` says that its own steps would all have succeeded. */
    ghost predicate Ended(exit: Exit, ok: bool)
      reads this, instance
    {
      match exit
      case Errored => Failed() && !ok && writes > 0 && (writeResult(writes - 1).Written? ==> Saved())
      case Abandoned => !AllWritten()
      case _ => false
    }

    method Prepare() returns (exit: Option<Exit>)
      requires Valid() && writes == 0
      modifies this`stored, this`saved, this`writes, this`board, this`ready, instance
      ensures Valid()
      ensures exit.Some? ==> Ended(exit.value, PreparationSucceeds(env))
      ensures exit.None? ==> PreparationSucceeds(env) && board == Prepared(old(board), spec, env)
      ensures exit.None? ==> saved.board == StoredAfterPreparing(old(board), old(saved).board, spec, env, writeResult)
    {
      InitializeConditions();
      var result := StatusUpdate();
      if result.ObjectGone? {
        return Some(Abandoned);
      }
      exit := CheckSpec();
    }

    method CheckSpec() returns (exit: Option<Exit>)
      requires Valid()
      modifies this`stored, this`saved, this`writes, this`board, this`ready, instance
      ensures Valid()
      ensures exit.Some? ==> Ended(exit.value, PreparationSucceeds(env))
      ensures exit.None? ==> PreparationSucceeds(env) && board == Checked(WithPolicyTemplate(old(board), env), env)
      ensures exit.None? ==>
                var withTemplate := WithPolicyTemplate(old(board), env);
                saved.board == StoredAfterChecking(withTemplate,
                      if writeResult(old(writes)).Written? then withTemplate else old(saved).board, env,
                                                   writeResult(old(writes) + 1), writeResult(old(writes) + 2))
    {
      if !env.specValid {
        var result := Fail(ArgoCDAgentPrereqsReady, "InvalidConfiguration");
        return Some(Errored);
      }
      RecordPolicyTemplate();
      exit := CheckArgoServer();
    }

    /** Optional: a failure is recorded, and the reconcile goes on. */
    method RecordPolicyTemplate()
      requires Valid()
      modifies this`stored, this`saved, this`writes, this`board, this`ready, instance
      ensures Valid() && writes == old(writes) + 1
      ensures board == WithPolicyTemplate(old(board), env)
      ensures saved.board == if writeResult(old(writes)).Written? then board else old(saved).board
    {
      UpdateOne(PolicyTemplateReady, Passed(env.policyTemplate),
                if env.policyTemplate then "Success" else "PolicyTemplateCreationFailed");
      var result := StatusUpdate();
    }

    method CheckArgoServer() returns (exit: Option<Exit>)
      requires Valid()
      modifies this`stored, this`saved, this`writes, this`board, this`ready, instance
      ensures Valid()
      ensures exit.Some? ==> Ended(exit.value, env.namespaceAuthorized && env.argoServerFound && env.placement)
      ensures exit.None? ==> env.namespaceAuthorized && env.argoServerFound && env.placement
      ensures exit.None? ==> board == Checked(old(board), env)
      ensures exit.None? ==>
                saved.board == StoredAfterChecking(old(board), old(saved).board, env, writeResult(old(writes)),
                                                   writeResult(old(writes) + 1))
    {
      if !env.namespaceAuthorized {
        var result := Fail(ArgoServerVerified, "InvalidConfiguration");
        return Some(Errored);
      }
      if !env.argoServerFound {
        var result := Fail(ArgoServerVerified, "ArgoServerNotFound");
        return Some(Errored);
      }
      RecordArgoServer();
      if !env.placement {
        var result := Fail(PlacementResolved, "PlacementNotFound");
        return Some(Errored);
      }
      return None;
    }

    method RecordArgoServer()
      requires Valid()
      modifies this`stored, this`saved, this`writes, this`board, this`ready, instance
      ensures Valid()
      ensures board == Checked(old(board), env)
      ensures saved.board == StoredAfterChecking(old(board), old(saved).board, env, writeResult(old(writes)),
                                                 writeResult(old(writes) + 1))
    {
      UpdateOne(ArgoServerVerified, IsTrue, "Success");
      var result := StatusUpdate();
      RecordResources();
    }

    /** Optional as well. */
    method RecordResources()
      requires Valid()
      modifies this`stored, this`saved, this`writes, this`board, this`ready, instance
      ensures Valid() && writes == old(writes) + 1
      ensures board == old(board).(applicationSetResourcesReady := Some(Passed(env.configMaps && env.rbac)))
      ensures saved.board == if writeResult(old(writes)).Written? then board else old(saved).board
    {
      var resources := env.configMaps && env.rbac;
      UpdateOne(ApplicationSetResourcesReady, Passed(resources),
                if resources then "Success" else "ConfigMapCreationFailed");
      var result := StatusUpdate();
    }

    /** Secrets, certificates and the principal's endpoint. */
    method PrepareAgent() returns (exit: Option<Exit>)
      requires Valid()
      modifies this`stored, this`saved, this`writes, this`board, this`ready, instance
      ensures Valid()
      ensures exit.Some? ==> Ended(exit.value, AgentSucceeds(env))
      ensures exit.None? ==> AgentSucceeds(env)
      ensures exit.None? ==> board == if env.endpointConfigured then old(board) else old(saved).board
    {
      if !env.redisSecret || !env.jwtSecret {
        var result := Fail(ArgoCDAgentPrereqsReady, "InvalidConfiguration");
        return Some(Errored);
      }
      if !env.caCertificate || !env.principalCertificate || !env.proxyCertificate {
        var result := Fail(CertificatesReady, "CertificateSigningFailed");
        return Some(Errored);
      }
      if !env.endpointConfigured {
        if !env.discovery {
          var result := Fail(ArgoCDAgentPrereqsReady, "InvalidConfiguration");
          return Some(Errored);
        }
        // The discovered endpoint goes into the spec by an update that returns the stored object, status included.
        ReadStored();
        if !env.endpointFilled {
          var result := Fail(ArgoCDAgentPrereqsReady, "InvalidConfiguration");
          return Some(Errored);
        }
      }
      return None;
    }

    method ReadStored()
      requires Valid()
      modifies instance, this`board, this`ready
      ensures Valid() && Saved() && board == saved.board
    {
      instance.conditions := stored;
      board, ready := saved.board, saved.ready;
    }

    /** The addon's template, policy, and per-cluster configs and addons. */
    method DeployAddon() returns (exit: Option<Exit>)
      requires Valid() && spec.addonEnabled
      modifies this`stored, this`saved, this`writes, this`board, this`ready, instance
      ensures Valid()
      ensures exit.Some? ==> Ended(exit.value, AddonSucceeds(spec, env))
      ensures exit.None? ==> AddonSucceeds(spec, env)
      ensures exit.None? ==> board == Deployed(old(board), spec)
    {
      if spec.agentEnabled {
        exit := DeployTemplate();
        if exit.Some? {
          return;
        }
      }
      exit := DeployPolicy();
      if exit.Some? {
        return;
      }
      exit := DeployToClusters();
    }

    /** The dynamic template of agent mode, and the RBAC it needs. */
    method DeployTemplate() returns (exit: Option<Exit>)
      requires Valid()
      modifies this`stored, this`saved, this`writes, this`board, this`ready, instance
      ensures Valid()
      ensures exit.Some? ==> Ended(exit.value, env.addonRBAC && env.addonTemplate)
      ensures exit.None? ==> env.addonRBAC && env.addonTemplate
      ensures exit.None? ==> board == WithTemplate(old(board))
    {
      if !env.addonRBAC {
        var result := Fail(GitOpsAddonPrereqsReady, "RBACSetupFailed");
        return Some(Errored);
      }
      if !env.addonTemplate {
        var result := Fail(AddOnTemplateReady, "InvalidConfiguration");
        return Some(Errored);
      }
      RecordTemplate();
      var result := StatusUpdate();
      if result.ObjectGone? {
        return Some(Abandoned);
      }
      return None;
    }

    method RecordTemplate()
      requires Valid()
      modifies instance, this`board, this`ready
      ensures Valid() && board == WithTemplate(old(board))
    {
      UpdateAll(map[AddOnTemplateReady := Update(IsTrue, "Success"),
                    GitOpsAddonPrereqsReady := Update(IsTrue, "Success")]);
    }

    /** The ArgoCD policy, created once and left to its users afterwards. */
    method DeployPolicy() returns (exit: Option<Exit>)
      requires Valid()
      modifies this`stored, this`saved, this`writes, this`board, this`ready, instance
      ensures Valid()
      ensures exit.Some? ==> Ended(exit.value, !env.selectsLocalCluster && !env.policy.PolicyFailed?)
      ensures exit.None? ==> !env.selectsLocalCluster && !env.policy.PolicyFailed?
      ensures exit.None? ==> board == old(board).(argoCDPolicyReady := TRUE)
    {
      if env.selectsLocalCluster {
        var result := Fail(ArgoCDPolicyReady, "InvalidConfiguration");
        return Some(if result.ObjectGone? then Abandoned else Errored);
      }
      if env.policy.PolicyFailed? {
        var result := Fail(ArgoCDPolicyReady, "ArgoCDPolicyCreationFailed");
        return Some(Errored);
      }
      UpdateOne(ArgoCDPolicyReady, IsTrue, if env.policy.PolicySkipped? then "Skipped" else "Success");
      var result := StatusUpdate();
      return if env.policy.PolicyCreated? && result.ObjectGone? then Some(Abandoned) else None;
    }

    method DeployToClusters() returns (exit: Option<Exit>)
      requires Valid() && spec.addonEnabled
      modifies this`stored, this`saved, this`writes, this`board, this`ready, instance
      ensures Valid()
      ensures exit.Some? ==> Ended(exit.value, env.deploymentConfigs && env.addons)
      ensures exit.None? ==> env.deploymentConfigs && env.addons
      ensures exit.None? ==>
                board == old(board).(addOnDeploymentConfigsReady := TRUE, olmSubscriptionReady := TRUE,
                                     managedClusterAddOnsReady := TRUE)
    {
      RecordClusters();
      var result := StatusUpdate();
      if result.ObjectGone? {
        return Some(Abandoned);
      }
      if !env.deploymentConfigs || !env.addons {
        return Some(Errored);
      }
      return None;
    }

    method RecordClusters()
      requires Valid()
      modifies instance, this`board, this`ready
      ensures Valid()
      ensures board == old(board).(addOnDeploymentConfigsReady := Some(Passed(env.deploymentConfigs)),
                                   olmSubscriptionReady := Some(Passed(env.deploymentConfigs
                                       || !spec.OlmSubscriptionEnabled())),
                                   managedClusterAddOnsReady := Some(Passed(env.addons)))
      ensures ready == Some(ReadyOf(board, spec))
    {
      UpdateOne(AddOnDeploymentConfigsReady, Passed(env.deploymentConfigs),
                if env.deploymentConfigs then "Success" else "ConfigCreationFailed");
      RecordOlmSubscription();
      UpdateOne(ManagedClusterAddOnsReady, Passed(env.addons), if env.addons then "Success" else "AddonCreationFailed");
    }

    method RecordOlmSubscription()
      requires Valid()
      modifies instance, this`board, this`ready
      ensures Valid()
      ensures board == old(board).(olmSubscriptionReady :=
              Some(Passed(env.deploymentConfigs || !spec.OlmSubscriptionEnabled())))
    {
      if spec.OlmSubscriptionEnabled() {
        UpdateOne(OLMSubscriptionReady, Passed(env.deploymentConfigs),
                  if env.deploymentConfigs then "Success" else "ConfigCreationFailed");
      } else {
        UpdateOne(OLMSubscriptionReady, IsTrue, "NotRequired");
      }
    }

    /** Registers the clusters with Argo CD and propagates the hub CA. */
    method RegisterClusters() returns (exit: Option<Exit>)
      requires Valid()
      modifies this`stored, this`saved, this`writes, this`board, this`ready, instance
      ensures Valid()
      ensures exit.Some? ==> Ended(exit.value, RegistrationSucceeds(spec, env))
      ensures exit.None? ==> RegistrationSucceeds(spec, env)
      ensures exit.None? ==> board == Registered(old(board), spec)
    {
      if spec.agentEnabled && !env.finalCACertificate {
        var result := Fail(CertificatesReady, "CertificateSigningFailed");
        return Some(Errored);
      }
      if !env.registration {
        var result := Fail(ClustersRegistered, "ClusterRegistrationFailed");
        return Some(Errored);
      }
      if spec.agentEnabled {
        UpdateOne(ClustersRegistered, IsTrue, "Success");
        var result := StatusUpdate();
        if !spec.skipHubCAPropagation && !env.caPropagation {
          result := Fail(ManifestWorksApplied, "ManifestWorkFailed");
          return Some(Errored);
        }
      }
      return None;
    }

    method Finish() returns (exit: Exit)
      requires Valid()
      modifies this`stored, this`saved, this`writes, this`board, this`ready, instance
      ensures Valid()
      ensures exit == if writeResult(old(writes)).Written? then Completed else FinalWriteFailed
      ensures exit == Completed ==> Saved()
      ensures board == Finished(old(board), spec) && ready == Some(ReadyOf(board, spec))
    {
      var updates := FinalUpdates();
      UpdateAll(updates);
      var result := StatusUpdate();
      return if result.Written? then Completed else FinalWriteFailed;
    }

    method FinalUpdates() returns (updates: View)
      ensures Ready !in updates
      ensures forall b :: Override(b, BoardOf(updates)) == Finished(b, spec)
    {
      updates := map[PlacementResolved := Update(IsTrue, "Success"), ClustersRegistered := Update(IsTrue, "Success")];
      if !spec.addonEnabled {
        updates := updates[AddOnDeploymentConfigsReady := Update(IsTrue, "NotRequired")];
        updates := updates[ManagedClusterAddOnsReady := Update(IsTrue, "NotRequired")];
      }
      var reason := if spec.agentEnabled then "Success" else "NotRequired";
      updates := updates[ArgoCDAgentPrereqsReady := Update(IsTrue, reason)];
      updates := updates[CertificatesReady := Update(IsTrue, reason)];
      updates := updates[ManifestWorksApplied :=
          Update(IsTrue, if spec.agentEnabled && spec.skipHubCAPropagation then "Skipped" else reason)];
      if !spec.agentEnabled {
        updates := updates[AddOnTemplateReady := Update(IsTrue, "NotRequired")];
        updates := updates[GitOpsAddonPrereqsReady := Update(IsTrue, "NotRequired")];
        if !spec.addonEnabled {
          updates := updates[ArgoCDPolicyReady := Update(IsTrue, "NotRequired")];
          updates := updates[OLMSubscriptionReady := Update(IsTrue, "NotRequired")];
        }
      }
    }

    /**
     From any earlier conditions, one per type, in memory and in the store: an error exit leaves Ready False, in the
     store too if the last status write succeeded; a reconcile that reaches its end leaves Ready as the closed form
     says of what was reached after the preparation.
     */
    method ReconcileGitOpsCluster() returns (exit: Exit)
      requires Valid() && writes == 0
      modifies this`stored, this`saved, this`writes, this`board, this`ready, instance
      ensures Valid()
      ensures exit == Errored ==> Failed() && !Succeeds(spec, env) && writes > 0
      ensures exit == Errored && writeResult(writes - 1).Written? ==> Saved() && saved.ready == Some(IsFalse)
      ensures exit == Completed || exit == FinalWriteFailed ==>
                && Succeeds(spec, env)
                && ready == Some(EndReadyFrom(Reached(old(board), old(saved).board, spec, env, writeResult), spec))
      ensures exit == Completed ==> Saved()
      ensures exit == Abandoned ==> !AllWritten()
      ensures AllWritten() ==> Saved() && exit == if Succeeds(spec, env) then Completed else Errored
    {
      var early := ReachClusters();
      if early.Some? {
        return early.value;
      }
      exit := ServeClusters();
    }

    /** The part of a reconcile before it deals with the placed clusters. */
    method ReachClusters() returns (exit: Option<Exit>)
      requires Valid() && writes == 0
      modifies this`stored, this`saved, this`writes, this`board, this`ready, instance
      ensures Valid()
      ensures exit.Some? ==> Ended(exit.value, PreparationSucceeds(env) && (spec.agentEnabled ==> AgentSucceeds(env)))
      ensures exit.None? ==>
                && PreparationSucceeds(env) && (spec.agentEnabled ==> AgentSucceeds(env))
                && board == Reached(old(board), old(saved).board, spec, env, writeResult)
    {
      exit := Prepare();
      if exit.None? && spec.agentEnabled {
        exit := PrepareAgent();
      }
    }

    /** The part of a reconcile that deals with the placed clusters. */
    method ServeClusters() returns (exit: Exit)
      requires Valid()
      modifies this`stored, this`saved, this`writes, this`board, this`ready, instance
      ensures Valid()
      ensures exit == Errored || exit == Abandoned ==>
                Ended(exit, (spec.addonEnabled ==> AddonSucceeds(spec, env)) && RegistrationSucceeds(spec, env))
      ensures exit == Completed || exit == FinalWriteFailed ==>
                && (spec.addonEnabled ==> AddonSucceeds(spec, env)) && RegistrationSucceeds(spec, env)
                && ready == Some(EndReadyFrom(old(board), spec))
      ensures exit == Completed ==> Saved()
      ensures exit == FinalWriteFailed ==> !AllWritten()
    {
      ghost var reached := board;
      if spec.addonEnabled {
        var early := DeployAddon();
        if early.Some? {
          return early.value;
        }
      }
      var early := RegisterClusters();
      if early.Some? {
        return early.value;
      }
      exit := Finish();
      ReadyAtEnd(reached, spec);
    }
  }
}
