/**
 The operator's OLM objects on a spoke: installing, recovering from stuck states, migrating and
 cleaning up, over an API server any of whose calls may fail.
 */
module Olm {
  import opened Options

  datatype Name = Name(namespace: string, name: string)

  datatype Settings = Settings(channel: string, source: string, sourceNamespace: string, approval: string)

  datatype ConditionKind = InstallPlanMissing | InstallPlanFailed | OtherKind

  datatype Condition = Condition(kind: ConditionKind, isTrue: bool, blamesWebhook: bool)

  /** The empty string stands for a name that is not set. */
  datatype Subscription = Subscription(labelled: bool, settings: Settings, installedCSV: string, currentCSV: string,
                                       conditions: seq<Condition>, installPlan: string, deleting: bool)

  datatype Phase = Complete | OtherPhase

  datatype State = State(subs: map<Name, Subscription>, csvs: set<Name>, plans: map<Name, Phase>)

  const OPERATOR_NAMESPACE := "openshift-gitops-operator"
  const ADDON_NAMESPACE := "open-cluster-management-agent-addon"
  const OLD_DEFAULT_NAMESPACE := "openshift-operators"

  // ---------------------------------------------------------------------------------------------
  // Stuck states
  // ---------------------------------------------------------------------------------------------

  predicate Holds(sub: Subscription, kind: ConditionKind) {
    exists i :: 0 <= i < |sub.conditions| && sub.conditions[i].kind == kind && sub.conditions[i].isTrue
  }

  predicate PlanMissing(sub: Subscription) {
    Holds(sub, InstallPlanMissing)
  }

  predicate WebhookFailure(c: Condition) {
    c.kind == InstallPlanFailed && c.isTrue && c.blamesWebhook
  }

  predicate WebhookFailed(sub: Subscription) {
    exists i :: 0 <= i < |sub.conditions| && WebhookFailure(sub.conditions[i])
  }

  predicate Ours(s: State, n: Name) {
    n in s.subs && s.subs[n].labelled
  }

  function ExpectedCSV(sub: Subscription): string {
    if sub.currentCSV != "" then sub.currentCSV else sub.installedCSV
  }

  predicate PlanComplete(s: State, plan: Name) {
    plan.name != "" && Get(s.plans, plan) == Some(Complete)
  }

  /** OLM believes the operator installed, but the CSV is not there. */
  predicate Ghost(s: State, n: Name) {
    && Ours(s, n)
    && var sub := s.subs[n];
       && ExpectedCSV(sub) != "" && Name(n.namespace, ExpectedCSV(sub)) !in s.csvs
       && (sub.installedCSV != "" || PlanComplete(s, Name(n.namespace, sub.installPlan)))
  }

  /** Create-or-update has something to write. */
  predicate NeedsWrite(s: State, n: Name, settings: Settings) {
    n !in s.subs || (s.subs[n].labelled && (PlanMissing(s.subs[n]) || s.subs[n].settings != settings))
  }

  /** What a pass is for. */
  predicate Settled(s: State, n: Name, settings: Settings) {
    Ours(s, n) && s.subs[n].settings == settings && !PlanMissing(s.subs[n]) && !Ghost(s, n)
  }

  function Fresh(settings: Settings): Subscription {
    Subscription(true, settings, "", "", [], "", false)
  }

  // ---------------------------------------------------------------------------------------------
  // What a pass without failures does
  // ---------------------------------------------------------------------------------------------

  function WithoutSub(s: State, n: Name): State {
    s.(subs := s.subs - {n})
  }

  function WithoutPlan(s: State, n: Name): State {
    s.(plans := s.plans - {n})
  }

  function AfterWebhookRecovery(s: State, n: Name): State {
    if Ours(s, n) && WebhookFailed(s.subs[n]) && s.subs[n].installPlan != ""
        then WithoutPlan(s, Name(n.namespace, s.subs[n].installPlan))
    else s
  }

  function AfterGhostRecovery(s: State, n: Name): State {
    if !Ghost(s, n) then s
    else if s.subs[n].installPlan == "" then WithoutSub(s, n)
    else WithoutSub(WithoutPlan(s, Name(n.namespace, s.subs[n].installPlan)), n)
  }

  function AfterCreateOrUpdate(s: State, n: Name, settings: Settings): State {
    if n !in s.subs || (s.subs[n].labelled && PlanMissing(s.subs[n])) then s.(subs := s.subs[n := Fresh(settings)])
    else if s.subs[n].labelled then s.(subs := s.subs[n := s.subs[n].(settings := settings)])
    else s
  }

  function AfterPass(s: State, n: Name, settings: Settings): State {
    AfterCreateOrUpdate(AfterGhostRecovery(AfterWebhookRecovery(s, n), n), n, settings)
  }

  /** One pass unsticks: from any state in which the subscription is absent or the addon's own. */
  lemma PassSettles(s: State, n: Name, settings: Settings)
    ensures Settled(AfterPass(s, n, settings), n, settings) <==> n !in s.subs || s.subs[n].labelled
    ensures n in s.subs && !s.subs[n].labelled ==> AfterPass(s, n, settings) == s
    ensures AfterPass(s, n, settings).csvs == s.csvs && AfterPass(s, n, settings).subs - {n} == s.subs - {n}
  {
    var t := AfterGhostRecovery(AfterWebhookRecovery(s, n), n);
    assert !Ghost(t, n);
    assert t.subs - {n} == s.subs - {n};
  }

  /** On a settled state a pass writes no subscription, and the state stays settled. */
  lemma SettledStays(s: State, n: Name, settings: Settings)
    requires Settled(s, n, settings)
    ensures AfterPass(s, n, settings).subs == s.subs
    ensures !NeedsWrite(AfterGhostRecovery(AfterWebhookRecovery(s, n), n), n, settings)
  {
    var t := AfterWebhookRecovery(s, n);
    assert !Ghost(t, n);
    assert s.subs[n := s.subs[n]] == s.subs;
  }

  /** So a second pass leaves everything as the first one left it. */
  lemma PassIsIdempotent(s: State, n: Name, settings: Settings)
    requires n in s.subs ==> s.subs[n].labelled
    ensures AfterPass(AfterPass(s, n, settings), n, settings).subs == AfterPass(s, n, settings).subs
    ensures AfterPass(AfterPass(s, n, settings), n, settings) == AfterPass(s, n, settings)
  {
    PassSettles(s, n, settings);
    var t := AfterPass(s, n, settings);
    SettledStays(t, n, settings);
    var sub := t.subs[n];
    if WebhookFailed(sub) && sub.installPlan != "" {
      assert n in s.subs && sub.conditions == s.subs[n].conditions;
      assert Name(n.namespace, sub.installPlan) !in t.plans;
    }
  }

  // ---------------------------------------------------------------------------------------------
  // Clean-up without failures
  // ---------------------------------------------------------------------------------------------

  /** A subscription that is not being deleted names the CSV. */
  predicate Names(sub: Subscription, csv: string) {
    !sub.deleting && (sub.installedCSV == csv || sub.currentCSV == csv)
  }

  predicate Claimed(s: State, csv: Name) {
    exists n :: n in s.subs && n.namespace == csv.namespace && Names(s.subs[n], csv.name)
  }

  /** A CSV that a subscription of the addon in its namespace has installed. */
  ghost predicate Installed(s: State, csv: Name) {
    csv.name != "" && exists n :: Ours(s, n) && n.namespace == csv.namespace && s.subs[n].installedCSV == csv.name
  }

  predicate IsOperatorCSV(operator: string, csv: Name) {
    operator + "." <= csv.name
  }

  function Foreign(s: State, namespaces: seq<string>): map<Name, Subscription> {
    map n | n in s.subs && !(s.subs[n].labelled && n.namespace in namespaces) :: s.subs[n]
  }

  ghost function AfterSweep(s: State, operator: string, namespace: string): State {
    s.(csvs := set c | c in s.csvs && !(c.namespace == namespace && IsOperatorCSV(operator, c) && !Claimed(s, c)))
  }

  ghost function AfterSweeps(s: State, operator: string, namespaces: seq<string>): State {
    s.(csvs := set c | c in s.csvs && !(c.namespace in namespaces && IsOperatorCSV(operator, c) && !Claimed(s, c)))
  }

  ghost function AfterCleanup(s: State, operator: string, namespaces: seq<string>): State {
    var s' := s.(subs := Foreign(s, namespaces), csvs := set c | c in s.csvs
                 && !(c.namespace in namespaces && Installed(s, c)));
    AfterSweeps(s', operator, namespaces)
  }

  /**
   Cleaning up leaves no subscription of the addon, all the others, and each CSV one of these still names unless the
   addon installed it.
   */
  lemma CleanupIsExact(s: State, operator: string, namespaces: seq<string>)
    ensures forall n: Name :: n.namespace in namespaces ==> !Ours(AfterCleanup(s, operator, namespaces), n)
    ensures forall n :: n in s.subs && !s.subs[n].labelled ==>
              Get(AfterCleanup(s, operator, namespaces).subs, n) == Some(s.subs[n])
    ensures forall n: Name, csv |
              && n in s.subs && !s.subs[n].labelled && Names(s.subs[n], csv)
              && Name(n.namespace, csv) in s.csvs && !Installed(s, Name(n.namespace, csv)) ::
              Name(n.namespace, csv) in AfterCleanup(s, operator, namespaces).csvs
    ensures forall c :: c in s.csvs && c.namespace !in namespaces ==> c in AfterCleanup(s, operator, namespaces).csvs
  {
    var s' := s.(subs := Foreign(s, namespaces), csvs := set c | c in s.csvs
                 && !(c.namespace in namespaces && Installed(s, c)));
    forall n: Name, csv | n in s.subs && !s.subs[n].labelled && Names(s.subs[n], csv)
      ensures Claimed(s', Name(n.namespace, csv))
    {
      assert n in s'.subs;
    }
  }
}
