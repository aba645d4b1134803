/**
 The status conditions of a GitOpsCluster: setting one, updating several, and the Ready condition
 derived from all the others.
 */
module GitOpsClusterConditions {
  import opened Options

  datatype ConditionType =
    | Ready | PlacementResolved | ArgoServerVerified | ApplicationSetResourcesReady | PolicyTemplateReady
    | ClustersRegistered | AddOnTemplateReady | AddOnDeploymentConfigsReady | ManagedClusterAddOnsReady
    | ArgoCDAgentPrereqsReady | GitOpsAddonPrereqsReady | CertificatesReady | ManifestWorksApplied
    | OLMSubscriptionReady | ArgoCDPolicyReady

  datatype Status = IsTrue | IsFalse | IsUnknown

  datatype Condition = Condition(kind: ConditionType, status: Status, reason: string, lastTransition: nat)

  /** What a caller asks of one condition; also what a reader sees of it, the time aside. */
  datatype Update = Update(status: Status, reason: string)

  /** The parts of the spec and annotations the conditions depend on. */
  datatype Spec = Spec(addonEnabled: bool, agentEnabled: bool, olmRequested: bool, skipHubCAPropagation: bool) {
    /** The OLM override needs the addon as well. */
    predicate OlmSubscriptionEnabled() {
      addonEnabled && olmRequested
    }
  }

  type View = map<ConditionType, Update>

  // ---------------------------------------------------------------------------------------------
  // Lists of conditions
  // ---------------------------------------------------------------------------------------------

  ghost predicate OncePerType(conditions: seq<Condition>) {
    forall i, j :: 0 <= i < j < |conditions| ==> conditions[i].kind != conditions[j].kind
  }

  /** The conditions by type; the first of a type wins. */
  function ByType(conditions: seq<Condition>): (m: map<ConditionType, Condition>)
    ensures forall k :: k in m ==> m[k].kind == k
  {
    if conditions == [] then map[] else ByType(conditions[1..])[conditions[0].kind := conditions[0]]
  }

  function ViewOf(m: map<ConditionType, Condition>): View {
    map k | k in m :: Update(m[k].status, m[k].reason)
  }

  function Seen(conditions: seq<Condition>): View {
    ViewOf(ByType(conditions))
  }

  lemma ViewOfUpdate(m: map<ConditionType, Condition>, k: ConditionType, c: Condition)
    ensures ViewOf(m[k := c]) == ViewOf(m)[k := Update(c.status, c.reason)]
  {
  }

  /** A condition keeps its transition time while its status stays the same. */
  function Set(before: Option<Condition>, kind: ConditionType, status: Status, reason: string, now: nat): Condition {
    if before.Some? && before.value.status == status then before.value.(reason := reason)
    else Condition(kind, status, reason, now)
  }

  /** Transition times move only when the status does. */
  ghost predicate TimesKept(before: map<ConditionType, Condition>, after: map<ConditionType, Condition>) {
    forall k :: k in before && k in after && before[k].status == after[k].status ==>
          before[k].lastTransition == after[k].lastTransition
  }

  lemma {:induction false} ByTypeAt(conditions: seq<Condition>, i: nat)
    requires OncePerType(conditions) && i < |conditions|
    ensures conditions[i].kind in ByType(conditions) && ByType(conditions)[conditions[i].kind] == conditions[i]
  {
    if i > 0 {
      ByTypeAt(conditions[1..], i - 1);
      assert conditions[1..][i - 1] == conditions[i];
    }
  }

  lemma {:induction false} ByTypeFrom(conditions: seq<Condition>, kind: ConditionType)
    requires kind in ByType(conditions)
    ensures exists i :: 0 <= i < |conditions| && conditions[i] == ByType(conditions)[kind]
  {
    if conditions[0].kind == kind {
      assert conditions[0] == ByType(conditions)[kind];
    } else {
      ByTypeFrom(conditions[1..], kind);
      var i :| 0 <= i < |conditions[1..]| && conditions[1..][i] == ByType(conditions)[kind];
      assert conditions[i + 1] == ByType(conditions)[kind];
    }
  }

  /** Overwriting the condition of a type, or appending one of a new type, changes the map at that type only. */
  lemma {:induction false} Replaced(conditions: seq<Condition>, i: nat, c: Condition)
    requires OncePerType(conditions) && i < |conditions| && c.kind == conditions[i].kind
    ensures OncePerType(conditions[i := c]) && ByType(conditions[i := c]) == ByType(conditions)[c.kind := c]
  {
    if i > 0 {
      Replaced(conditions[1..], i - 1, c);
      assert conditions[i := c][1..] == conditions[1..][i - 1 := c];
    }
  }

  lemma {:induction false} Appended(conditions: seq<Condition>, c: Condition)
    requires OncePerType(conditions) && forall i :: 0 <= i < |conditions| ==> conditions[i].kind != c.kind
    ensures OncePerType(conditions + [c]) && ByType(conditions + [c]) == ByType(conditions)[c.kind := c]
    ensures c.kind !in ByType(conditions)
  {
    if conditions != [] {
      Appended(conditions[1..], c);
      assert (conditions + [c])[1..] == conditions[1..] + [c];
    }
  }

  // ---------------------------------------------------------------------------------------------
  // Ready as a summary
  // ---------------------------------------------------------------------------------------------

  function StatusOf(view: View, kind: ConditionType): Option<Status> {
    if kind in view then Some(view[kind].status) else None
  }

  /** Some condition other than Ready is False. */
  predicate SomeFailed(view: View) {
    exists k :: k != Ready && StatusOf(view, k) == Some(IsFalse)
  }

  /** The types that must be True for Ready to be True. */
  predicate Critical(view: View, spec: Spec, kind: ConditionType) {
    match kind
    case PlacementResolved | ArgoServerVerified | ClustersRegistered => true
    case ApplicationSetResourcesReady | PolicyTemplateReady => StatusOf(view, kind) != None
        && StatusOf(view, kind) != Some(IsUnknown)
    case AddOnDeploymentConfigsReady | ManagedClusterAddOnsReady | ArgoCDPolicyReady => spec.addonEnabled
    case OLMSubscriptionReady => spec.OlmSubscriptionEnabled()
    case AddOnTemplateReady | ArgoCDAgentPrereqsReady | CertificatesReady => spec.agentEnabled
    case ManifestWorksApplied => spec.agentEnabled && !spec.skipHubCAPropagation
    case GitOpsAddonPrereqsReady | Ready => false
  }

  predicate AllCriticalTrue(view: View, spec: Spec) {
    forall k :: Critical(view, spec, k) ==> StatusOf(view, k) == Some(IsTrue)
  }

  function Summary(view: View, spec: Spec): Update {
    if SomeFailed(view) then Update(IsFalse, "ClusterRegistrationFailed")
    else if AllCriticalTrue(view, spec) then Update(IsTrue, "Success")
    else Update(IsUnknown, "Reconciling")
  }

  function Summarized(view: View, spec: Spec): View {
    view[Ready := Summary(view, spec)]
  }

  ghost predicate AgreeButReady(v: View, w: View) {
    forall k :: k != Ready ==> StatusOf(v, k) == StatusOf(w, k)
  }

  /** The old Ready condition plays no part in the new one, nor do the reasons. */
  lemma SummaryIgnoresReady(v: View, w: View, spec: Spec)
    requires AgreeButReady(v, w)
    ensures Summary(v, spec) == Summary(w, spec)
  {
    if AllCriticalTrue(v, spec) {
      CriticalAgree(v, w, spec);
    }
    if AllCriticalTrue(w, spec) {
      CriticalAgree(w, v, spec);
    }
  }

  lemma CriticalAgree(v: View, w: View, spec: Spec)
    requires AgreeButReady(v, w) && AllCriticalTrue(v, spec)
    ensures AllCriticalTrue(w, spec)
  {
    forall k | Critical(w, spec, k) ensures StatusOf(w, k) == Some(IsTrue) {
      assert Critical(v, spec, k);
    }
  }

  /** What Ready says about the other conditions, as they are after an update. */
  lemma ReadyMeans(view: View, spec: Spec)
    ensures var v := Summarized(view, spec);
            && (StatusOf(v, Ready) == Some(IsFalse) <==> SomeFailed(v))
            && (StatusOf(v, Ready) == Some(IsTrue) <==> !SomeFailed(v) && AllCriticalTrue(v, spec))
            && (StatusOf(v, Ready) == Some(IsUnknown) <==> !SomeFailed(v) && !AllCriticalTrue(v, spec))
  {
    var v := Summarized(view, spec);
    assert AgreeButReady(view, v);
    SummaryIgnoresReady(view, v, spec);
  }

  /** Several updates as one, later ones taking precedence. */
  function Together(updates: seq<View>): View {
    if updates == [] then map[] else Together(updates[..|updates| - 1]) + updates[|updates| - 1]
  }

  function AfterUpdates(view: View, updates: seq<View>, spec: Spec): View {
    if updates == [] then view
    else Summarized(AfterUpdates(view, updates[..|updates| - 1], spec) + updates[|updates| - 1], spec)
  }

  /**
   After any sequence of updates the conditions are those of one update with them all: no intermediate Ready shows.
   */
  lemma {:induction false} UpdatesAddUp(view: View, updates: seq<View>, spec: Spec)
    requires updates != [] && forall u :: u in updates ==> Ready !in u
    ensures AfterUpdates(view, updates, spec) == Summarized(view + Together(updates), spec)
  {
    var n := |updates| - 1;
    var front, last := updates[..n], updates[n];
    PlusIsAssociative(view, Together(front), last);
    if n == 0 {
      assert view + Together(front) == view;
    } else {
      UpdatesAddUp(view, front, spec);
      SummarizedTwice(view + Together(front), last, spec);
    }
  }

  lemma PlusIsAssociative(u: View, v: View, w: View)
    ensures u + (v + w) == (u + v) + w
  {
  }

  lemma SummarizedTwice(before: View, last: View, spec: Spec)
    requires Ready !in last
    ensures Summarized(Summarized(before, spec) + last, spec) == Summarized(before + last, spec)
  {
    SummaryIgnoresReady(Summarized(before, spec) + last, before + last, spec);
  }

  // ---------------------------------------------------------------------------------------------
  // The object
  // ---------------------------------------------------------------------------------------------

  class GitOpsClusterStatus {
    var conditions: seq<Condition>
    var clock: nat

    constructor (conditions: seq<Condition>, clock: nat)
      ensures this.conditions == conditions && this.clock == clock
    {
      this.conditions, this.clock := conditions, clock;
    }

    ghost predicate Valid()
      reads this
    {
      OncePerType(conditions)
    }

    function GetView(): View
      reads this
    {
      Seen(conditions)
    }

    method SetCondition(kind: ConditionType, status: Status, reason: string)
      requires Valid()
      modifies this
      ensures Valid()
      ensures clock == old(clock) + 1
      ensures ByType(conditions) ==
              old(ByType(conditions))[kind := Set(Get(old(ByType(conditions)), kind), kind, status, reason, old(clock))]
    {
      var now := clock;
      clock := clock + 1;
      for i := 0 to |conditions|
        invariant conditions == old(conditions)
        invariant forall j :: 0 <= j < i ==> conditions[j].kind != kind
      {
        if conditions[i].kind == kind {
          ByTypeAt(conditions, i);
          if conditions[i].status != status {
            conditions := conditions[i := Condition(kind, status, reason, now)];
          } else {
            conditions := conditions[i := conditions[i].(reason := reason)];
          }
          Replaced(old(conditions), i, conditions[i]);
          return;
        }
      }
      conditions := conditions + [Condition(kind, status, reason, now)];
      Appended(old(conditions), Condition(kind, status, reason, now));
    }

    method GetCondition(kind: ConditionType) returns (found: Option<Status>)
      requires Valid()
      ensures found == StatusOf(GetView(), kind)
    {
      for i := 0 to |conditions|
        invariant forall j :: 0 <= j < i ==> conditions[j].kind != kind
      {
        if conditions[i].kind == kind {
          ByTypeAt(conditions, i);
          return Some(conditions[i].status);
        }
      }
      if kind in GetView() {
        ByTypeFrom(conditions, kind);
      }
      return None;
    }

    /** Sets Ready from all the other conditions. */
    method UpdateReadyCondition(spec: Spec)
      requires Valid()
      modifies this
      ensures Valid() && TimesKept(old(ByType(conditions)), ByType(conditions))
      ensures GetView() == Summarized(old(GetView()), spec)
      ensures ByType(conditions) - {Ready} == old(ByType(conditions)) - {Ready}
    {
      var hasError := HasError();
      if hasError {
        SetReady(IsFalse, "ClusterRegistrationFailed");
        return;
      }
      var critical := CriticalConditions(spec);
      var allReady := true;
      for i := 0 to |critical|
        invariant conditions == old(conditions)
        invariant allReady <==> forall k :: k in critical[..i] ==> StatusOf(GetView(), k) == Some(IsTrue)
      {
        var found := GetCondition(critical[i]);
        if found != Some(IsTrue) {
          allReady := false;
        }
        assert critical[..i + 1] == critical[..i] + [critical[i]];
      }
      assert critical[..|critical|] == critical;
      assert allReady <==> AllCriticalTrue(GetView(), spec);
      if allReady {
        SetReady(IsTrue, "Success");
      } else {
        SetReady(IsUnknown, "Reconciling");
      }
    }

    method SetReady(status: Status, reason: string)
      requires Valid()
      modifies this
      ensures Valid() && TimesKept(old(ByType(conditions)), ByType(conditions))
      ensures GetView() == old(GetView())[Ready := Update(status, reason)]
      ensures ByType(conditions) - {Ready} == old(ByType(conditions)) - {Ready}
    {
      ghost var before := ByType(conditions);
      SetCondition(Ready, status, reason);
      ViewOfUpdate(before, Ready, ByType(conditions)[Ready]);
    }

    method HasError() returns (hasError: bool)
      requires Valid()
      ensures hasError <==> SomeFailed(GetView())
    {
      hasError := false;
      for i := 0 to |conditions|
        invariant hasError <==> exists j :: 0 <= j < i && conditions[j].kind != Ready && conditions[j].status == IsFalse
      {
        if conditions[i].kind != Ready && conditions[i].status == IsFalse {
          hasError := true;
        }
      }
      if hasError {
        var j :| 0 <= j < |conditions| && conditions[j].kind != Ready && conditions[j].status == IsFalse;
        ByTypeAt(conditions, j);
        assert StatusOf(GetView(), conditions[j].kind) == Some(IsFalse);
      }
      if SomeFailed(GetView()) {
        var k :| k != Ready && StatusOf(GetView(), k) == Some(IsFalse);
        ByTypeFrom(conditions, k);
      }
    }

    method CriticalConditions(spec: Spec) returns (critical: seq<ConditionType>)
      requires Valid()
      ensures forall k :: k in critical <==> Critical(GetView(), spec, k)
    {
      critical := OptionalConditions();
      critical := [PlacementResolved, ArgoServerVerified, ClustersRegistered] + critical;
      if spec.addonEnabled {
        critical := critical + [AddOnDeploymentConfigsReady, ManagedClusterAddOnsReady, ArgoCDPolicyReady];
      }
      if spec.OlmSubscriptionEnabled() {
        critical := critical + [OLMSubscriptionReady];
      }
      if spec.agentEnabled {
        critical := critical + [AddOnTemplateReady, ArgoCDAgentPrereqsReady, CertificatesReady];
        if !spec.skipHubCAPropagation {
          critical := critical + [ManifestWorksApplied];
        }
      }
    }

    /** The optional steps count once they have a definite status. */
    method OptionalConditions() returns (optional: seq<ConditionType>)
      requires Valid()
      ensures forall k :: k in optional <==>
                            && (k == ApplicationSetResourcesReady || k == PolicyTemplateReady)
                            && StatusOf(GetView(), k) != None && StatusOf(GetView(), k) != Some(IsUnknown)
    {
      optional := [];
      var found := GetCondition(ApplicationSetResourcesReady);
      if found.Some? && found.value != IsUnknown {
        optional := optional + [ApplicationSetResourcesReady];
      }
      found := GetCondition(PolicyTemplateReady);
      if found.Some? && found.value != IsUnknown {
        optional := optional + [PolicyTemplateReady];
      }
    }

    /** The updates are made in an arbitrary order, on which the result does not depend. Ready is not among them. */
    method UpdateConditions(updates: View, spec: Spec)
      requires Valid() && Ready !in updates
      modifies this
      ensures Valid() && TimesKept(old(ByType(conditions)), ByType(conditions))
      ensures GetView() == Summarized(old(GetView()) + updates, spec)
    {
      ghost var before := ByType(conditions);
      SetAll(updates);
      ghost var middle := ByType(conditions);
      UpdateReadyCondition(spec);
      assert TimesKept(before, ByType(conditions)) by {
        forall k | k in before && k in ByType(conditions) && before[k].status == ByType(conditions)[k].status
          ensures before[k].lastTransition == ByType(conditions)[k].lastTransition
        {
          if k != Ready {
            assert (middle - {Ready})[k] == middle[k] && (ByType(conditions) - {Ready})[k] == ByType(conditions)[k];
          }
        }
      }
    }

    method SetAll(updates: View)
      requires Valid() && Ready !in updates
      modifies this
      ensures Valid() && TimesKept(old(ByType(conditions)), ByType(conditions))
      ensures GetView() == old(GetView()) + updates
      ensures Get(ByType(conditions), Ready) == Get(old(ByType(conditions)), Ready)
      ensures old(ByType(conditions)).Keys <= ByType(conditions).Keys
    {
      ghost var before := ByType(conditions);
      var left := updates.Keys;
      while left != {}
        invariant left <= updates.Keys
        invariant Valid() && Progress(before, ByType(conditions), updates, left)
        decreases left
      {
        var kind :| kind in left;
        ghost var middle := ByType(conditions);
        ghost var now := clock;
        SetCondition(kind, updates[kind].status, updates[kind].reason);
        ProgressStep(before, middle, updates, left, kind, now);
        left := left - {kind};
      }
      assert updates - {} == updates;
    }
  }

  /** All updates but those left have been made. */
  ghost predicate Progress(before: map<ConditionType, Condition>, now: map<ConditionType, Condition>, updates: View,
                           left: set<ConditionType>)
  {
    && TimesKept(before, now)
    && ViewOf(now) == ViewOf(before) + (updates - left)
    && (forall k :: k in left || k !in updates ==> Get(now, k) == Get(before, k))
    && before.Keys <= now.Keys
  }

  lemma ProgressStep(before: map<ConditionType, Condition>, middle: map<ConditionType, Condition>, updates: View,
                     left: set<ConditionType>, k: ConditionType, now: nat)
    requires k in left && left <= updates.Keys && Progress(before, middle, updates, left)
    ensures Progress(before, middle[k := Set(Get(middle, k), k, updates[k].status, updates[k].reason, now)], updates,
                     left - {k})
  {
    var c := Set(Get(middle, k), k, updates[k].status, updates[k].reason, now);
    assert Get(middle, k) == Get(before, k);
    SetKeepsTimes(before, middle, k, updates[k].status, updates[k].reason, now);
    ViewOfUpdate(middle, k, c);
    OneLessLeft(ViewOf(before), updates, left, k);
    forall j | j in left - {k} || j !in updates ensures Get(middle[k := c], j) == Get(before, j) {
      assert Get(middle, j) == Get(before, j);
    }
  }

  lemma OneLessLeft(v: View, updates: View, left: set<ConditionType>, k: ConditionType)
    requires k in left && left <= updates.Keys
    ensures (v + (updates - left))[k := updates[k]] == v + (updates - (left - {k}))
  {
    assert updates - (left - {k}) == (updates - left)[k := updates[k]];
  }

  lemma SetKeepsTimes(before: map<ConditionType, Condition>, middle: map<ConditionType, Condition>, kind: ConditionType,
                      status: Status, reason: string, now: nat)
    requires TimesKept(before, middle) && Get(middle, kind) == Get(before, kind)
    ensures TimesKept(before, middle[kind := Set(Get(middle, kind), kind, status, reason, now)])
  {
  }
}
