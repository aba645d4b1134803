/** Migrating the operator's subscription, removing it with its CSVs, and whole runs of all OLM steps. */
module OlmCleanup {
  import opened Options
  import opened Olm
  import opened OlmLog
  import opened OlmAgent

  /** None when the subscriptions cannot be checked. */
  method IsCsvReferencedByAnySubscription(spoke: Spoke, csv: Name) returns (referenced: Option<bool>)
    requires spoke.Valid()
    modifies spoke`calls, spoke`log
    ensures spoke.Valid() && Accounted(old(spoke.state), spoke.state, old(spoke.log), spoke.log)
    ensures referenced == Some(false) ==> |spoke.log| > 0 && ShowsUnclaimed(spoke.log[|spoke.log| - 1], csv)
    ensures spoke.AllDone() ==> referenced == Some(Claimed(spoke.state, csv))
  {
    var answer := spoke.ListSubscriptions(csv.namespace, false);
    if answer.Failed? {
      return None;
    }
    if answer.NotFound? || answer.NoKind? {
      return Some(false);
    }
    var items := answer.value;
    for i := 0 to |items|
      invariant forall j :: 0 <= j < i ==> !Names(items[j].1, csv.name)
    {
      if items[i].1.deleting {
        continue;
      }
      if items[i].1.installedCSV == csv.name || items[i].1.currentCSV == csv.name {
        assert (items[i].0, items[i].1) in items;
        return Some(true);
      }
    }
    forall n | n in spoke.state.subs && n.namespace == csv.namespace ensures !Names(spoke.state.subs[n], csv.name) {
      assert (n, spoke.state.subs[n]) in items;
    }
    return Some(false);
  }

  predicate Sweepable(s: State, operator: string, csv: Name) {
    IsOperatorCSV(operator, csv) && !Claimed(s, csv)
  }

  /** Deletes the operator's CSVs of a namespace that no subscription there claims. */
  method DeleteRemainingGitOpsCSVs(spoke: Spoke, namespace: string) returns (ok: bool)
    requires spoke.Valid()
    modifies spoke`calls, spoke`log, spoke`state
    ensures spoke.Valid() && Accounted(old(spoke.state), spoke.state, old(spoke.log), spoke.log)
    ensures spoke.state.subs == old(spoke.state.subs) && spoke.state.plans == old(spoke.state.plans)
    ensures spoke.state.csvs <= old(spoke.state.csvs)
    ensures spoke.AllDone() ==> ok && spoke.state == AfterSweep(old(spoke.state), spoke.target.name, namespace)
  {
    var answer := spoke.ListCSVs(namespace);
    if !answer.Got? {
      return !answer.Failed?;
    }
    var items := answer.value;
    for i := 0 to |items|
      invariant spoke.Valid() && Accounted(old(spoke.state), spoke.state, old(spoke.log), spoke.log)
      invariant spoke.state.subs == old(spoke.state.subs) && spoke.state.plans == old(spoke.state.plans)
      invariant spoke.state.csvs <= old(spoke.state.csvs)
      invariant spoke.AllDone() ==>
                  && spoke.state.csvs == set c | c in old(spoke.state.csvs)
                  && !(c in items[..i] && Sweepable(old(spoke.state), spoke.target.name, c))
    {
      var csv := items[i];
      assert items[..i + 1] == items[..i] + [csv];
      if !(spoke.target.name + "." <= csv.name) {
        continue;
      }
      var referenced := IsCsvReferencedByAnySubscription(spoke, csv);
      if referenced != Some(false) {
        continue;
      }
      var outcome := spoke.DeleteCSV(csv);
    }
    assert items[..|items|] == items;
    return true;
  }

  ghost function AfterMigration(s: State, operator: string, namespace: string): State {
    var n := Name(namespace, operator);
    if n in s.subs && !s.subs[n].labelled then s
    else if n !in s.subs then AfterSweep(s, operator, namespace)
    else if s.subs[n].installedCSV == "" then AfterSweep(WithoutSub(s, n), operator, namespace)
    else AfterSweep(WithoutSub(s, n).(csvs := s.csvs - {Name(namespace, s.subs[n].installedCSV)}), operator, namespace)
  }

  /** Removes the addon's subscription and its CSVs from a namespace it used to be in. */
  method MigrateSubscriptionFromNamespace(spoke: Spoke, namespace: string) returns (ok: bool)
    requires spoke.Valid()
    modifies spoke
    ensures spoke.Valid() && Accounted(old(spoke.state), spoke.state, old(spoke.log), spoke.log)
            && OthersKept(old(spoke.state), spoke.state)
    ensures forall m :: m != Name(namespace, spoke.target.name) ==>
              Get(spoke.state.subs, m) == Get(old(spoke.state.subs), m)
    ensures spoke.AllDone() ==> ok && spoke.state == AfterMigration(old(spoke.state), spoke.target.name, namespace)
    ensures !Ours(old(spoke.state), Name(namespace, spoke.target.name)) ==>
              spoke.writes == old(spoke.writes) && spoke.state.subs == old(spoke.state.subs)
  {
    var n := Name(namespace, spoke.target.name);
    var answer := spoke.GetSubscription(n);
    if answer.Failed? {
      return false;
    }
    if answer.Got? {
      if !answer.value.labelled {
        return true;
      }
      ok := DeleteWithCSV(spoke, n, answer.value);
      if !ok {
        return;
      }
    }
    ghost var before, logBefore := spoke.state, spoke.log;
    var swept := DeleteRemainingGitOpsCSVs(spoke, namespace);
    AccountedThen(old(spoke.state), before, spoke.state, old(spoke.log), logBefore, spoke.log);
    return true;
  }

  /** The CSV's name is taken from the subscription before that goes. */
  method DeleteWithCSV(spoke: Spoke, n: Name, sub: Subscription) returns (ok: bool)
    requires spoke.Valid() && sub.labelled && Get(spoke.state.subs, n) == Some(sub)
    requires |spoke.log| > 0 && spoke.log[|spoke.log| - 1] == Read(n, sub)
    modifies spoke
    ensures spoke.Valid() && Accounted(old(spoke.state), spoke.state, old(spoke.log), spoke.log)
            && OthersKept(old(spoke.state), spoke.state)
    ensures forall m :: m != n ==> Get(spoke.state.subs, m) == Get(old(spoke.state.subs), m)
    ensures spoke.AllDone() ==>
              && ok
              && spoke.state == (if sub.installedCSV == "" then WithoutSub(old(spoke.state), n)
                                 else WithoutSub(old(spoke.state),
                                       n).(csvs := old(spoke.state.csvs) - {Name(n.namespace, sub.installedCSV)}))
  {
    var outcome := spoke.DeleteSubscription(n);
    if outcome.KindMissing? || outcome.Error? {
      return false;
    }
    if sub.installedCSV != "" {
      var csv := Name(n.namespace, sub.installedCSV);
      assert SeenInstalled(old(spoke.log), csv) by {
        assert ShowsInstalled(old(spoke.log)[|old(spoke.log)| - 1], csv);
      }
      SeenBefore(old(spoke.log), spoke.log, csv);
      outcome := spoke.DeleteCSV(csv);
    }
    return true;
  }

  // ---------------------------------------------------------------------------------------------
  // Clean-up
  // ---------------------------------------------------------------------------------------------

  /** The CSVs installed by the addon's subscriptions of a namespace; None when these cannot be listed. */
  method GetInstalledCSVsFromLabeledSubscriptions(spoke: Spoke, namespace: string) returns (refs: Option<seq<Name>>)
    requires spoke.Valid()
    modifies spoke`calls, spoke`log
    ensures spoke.Valid() && Accounted(old(spoke.state), spoke.state, old(spoke.log), spoke.log)
    ensures refs.Some? ==> forall c :: c in refs.value ==> c.name != "" && SeenInstalled(spoke.log, c)
    ensures spoke.AllDone() ==> refs.Some? && forall c :: c in refs.value <==>
              c.namespace == namespace && Installed(spoke.state, c)
  {
    var answer := spoke.ListSubscriptions(namespace, true);
    if answer.Failed? {
      return None;
    }
    if answer.NotFound? || answer.NoKind? {
      return Some([]);
    }
    var items := answer.value;
    var found: seq<Name> := [];
    for i := 0 to |items|
      invariant forall c :: c in found <==>
                  && c.namespace == namespace && c.name != ""
                  && exists j :: 0 <= j < i && items[j].1.installedCSV == c.name
    {
      if items[i].1.installedCSV != "" {
        found := found + [Name(namespace, items[i].1.installedCSV)];
      }
    }
    forall c | c in found ensures SeenInstalled(spoke.log, c) && Installed(spoke.state, c) {
      var j :| 0 <= j < |items| && items[j].1.installedCSV == c.name;
      assert (items[j].0, items[j].1) in items;
      assert ShowsInstalled(spoke.log[|spoke.log| - 1], c);
      assert Ours(spoke.state, items[j].0);
    }
    forall c: Name | c.namespace == namespace && Installed(spoke.state, c) ensures c in found {
      var n :| Ours(spoke.state, n) && n.namespace == c.namespace && spoke.state.subs[n].installedCSV == c.name;
      assert (n, spoke.state.subs[n]) in items;
    }
    return Some(found);
  }

  /** So far only the addon's subscriptions have been deleted, or marked as being deleted. */
  ghost predicate DeletesOwn(s: State, t: State, a: seq<Event>, b: seq<Event>) {
    && Accounted(s, t, a, b) && OthersKept(s, t) && t.csvs == s.csvs && t.plans == s.plans
    && forall n :: n in t.subs ==> n in s.subs && t.subs[n].labelled == s.subs[n].labelled
  }

  lemma MinusMore(m: map<Name, Subscription>, gone: set<Name>, n: Name)
    ensures m - gone - {n} == m - (gone + {n})
  {
  }

  method DeleteOwn(spoke: Spoke, n: Name, ghost start: State, ghost log: seq<Event>)
    requires spoke.Valid() && DeletesOwn(start, spoke.state, log, spoke.log) && Ours(start, n)
    modifies spoke
    ensures spoke.Valid() && DeletesOwn(start, spoke.state, log, spoke.log)
    ensures spoke.AllDone() ==> spoke.state.subs == old(spoke.state.subs) - {n}
  {
    ghost var before, logBefore := spoke.state, spoke.log;
    var outcome := spoke.DeleteSubscription(n);
    AccountedThen(start, before, spoke.state, log, logBefore, spoke.log);
    forall m | m in spoke.state.subs && m != n ensures m in before.subs && spoke.state.subs[m] == before.subs[m] {
      assert Get(spoke.state.subs, m) == Get(before.subs, m);
    }
  }

  /** Deletes the addon's subscriptions of a namespace, and says whether there were any. */
  method DeleteSubscriptionsInNamespace(spoke: Spoke, namespace: string) returns (found: Option<bool>)
    requires spoke.Valid()
    modifies spoke
    ensures spoke.Valid() && Accounted(old(spoke.state), spoke.state, old(spoke.log), spoke.log)
            && OthersKept(old(spoke.state), spoke.state)
    ensures spoke.state.csvs == old(spoke.state.csvs) && spoke.state.plans == old(spoke.state.plans)
    ensures spoke.AllDone() ==> spoke.state.subs == Foreign(old(spoke.state), [namespace])
    ensures spoke.AllDone() ==> found == Some(exists n: Name :: n.namespace == namespace && Ours(old(spoke.state), n))
  {
    var answer := spoke.ListSubscriptions(namespace, true);
    if answer.Failed? {
      return None;
    }
    if answer.NotFound? || answer.NoKind? {
      return Some(false);
    }
    var items := answer.value;
    ghost var gone: set<Name> := {};
    for i := 0 to |items|
      invariant spoke.Valid() && DeletesOwn(old(spoke.state), spoke.state, old(spoke.log), spoke.log)
      invariant forall n :: n in gone <==> exists j :: 0 <= j < i && items[j].0 == n
      invariant spoke.AllDone() ==> spoke.state.subs == old(spoke.state.subs) - gone
    {
      assert (items[i].0, items[i].1) in items;
      DeleteOwn(spoke, items[i].0, old(spoke.state), old(spoke.log));
      MinusMore(old(spoke.state.subs), gone, items[i].0);
      gone := gone + {items[i].0};
    }
    forall n | n in gone ensures n.namespace == namespace && Ours(old(spoke.state), n) {
      var j :| 0 <= j < |items| && items[j].0 == n;
      assert (items[j].0, items[j].1) in items;
    }
    if |items| > 0 {
      assert (items[0].0, items[0].1) in items;
      assert Ours(old(spoke.state), items[0].0);
    }
    forall n | n in old(spoke.state.subs) && n.namespace == namespace && old(spoke.state).subs[n].labelled
      ensures (n, old(spoke.state).subs[n]) in items
    {
    }
    return Some(|items| > 0);
  }

  // ---------------------------------------------------------------------------------------------
  // The conversion webhook of the ArgoCD CRD
  // ---------------------------------------------------------------------------------------------

  datatype Conversion = NoCRD | NoWebhook | ServiceWebhook | UrlWebhook

  class ArgoCDCRD {
    var conversion: Conversion

    constructor (conversion: Conversion)
      ensures this.conversion == conversion
    {
      this.conversion := conversion;
    }
  }

  /** Patches the webhook away, any or only one that OLM manages by naming a service. */
  method PatchConversionWebhook(spoke: Spoke, crd: ArgoCDCRD, onlyService: bool) returns (ok: bool)
    modifies spoke`calls, crd
    ensures crd.conversion == old(crd.conversion) || crd.conversion == Patched(old(crd.conversion), onlyService)
    ensures ok && spoke.response(old(spoke.calls)) != NoSuchKind ==>
              crd.conversion == Patched(old(crd.conversion), onlyService)
    ensures spoke.AllDone() ==> ok && crd.conversion == Patched(old(crd.conversion), onlyService)
  {
    var r := spoke.Call();
    if r.NoSuchKind? {
      return true;
    }
    if r.Broken? {
      return false;
    }
    if crd.conversion.NoCRD? || crd.conversion.NoWebhook? || (onlyService && crd.conversion.UrlWebhook?) {
      return true;
    }
    r := spoke.Call();
    ok := Works(r);
    if ok {
      crd.conversion := NoWebhook;
    }
  }

  function Patched(c: Conversion, onlyService: bool): Conversion {
    if c.ServiceWebhook? || (c.UrlWebhook? && !onlyService) then NoWebhook else c
  }

  function CleanupNamespaces(namespace: string): seq<string> {
    var known := [OLD_DEFAULT_NAMESPACE, "operators", OPERATOR_NAMESPACE, ADDON_NAMESPACE];
    if namespace in known then known else known + [namespace]
  }

  /** Removes all that the addon installed through OLM; `found` says whether there was anything. */
  method DeleteOLMResources(spoke: Spoke, crd: ArgoCDCRD) returns (found: bool, ok: bool)
    requires spoke.Valid()
    modifies spoke, crd
    ensures crd.conversion == old(crd.conversion) || crd.conversion == Patched(old(crd.conversion), false)
    ensures spoke.AllDone() ==> crd.conversion == Patched(old(crd.conversion), false)
    ensures spoke.Valid() && Accounted(old(spoke.state), spoke.state, old(spoke.log), spoke.log)
            && OthersKept(old(spoke.state), spoke.state)
    ensures spoke.AllDone() ==>
              ok && spoke.state == AfterCleanup(old(spoke.state), spoke.target.name,
                                                CleanupNamespaces(spoke.target.namespace))
    ensures spoke.AllDone() ==>
              (found <==>
                 exists n: Name ::
                   n.namespace in CleanupNamespaces(spoke.target.namespace) && Ours(old(spoke.state), n))
  {
    var namespaces := CleanupNamespaces(spoke.target.namespace);
    var csvs, collected := CollectCSVs(spoke, namespaces);
    var any, deleted := DeleteSubscriptions(spoke, namespaces);
    var gone := DeleteCSVs(spoke, csvs);
    var swept := SweepNamespaces(spoke, namespaces);
    var patched := PatchConversionWebhook(spoke, crd, false);
    found, ok := csvs != [] || any, collected && deleted && gone && swept && patched;
    if spoke.AllDone() {
      assert csvs != [] ==> csvs[0] in csvs;
    }
  }

  method CollectCSVs(spoke: Spoke, namespaces: seq<string>) returns (csvs: seq<Name>, ok: bool)
    requires spoke.Valid()
    modifies spoke`calls, spoke`log
    ensures spoke.Valid() && Accounted(old(spoke.state), spoke.state, old(spoke.log), spoke.log)
    ensures forall c :: c in csvs ==> c.name != "" && SeenInstalled(spoke.log, c)
    ensures spoke.AllDone() ==> ok && forall c :: c in csvs <==> c.namespace in namespaces && Installed(spoke.state, c)
  {
    csvs, ok := [], true;
    for i := 0 to |namespaces|
      invariant spoke.Valid() && Accounted(old(spoke.state), spoke.state, old(spoke.log), spoke.log)
      invariant forall c :: c in csvs ==> c.name != "" && SeenInstalled(spoke.log, c)
      invariant spoke.AllDone() ==> ok && forall c :: c in csvs <==>
                  c.namespace in namespaces[..i] && Installed(spoke.state, c)
    {
      ghost var before := spoke.log;
      var refs := GetInstalledCSVsFromLabeledSubscriptions(spoke, namespaces[i]);
      forall c | c in csvs ensures SeenInstalled(spoke.log, c) {
        SeenBefore(before, spoke.log, c);
      }
      if refs.Some? {
        csvs := csvs + refs.value;
      } else {
        ok := false;
      }
      assert namespaces[..i + 1] == namespaces[..i] + [namespaces[i]];
    }
    assert namespaces[..|namespaces|] == namespaces;
  }

  method DeleteSubscriptions(spoke: Spoke, namespaces: seq<string>) returns (any: bool, ok: bool)
    requires spoke.Valid()
    modifies spoke
    ensures spoke.Valid() && Accounted(old(spoke.state), spoke.state, old(spoke.log), spoke.log)
            && OthersKept(old(spoke.state), spoke.state)
    ensures spoke.state.csvs == old(spoke.state.csvs) && spoke.state.plans == old(spoke.state.plans)
    ensures spoke.AllDone() ==> ok && spoke.state.subs == Foreign(old(spoke.state), namespaces)
    ensures spoke.AllDone() ==> (any <==> exists n: Name :: n.namespace in namespaces && Ours(old(spoke.state), n))
  {
    any, ok := false, true;
    for i := 0 to |namespaces|
      invariant spoke.Valid() && Accounted(old(spoke.state), spoke.state, old(spoke.log), spoke.log)
                && OthersKept(old(spoke.state), spoke.state)
      invariant spoke.state.csvs == old(spoke.state.csvs) && spoke.state.plans == old(spoke.state.plans)
      invariant spoke.AllDone() ==> ok && spoke.state.subs == Foreign(old(spoke.state), namespaces[..i])
      invariant spoke.AllDone() ==>
                  (any <==> exists n: Name :: n.namespace in namespaces[..i] && Ours(old(spoke.state), n))
    {
      ghost var before := spoke.state;
      var found := DeleteSubscriptionsInNamespace(spoke, namespaces[i]);
      assert namespaces[..i + 1] == namespaces[..i] + [namespaces[i]];
      if spoke.AllDone() {
        ForeignStep(old(spoke.state), before, namespaces[..i], namespaces[i]);
      }
      any, ok := any || found == Some(true), ok && found.Some?;
    }
    assert namespaces[..|namespaces|] == namespaces;
  }

  lemma ForeignStep(s: State, t: State, namespaces: seq<string>, namespace: string)
    requires t.subs == Foreign(s, namespaces)
    ensures Foreign(t, [namespace]) == Foreign(s, namespaces + [namespace])
    ensures namespace !in namespaces ==> forall n: Name :: n.namespace == namespace ==> (Ours(t, n) <==> Ours(s, n))
    ensures forall n :: Ours(t, n) ==> Ours(s, n)
  {
  }

  method DeleteCSVs(spoke: Spoke, csvs: seq<Name>) returns (ok: bool)
    requires spoke.Valid() && forall c :: c in csvs ==> c.name != "" && SeenInstalled(spoke.log, c)
    modifies spoke`calls, spoke`log, spoke`state
    ensures spoke.Valid() && Accounted(old(spoke.state), spoke.state, old(spoke.log), spoke.log)
    ensures spoke.state.subs == old(spoke.state.subs) && spoke.state.plans == old(spoke.state.plans)
    ensures spoke.AllDone() ==> ok && spoke.state.csvs == set c | c in old(spoke.state.csvs) && c !in csvs
  {
    ok := true;
    for i := 0 to |csvs|
      invariant spoke.Valid() && Accounted(old(spoke.state), spoke.state, old(spoke.log), spoke.log)
      invariant spoke.state.subs == old(spoke.state.subs) && spoke.state.plans == old(spoke.state.plans)
      invariant spoke.AllDone() ==> ok && spoke.state.csvs == set c | c in old(spoke.state.csvs) && c !in csvs[..i]
    {
      SeenBefore(old(spoke.log), spoke.log, csvs[i]);
      var outcome := spoke.DeleteCSV(csvs[i]);
      ok := ok && !outcome.Error?;
      assert csvs[..i + 1] == csvs[..i] + [csvs[i]];
    }
    assert csvs[..|csvs|] == csvs;
  }

  method SweepNamespaces(spoke: Spoke, namespaces: seq<string>) returns (ok: bool)
    requires spoke.Valid()
    modifies spoke`calls, spoke`log, spoke`state
    ensures spoke.Valid() && Accounted(old(spoke.state), spoke.state, old(spoke.log), spoke.log)
    ensures spoke.state.subs == old(spoke.state.subs) && spoke.state.plans == old(spoke.state.plans)
    ensures spoke.AllDone() ==> ok && spoke.state == AfterSweeps(old(spoke.state), spoke.target.name, namespaces)
  {
    ok := true;
    for i := 0 to |namespaces|
      invariant spoke.Valid() && Accounted(old(spoke.state), spoke.state, old(spoke.log), spoke.log)
      invariant spoke.state.subs == old(spoke.state.subs) && spoke.state.plans == old(spoke.state.plans)
      invariant spoke.AllDone() ==>
                  ok && spoke.state == AfterSweeps(old(spoke.state), spoke.target.name, namespaces[..i])
    {
      ghost var before := spoke.state;
      var swept := DeleteRemainingGitOpsCSVs(spoke, namespaces[i]);
      ok := ok && swept;
      if spoke.AllDone() {
        SweepStep(old(spoke.state), before, spoke.target.name, namespaces[..i], namespaces[i]);
      }
      assert namespaces[..i + 1] == namespaces[..i] + [namespaces[i]];
    }
    assert namespaces[..|namespaces|] == namespaces;
  }

  lemma SweepStep(s: State, t: State, operator: string, namespaces: seq<string>, namespace: string)
    requires t == AfterSweeps(s, operator, namespaces)
    ensures AfterSweep(t, operator, namespace) == AfterSweeps(s, operator, namespaces + [namespace])
  {
    assert forall c :: Claimed(t, c) <==> Claimed(s, c);
    assert AfterSweep(t, operator, namespace).csvs == AfterSweeps(s, operator, namespaces + [namespace]).csvs;
  }

  // ---------------------------------------------------------------------------------------------
  // Installation, and whole runs
  // ---------------------------------------------------------------------------------------------

  ghost function AfterMigrations(s: State, target: Name, namespaces: seq<string>): State {
    if namespaces == [] then s
    else
      var last := |namespaces| - 1;
      var t := AfterMigrations(s, target, namespaces[..last]);
      if namespaces[last] == target.namespace then t else AfterMigration(t, target.name, namespaces[last])
  }

  const OLD_NAMESPACES: seq<string> := [OLD_DEFAULT_NAMESPACE, ADDON_NAMESPACE]

  /** Migrates, recovers and installs. */
  method InstallViaOLMSubscription(spoke: Spoke, crd: ArgoCDCRD) returns (ok: bool)
    requires spoke.Valid()
    modifies spoke, crd
    ensures spoke.Valid() && Accounted(old(spoke.state), spoke.state, old(spoke.log), spoke.log)
            && OthersKept(old(spoke.state), spoke.state)
    ensures spoke.AllDone() ==>
              ok && spoke.state == AfterPass(AfterMigrations(old(spoke.state), spoke.target, OLD_NAMESPACES),
                                             spoke.target, spoke.settings)
    ensures spoke.AllDone() ==>
              (Settled(spoke.state, spoke.target, spoke.settings) <==>
                    spoke.target !in old(spoke.state.subs) || old(spoke.state.subs[spoke.target]).labelled)
    ensures spoke.AllDone() && NothingToMigrate(old(spoke.state), spoke.target)
            && Settled(old(spoke.state), spoke.target, spoke.settings) ==>
              spoke.writes == old(spoke.writes) && crd.conversion == old(crd.conversion)
  {
    MigrateOld(spoke);
    ghost var migrated, logMigrated := spoke.state, spoke.log;
    ok := InstallAfterMigration(spoke, crd);
    if Settled(old(spoke.state), spoke.target, spoke.settings) {
      SettledThroughMigrations(old(spoke.state), spoke.target, spoke.settings, OLD_NAMESPACES);
      if spoke.AllDone() {
        SettledStays(migrated, spoke.target, spoke.settings);
      }
    }
    PassSettles(migrated, spoke.target, spoke.settings);
    AccountedThen(old(spoke.state), migrated, spoke.state, old(spoke.log), logMigrated, spoke.log);
  }

  /** Migrates from the namespaces the subscription used to be in, except the one it is to be in now. */
  method MigrateOld(spoke: Spoke)
    requires spoke.Valid()
    modifies spoke
    ensures spoke.Valid() && OthersKept(old(spoke.state), spoke.state)
    ensures Accounted(old(spoke.state), spoke.state, old(spoke.log), spoke.log)
    ensures Get(spoke.state.subs, spoke.target) == Get(old(spoke.state.subs), spoke.target)
    ensures spoke.AllDone() ==> spoke.state == AfterMigrations(old(spoke.state), spoke.target, OLD_NAMESPACES)
    ensures spoke.AllDone() && NothingToMigrate(old(spoke.state), spoke.target) ==> spoke.writes == old(spoke.writes)
  {
    var namespaces := OLD_NAMESPACES;
    for i := 0 to |namespaces|
      invariant spoke.Valid() && OthersKept(old(spoke.state), spoke.state)
      invariant Accounted(old(spoke.state), spoke.state, old(spoke.log), spoke.log)
      invariant Get(spoke.state.subs, spoke.target) == Get(old(spoke.state.subs), spoke.target)
      invariant spoke.AllDone() ==> spoke.state == AfterMigrations(old(spoke.state), spoke.target, namespaces[..i])
      invariant spoke.AllDone() && NothingToMigrate(old(spoke.state), spoke.target) ==>
                  spoke.writes == old(spoke.writes) && spoke.state.subs == old(spoke.state.subs)
    {
      assert namespaces[..i + 1][..i] == namespaces[..i];
      if spoke.target.namespace == namespaces[i] {
        continue;
      }
      ghost var before, logBefore := spoke.state, spoke.log;
      var migrated := MigrateSubscriptionFromNamespace(spoke, namespaces[i]);
      AccountedThen(old(spoke.state), before, spoke.state, old(spoke.log), logBefore, spoke.log);
    }
    assert namespaces[..|namespaces|] == namespaces;
  }

  /** Migrating from elsewhere leaves a settled target settled. */
  lemma {:induction false} SettledThroughMigrations(s: State, target: Name, settings: Settings, namespaces: seq<string>)
    requires Settled(s, target, settings)
    ensures Settled(AfterMigrations(s, target, namespaces), target, settings)
  {
    if namespaces != [] {
      SettledThroughMigrations(s, target, settings, namespaces[..|namespaces| - 1]);
      var t := AfterMigrations(s, target, namespaces[..|namespaces| - 1]);
      if namespaces[|namespaces| - 1] != target.namespace {
        MigrationKeepsTarget(t, target, namespaces[|namespaces| - 1]);
      }
    }
  }

  lemma MigrationKeepsTarget(s: State, target: Name, namespace: string)
    requires namespace != target.namespace
    ensures var t := AfterMigration(s, target.name, namespace);
            && Get(t.subs, target) == Get(s.subs, target) && t.plans == s.plans
            && forall csv :: Name(target.namespace, csv) in t.csvs <==> Name(target.namespace, csv) in s.csvs
  {
  }

  /** No subscription of the addon is left in the namespaces it used to be in. */
  ghost predicate NothingToMigrate(s: State, target: Name) {
    forall namespace :: namespace in OLD_NAMESPACES && namespace != target.namespace ==>
          !Ours(s, Name(namespace, target.name))
  }

  method InstallAfterMigration(spoke: Spoke, crd: ArgoCDCRD) returns (ok: bool)
    requires spoke.Valid()
    modifies spoke, crd
    ensures crd.conversion == old(crd.conversion) || crd.conversion == Patched(old(crd.conversion), true)
    ensures spoke.AllDone() ==>
              var recovered := AfterGhostRecovery(AfterWebhookRecovery(old(spoke.state), spoke.target), spoke.target);
              crd.conversion == if NeedsWrite(recovered, spoke.target, spoke.settings)
                  then Patched(old(crd.conversion), true) else old(crd.conversion)
    ensures spoke.Valid() && OthersKept(old(spoke.state), spoke.state)
    ensures Accounted(old(spoke.state), spoke.state, old(spoke.log), spoke.log)
    ensures spoke.AllDone() ==> ok && spoke.state == AfterPass(old(spoke.state), spoke.target, spoke.settings)
    ensures spoke.AllDone() && Settled(old(spoke.state), spoke.target, spoke.settings) ==>
              spoke.writes == old(spoke.writes)
  {
    ghost var start := spoke.state;
    spoke.RecoverFromFailedWebhookInstallPlan();
    ghost var s1, log1 := spoke.state, spoke.log;
    spoke.RecoverFromGhostCompleteInstallPlan();
    AccountedThen(start, s1, spoke.state, old(spoke.log), log1, spoke.log);
    var needed := spoke.OlmSubscriptionNeedsUpdate();
    // Not on a steady state: the operator would restore the webhook each time.
    if needed {
      var patched := PatchConversionWebhook(spoke, crd, true);
    }
    ghost var s2, log2 := spoke.state, spoke.log;
    ok := spoke.CreateOrUpdateOLMSubscription();
    AccountedThen(start, s2, spoke.state, old(spoke.log), log2, spoke.log);
    if Settled(start, spoke.target, spoke.settings) {
      SettledStays(start, spoke.target, spoke.settings);
    }
  }

  /** OLM and the users may change anything between the addon's operations. */
  datatype Operation = Install | Uninstall | Others(state: State)

  /** One operation of a run: the states and logs before and after it. */
  datatype Stage = Stage(before: State, after: State, logBefore: seq<Event>, logAfter: seq<Event>)

  /** An operation of the addon leaves the subscriptions of others alone, and accounts for all it changes. */
  ghost predicate Proper(stage: Stage) {
    && OthersKept(stage.before, stage.after)
    && Accounted(stage.before, stage.after, stage.logBefore, stage.logAfter)
  }

  /** The stages lead from one state to another, and each operation of the addon is proper. */
  ghost predicate Stages(operations: seq<Operation>, stages: seq<Stage>, s: State, t: State) {
    && |stages| == |operations|
    && (if |stages| == 0 then t == s else stages[0].before == s && t == stages[|stages| - 1].after)
    && (forall i, j :: 0 <= i < j < |stages| && j == i + 1 ==> stages[j].before == stages[i].after)
    && (forall i :: 0 <= i < |stages| ==> operations[i].Others? || Proper(stages[i]))
  }

  lemma StagesNext(operations: seq<Operation>, stages: seq<Stage>, n: nat, s: State, stage: Stage)
    requires n < |operations| && Stages(operations[..n], stages, s, stage.before)
    requires operations[n].Others? || Proper(stage)
    ensures Stages(operations[..n + 1], stages + [stage], s, stage.after)
  {
    var ops, more := operations[..n + 1], stages + [stage];
    assert forall i :: 0 <= i < n ==> more[i] == stages[i] && ops[i] == operations[..n][i];
    assert more[n] == stage && ops[n] == operations[n];
  }

  /**
   Whatever happens in between and whichever calls fail: every update and deletion ever made was one the addon was
   entitled to, and no operation of the addon changed a subscription or removed a CSV without such an event.
   */
  method Run(spoke: Spoke, crd: ArgoCDCRD, operations: seq<Operation>) returns (ghost stages: seq<Stage>)
    requires spoke.Valid()
    modifies spoke, crd
    ensures Legit(spoke.log, spoke.target.name) && old(spoke.log) <= spoke.log
    ensures Stages(operations, stages, old(spoke.state), spoke.state)
    ensures forall i :: 0 <= i < |stages| ==> stages[i].logBefore <= stages[i].logAfter <= spoke.log
  {
    stages := [];
    for i := 0 to |operations|
      invariant spoke.Valid() && old(spoke.log) <= spoke.log
      invariant Stages(operations[..i], stages, old(spoke.state), spoke.state)
      invariant forall j :: 0 <= j < |stages| ==> stages[j].logBefore <= stages[j].logAfter <= spoke.log
    {
      ghost var before, logBefore := spoke.state, spoke.log;
      match operations[i] {
        case Install =>
          var ok := InstallViaOLMSubscription(spoke, crd);
        case Uninstall =>
          var found, ok := DeleteOLMResources(spoke, crd);
        case Others(state) =>
          spoke.state := state;
      }
      ghost var stage := Stage(before, spoke.state, logBefore, spoke.log);
      StagesNext(operations, stages, i, old(spoke.state), stage);
      stages := stages + [stage];
    }
    assert operations[..|operations|] == operations;
  }
}
