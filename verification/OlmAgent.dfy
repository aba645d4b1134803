/** The addon's OLM steps, call by call. */
module OlmAgent {
  import opened Options
  import opened Olm
  import opened OlmLog

  /** How the API server treats a call: a deletion that lingers leaves the object in place, marked as being deleted. */
  datatype Response = Done | Lingers | NoSuchKind | Broken

  predicate Works(r: Response) {
    r.Done? || r.Lingers?
  }

  datatype Answer<T> = Got(value: T) | NotFound | NoKind | Failed

  datatype Outcome = Fine | Absent | Conflict | KindMissing | Error

  class Spoke {
    const target: Name
    const settings: Settings
    const response: nat -> Response
    var calls: nat
    var state: State
    var namespaces: set<string>
    /** Subscriptions created, updated or deleted so far. */
    var writes: nat
    ghost var log: seq<Event>

    constructor (target: Name, settings: Settings, response: nat -> Response, state: State, namespaces: set<string>)
      ensures this.target == target && this.settings == settings && this.response == response
      ensures this.state == state && this.namespaces == namespaces
      ensures Valid() && log == []
    {
      this.target, this.settings, this.response, this.state := target, settings, response, state;
      this.namespaces, calls, writes, log := namespaces, 0, 0, [];
    }

    ghost predicate Valid()
      reads this
    {
      Legit(log, target.name)
    }

    /** No call fails. */
    ghost predicate AllDone() {
      forall n {:trigger response(n)} :: response(n) == Done
    }

    // -----------------------------------------------------------------------------------------
    // The API server
    // -----------------------------------------------------------------------------------------

    method Call() returns (r: Response)
      modifies this`calls
      ensures r == response(old(calls)) && calls == old(calls) + 1
    {
      r := response(calls);
      calls := calls + 1;
    }

    method GetSubscription(n: Name) returns (answer: Answer<Subscription>)
      requires Valid()
      modifies this`calls, this`log
      ensures Valid()
      ensures answer.Got? ==> Get(state.subs, n) == Some(answer.value) && log == old(log) + [Read(n, answer.value)]
      ensures !answer.Got? ==> log == old(log)
      ensures answer == NotFound ==> n !in state.subs
      ensures AllDone() ==> answer == if n in state.subs then Got(state.subs[n]) else NotFound
    {
      var r := Call();
      if r.NoSuchKind? {
        return NoKind;
      } else if r.Broken? {
        return Failed;
      } else if n !in state.subs {
        return NotFound;
      }
      answer := Got(state.subs[n]);
      LegitSnoc(log, target.name, Read(n, answer.value));
      log := log + [Read(n, answer.value)];
    }

    method GetCSV(n: Name) returns (answer: Answer<()>)
      modifies this`calls
      ensures answer.Got? ==> n in state.csvs
      ensures answer == NotFound ==> n !in state.csvs
      ensures AllDone() ==> answer == if n in state.csvs then Got(()) else NotFound
    {
      var r := Call();
      return if r.NoSuchKind? then NoKind else if r.Broken? then Failed else if n in state.csvs then Got(())
          else NotFound;
    }

    method GetPlan(n: Name) returns (answer: Answer<Phase>)
      modifies this`calls
      ensures answer.Got? ==> Get(state.plans, n) == Some(answer.value)
      ensures AllDone() ==> answer == if n in state.plans then Got(state.plans[n]) else NotFound
    {
      var r := Call();
      return if r.NoSuchKind? then NoKind else if r.Broken? then Failed else if n in state.plans
          then Got(state.plans[n]) else NotFound;
    }

    /** The items of a namespace, in some order. */
    ghost predicate IsListing(items: seq<(Name, Subscription)>, namespace: string, ours: bool)
      reads this
    {
      forall n, sub :: (n, sub) in items <==>
            Get(state.subs, n) == Some(sub) && n.namespace == namespace && (ours ==> sub.labelled)
    }

    method ListSubscriptions(namespace: string, ours: bool) returns (answer: Answer<seq<(Name, Subscription)>>)
      requires Valid()
      modifies this`calls, this`log
      ensures Valid()
      ensures answer.Got? ==>
                IsListing(answer.value, namespace, ours) && log == old(log) + [Listed(namespace, answer.value)]
      ensures answer.NotFound? || answer.NoKind? ==> log == old(log) + [ListingUnavailable(namespace)]
      ensures answer.Failed? ==> log == old(log)
      ensures AllDone() ==> answer.Got?
    {
      var r := Call();
      if r.Broken? {
        return Failed;
      }
      if r.NoSuchKind? {
        LegitSnoc(log, target.name, ListingUnavailable(namespace));
        log := log + [ListingUnavailable(namespace)];
        return NoKind;
      }
      var items: seq<(Name, Subscription)> := [];
      var left := state.subs.Keys;
      while left != {}
        invariant left <= state.subs.Keys
        invariant forall n, sub :: (n, sub) in items <==>
                    n !in left && Get(state.subs, n) == Some(sub) && n.namespace == namespace && (ours ==> sub.labelled)
        decreases left
      {
        var n :| n in left;
        if n.namespace == namespace && (ours ==> state.subs[n].labelled) {
          items := items + [(n, state.subs[n])];
        }
        left := left - {n};
      }
      LegitSnoc(log, target.name, Listed(namespace, items));
      log := log + [Listed(namespace, items)];
      return Got(items);
    }

    method ListCSVs(namespace: string) returns (answer: Answer<seq<Name>>)
      modifies this`calls
      ensures answer.Got? ==> forall c :: c in answer.value <==> c in state.csvs && c.namespace == namespace
      ensures AllDone() ==> answer.Got?
    {
      var r := Call();
      if r.Broken? {
        return Failed;
      }
      if r.NoSuchKind? {
        return NoKind;
      }
      var items: seq<Name> := [];
      var left := state.csvs;
      while left != {}
        invariant left <= state.csvs
        invariant forall c :: c in items <==> c !in left && c in state.csvs && c.namespace == namespace
        decreases left
      {
        var c :| c in left;
        if c.namespace == namespace {
          items := items + [c];
        }
        left := left - {c};
      }
      return Got(items);
    }

    method CreateSubscription(n: Name, sub: Subscription) returns (outcome: Outcome)
      requires Valid()
      modifies this
      ensures namespaces == old(namespaces)
      ensures Valid() && Accounted(old(state), state, old(log), log)
      ensures outcome.Fine? <==> n !in old(state.subs) && writes == old(writes) + 1
      ensures state == if outcome.Fine? then old(state).(subs := old(state).subs[n := sub]) else old(state)
      ensures AllDone() && n !in old(state.subs) ==> outcome == Fine
    {
      var r := Call();
      if r.NoSuchKind? || r.Broken? {
        return Error;
      }
      if n in state.subs {
        return Conflict;
      }
      state := state.(subs := state.subs[n := sub]);
      writes := writes + 1;
      LegitSnoc(log, target.name, Created(n));
      log := log + [Created(n)];
      assert WritesSubscription(log[|old(log)|], n);
      return Fine;
    }

    /** An update of the labels and settings; the status stays. */
    method UpdateSubscription(n: Name, labelled: bool, settings: Settings) returns (outcome: Outcome)
      requires Valid() && (n in state.subs ==> state.subs[n].labelled)
      modifies this
      ensures namespaces == old(namespaces)
      ensures Valid() && Accounted(old(state), state, old(log), log)
      ensures outcome.Fine? ==>
                && n in old(state.subs) && writes == old(writes) + 1
                && state == old(state).(subs :=
                    old(state).subs[n := old(state).subs[n].(labelled := labelled, settings := settings)])
      ensures !outcome.Fine? ==> state == old(state)
      ensures AllDone() && n in old(state.subs) ==> outcome == Fine
    {
      var r := Call();
      if r.NoSuchKind? || r.Broken? {
        return Error;
      }
      if n !in state.subs {
        return Absent;
      }
      LegitSnoc(log, target.name, Updated(n, state.subs[n]));
      log := log + [Updated(n, state.subs[n])];
      assert WritesSubscription(log[|old(log)|], n);
      state := state.(subs := state.subs[n := state.subs[n].(labelled := labelled, settings := settings)]);
      writes := writes + 1;
      return Fine;
    }

    method DeleteSubscription(n: Name) returns (outcome: Outcome)
      requires Valid() && (n in state.subs ==> state.subs[n].labelled)
      modifies this
      ensures namespaces == old(namespaces)
      ensures Valid() && Accounted(old(state), state, old(log), log)
      ensures state.csvs == old(state.csvs) && state.plans == old(state.plans)
      ensures OthersKept(old(state), state)
      ensures n in old(state.subs) && outcome.Fine? ==> writes == old(writes) + 1
      ensures forall m :: m != n ==> Get(state.subs, m) == Get(old(state.subs), m)
      ensures n in state.subs ==> n in old(state.subs) && state.subs[n].labelled
      ensures AllDone() ==>
                state == WithoutSub(old(state), n) && outcome == if n in old(state.subs) then Fine else Absent
    {
      var r := Call();
      if r.NoSuchKind? {
        return KindMissing;
      }
      if r.Broken? {
        return Error;
      }
      if n !in state.subs {
        return Absent;
      }
      LegitSnoc(log, target.name, Deleted(n, state.subs[n]));
      log := log + [Deleted(n, state.subs[n])];
      assert WritesSubscription(log[|old(log)|], n);
      writes := writes + 1;
      if r.Lingers? {
        state := state.(subs := state.subs[n := state.subs[n].(deleting := true)]);
      } else {
        state := WithoutSub(state, n);
      }
      return Fine;
    }

    method DeletePlan(n: Name) returns (outcome: Outcome)
      modifies this`calls, this`state
      ensures state == old(state) || state == WithoutPlan(old(state), n)
      ensures AllDone() ==> state == WithoutPlan(old(state), n) && (outcome.Fine? || outcome.Absent?)
    {
      var r := Call();
      if r.NoSuchKind? {
        return KindMissing;
      }
      if r.Broken? {
        return Error;
      }
      if n !in state.plans {
        return Absent;
      }
      if r.Done? {
        state := WithoutPlan(state, n);
      }
      return Fine;
    }

    method DeleteCSV(csv: Name) returns (outcome: Outcome)
      requires Valid() && Entitled(log, target.name, DeletedCSV(csv))
      modifies this`calls, this`state, this`log
      ensures Valid() && Accounted(old(state), state, old(log), log)
      ensures state.subs == old(state.subs) && state.plans == old(state.plans)
      ensures old(state.csvs) - {csv} <= state.csvs <= old(state.csvs)
      ensures AllDone() ==> state == old(state).(csvs := old(state.csvs) - {csv}) && (outcome.Fine? || outcome.Absent?)
    {
      var r := Call();
      if r.NoSuchKind? {
        return KindMissing;
      }
      if r.Broken? {
        return Error;
      }
      if csv !in state.csvs {
        return Absent;
      }
      LegitSnoc(log, target.name, DeletedCSV(csv));
      log := log + [DeletedCSV(csv)];
      assert log[|old(log)|] == DeletedCSV(csv);
      if r.Done? {
        state := state.(csvs := state.csvs - {csv});
      }
      return Fine;
    }

    // -----------------------------------------------------------------------------------------
    // Recovery and installation
    // -----------------------------------------------------------------------------------------

    /** Deletes the InstallPlan that failed on the conversion webhook. */
    method RecoverFromFailedWebhookInstallPlan()
      requires Valid()
      modifies this
      ensures Valid() && Accounted(old(state), state, old(log), log) && writes == old(writes)
      ensures state == old(state) || state == AfterWebhookRecovery(old(state), target)
      ensures AllDone() ==> state == AfterWebhookRecovery(old(state), target)
    {
      var answer := GetSubscription(target);
      if !answer.Got? || !answer.value.labelled {
        return;
      }
      var sub := answer.value;
      for i := 0 to |sub.conditions|
        invariant Valid() && Accounted(old(state), state, old(log), log) && writes == old(writes) && state == old(state)
        invariant forall j :: 0 <= j < i ==> !WebhookFailure(sub.conditions[j])
      {
        if sub.conditions[i].kind != InstallPlanFailed || !sub.conditions[i].isTrue
            || !sub.conditions[i].blamesWebhook {
          continue;
        }
        assert WebhookFailure(sub.conditions[i]);
        if sub.installPlan == "" {
          return;
        }
        var outcome := DeletePlan(Name(target.namespace, sub.installPlan));
        return;
      }
    }

    /** Deletes the subscription whose operator OLM wrongly takes for installed, and its InstallPlan. */
    method RecoverFromGhostCompleteInstallPlan()
      requires Valid()
      modifies this
      ensures Valid() && Accounted(old(state), state, old(log), log)
      ensures state.csvs == old(state.csvs) && OthersKept(old(state), state)
      ensures forall m :: m != target ==> Get(state.subs, m) == Get(old(state.subs), m)
      ensures state != old(state) ==>
                && Ours(old(state), target) && ExpectedCSV(old(state.subs[target])) != ""
                && var plan := Name(target.namespace, old(state.subs[target]).installPlan);
                   && (old(state.subs[target]).installedCSV != "" || PlanComplete(old(state), plan))
                   && old(state.plans) - {plan} == state.plans - {plan}
      ensures AllDone() ==> state == AfterGhostRecovery(old(state), target)
      ensures AllDone() && !Ghost(old(state), target) ==> writes == old(writes)
    {
      var answer := GetSubscription(target);
      if !answer.Got? || !answer.value.labelled {
        return;
      }
      var sub := answer.value;
      var csv := sub.currentCSV;
      if csv == "" {
        csv := sub.installedCSV;
      }
      if csv == "" {
        return;
      }
      var found := GetCSV(Name(target.namespace, csv));
      if found.Got? || found.Failed? {
        return;
      }
      var plan := Name(target.namespace, sub.installPlan);
      var known, complete := false, false;
      if sub.installPlan != "" {
        var phase := GetPlan(plan);
        known, complete := phase.Got?, phase.Got? && phase.value == Complete;
      }
      if sub.installedCSV == "" && !complete {
        return;
      }
      if known {
        var outcome := DeletePlan(plan);
      }
      ghost var before, logBefore := state, log;
      var outcome := DeleteSubscription(target);
      AccountedThen(old(state), before, state, old(log), logBefore, log);
    }

    method HasPlanMissing(sub: Subscription) returns (missing: bool)
      ensures missing <==> PlanMissing(sub)
    {
      for i := 0 to |sub.conditions|
        invariant forall j :: 0 <= j < i ==> !(sub.conditions[j].kind == InstallPlanMissing && sub.conditions[j].isTrue)
      {
        if sub.conditions[i].kind == InstallPlanMissing && sub.conditions[i].isTrue {
          return true;
        }
      }
      return false;
    }

    /** Whether create-or-update is going to write. */
    method OlmSubscriptionNeedsUpdate() returns (needed: bool)
      requires Valid()
      modifies this`calls, this`log
      ensures Valid() && Accounted(old(state), state, old(log), log)
      ensures !needed ==> !NeedsWrite(state, target, settings)
      ensures AllDone() ==> needed == NeedsWrite(state, target, settings)
    {
      var answer := GetSubscription(target);
      if !answer.Got? {
        return true;
      }
      if !answer.value.labelled {
        return false;
      }
      var missing := HasPlanMissing(answer.value);
      return missing || answer.value.settings != settings;
    }

    /** Waits for the subscription to go, at most 30 seconds, looking every second. */
    method AwaitDeletion() returns (gone: bool)
      requires Valid()
      modifies this`calls, this`log
      ensures Valid() && Accounted(old(state), state, old(log), log)
      ensures gone ==> target !in state.subs
      ensures AllDone() && target !in state.subs ==> gone
    {
      for i := 0 to 30
        invariant Valid() && Accounted(old(state), state, old(log), log)
        invariant i > 0 && AllDone() ==> target in state.subs
      {
        var answer := GetSubscription(target);
        if answer == NotFound {
          return true;
        }
      }
      return false;
    }

    /** Looks for the namespace, and creates it when there is none. */
    method EnsureNamespace() returns (ok: bool)
      modifies this`calls, this`namespaces
      ensures ok <==>
                Works(response(old(calls))) && (target.namespace in old(namespaces) || Works(response(old(calls) + 1)))
      ensures namespaces == if ok then old(namespaces) + {target.namespace} else old(namespaces)
    {
      var r := Call();
      ok := Works(r);
      if ok && target.namespace !in namespaces {
        r := Call();
        ok := Works(r);
      }
      if ok {
        namespaces := namespaces + {target.namespace};
      }
    }

    method CreateOrUpdateOLMSubscription() returns (ok: bool)
      requires Valid()
      modifies this
      ensures old(namespaces) <= namespaces <= old(namespaces) + {target.namespace}
              && (ok ==> target.namespace in namespaces)
      ensures Valid() && Accounted(old(state), state, old(log), log)
      ensures state.csvs == old(state.csvs) && state.plans == old(state.plans) && OthersKept(old(state), state)
      ensures forall m :: m != target ==> Get(state.subs, m) == Get(old(state.subs), m)
      ensures ok ==> target in state.subs && (state.subs[target].labelled ==> state.subs[target].settings == settings)
      ensures AllDone() ==> ok && state == AfterCreateOrUpdate(old(state), target, settings)
      ensures AllDone() ==> (writes != old(writes) <==> NeedsWrite(old(state), target, settings))
    {
      var ready := EnsureNamespace();
      if !ready {
        return false;
      }
      var answer := GetSubscription(target);
      if answer.NotFound? {
        var outcome := CreateSubscription(target, Fresh(settings));
        return outcome.Fine?;
      }
      if !answer.Got? {
        return false;
      }
      if !answer.value.labelled {
        return true;
      }
      ghost var before, logBefore := state, log;
      var missing := HasPlanMissing(answer.value);
      if missing {
        ok := Recreate();
        AccountedThen(old(state), before, state, old(log), logBefore, log);
      } else if answer.value.settings == settings {
        assert state.subs == old(state.subs)[target := old(state.subs)[target].(settings := settings)];
        return true;
      } else {
        var outcome := UpdateSubscription(target, true, settings);
        AccountedThen(old(state), before, state, old(log), logBefore, log);
        return outcome.Fine?;
      }
    }

    /** Deletes the stale subscription, waits for it to go, and creates a fresh one. */
    method Recreate() returns (ok: bool)
      requires Valid() && Ours(state, target)
      modifies this
      ensures namespaces == old(namespaces)
      ensures Valid() && Accounted(old(state), state, old(log), log)
      ensures state.csvs == old(state.csvs) && state.plans == old(state.plans) && OthersKept(old(state), state)
      ensures forall m :: m != target ==> Get(state.subs, m) == Get(old(state.subs), m)
      ensures ok ==> Get(state.subs, target) == Some(Fresh(settings))
      ensures AllDone() ==>
                ok && state == old(state).(subs := old(state).subs[target := Fresh(settings)]) && writes != old(writes)
    {
      var outcome := DeleteSubscription(target);
      if outcome.KindMissing? || outcome.Error? {
        return false;
      }
      ghost var deleted, deletedLog := state, log;
      var gone := AwaitDeletion();
      if !gone {
        AccountedThen(old(state), deleted, state, old(log), deletedLog, log);
        return false;
      }
      ghost var before, logBefore := state, log;
      AccountedThen(old(state), deleted, before, old(log), deletedLog, logBefore);
      outcome := CreateSubscription(target, Fresh(settings));
      AccountedThen(old(state), before, state, old(log), logBefore, log);
      assert AllDone() ==>
               (old(state).subs - {target})[target := Fresh(settings)] == old(state).subs[target := Fresh(settings)];
      return outcome.Fine?;
    }
  }
}
