/**
 Handing the statuses reported by the clusters back to the hub Applications. A Healthy report is written
 twice: first as Progressing, then as it is.
 */
module StatusHandback {
  import opened Options
  import opened Trees
  import Aggregation

  datatype Key = Health | Status | Sync | Revision | OperationState | Phase | StartedAt | Operation | Conditions | Type
      | Message | OtherKey(name: string)

  type Object = Tree<Key>

  /** One cluster's report; empty strings stand for what is not reported. */
  datatype Report = Report(app: string, cluster: string, health: string, sync: string, startedAt: string,
                           phase: string, revision: string)

  datatype Name = Name(namespace: string, name: string)

  /** `owner` is the ApplicationSet's name, empty when there is none. */
  datatype App = App(status: Option<Object>, owner: string)

  /** The Application a report is about; None when its name is not given in parts. */
  function AppOf(report: Report): Option<Name> {
    var parts := Aggregation.Split(report.app);
    if |parts| > 1 then Some(Name(parts[0], parts[1])) else None
  }

  // ---------------------------------------------------------------------------------------------
  // One report
  // ---------------------------------------------------------------------------------------------

  datatype Edit = Edit(path: seq<Key>, value: Object)

  /** The fields a report drives; `now` stands for the time when the operation's start is not reported. */
  function Edits(report: Report, now: string): seq<Edit> {
    (if report.health != "" then [Edit([Health, Status], Text(report.health))] else []) + OtherEdits(report, now)
  }

  function OtherEdits(report: Report, now: string): seq<Edit> {
    (if report.sync != "" then [Edit([Sync, Status], Text(report.sync))] else [])
    + (if report.phase == "" then []
       else [Edit([OperationState, Phase], Text(report.phase)),
             Edit([OperationState, StartedAt], Text(if report.startedAt == "" then now else report.startedAt)),
             Edit([OperationState, Operation], Object(map[]))])
    + (if report.revision != "" then [Edit([Sync, Revision], Text(report.revision))] else [])
  }

  function ApplyEdits(t: Object, edits: seq<Edit>): Option<Object> {
    if edits == [] then Some(t)
    else
      var last := edits[|edits| - 1];
      var before := ApplyEdits(t, edits[..|edits| - 1]);
      if before.None? then None else SetNested(before.value, last.path, last.value)
  }

  function Details(name: Name, owner: string, cluster: string): Object {
    Object(map[Type := Text("AdditionalStatusReport"),
               Message := Text(name.namespace + "/" + name.name + "/" + owner + "/" + cluster)])
  }

  /** Where an ApplicationSet owns the Application and there are no conditions, one says where to find more. */
  function WithDetails(t: Object, name: Name, owner: string, cluster: string): Option<Object> {
    var list := At(t, [Field(Conditions)]);
    if owner == "" || (list.Some? && list.value.List? && list.value.items != []) then Some(t)
    else SetNested(t, [Conditions], List([Details(name, owner, cluster)]))
  }

  function Base(status: Option<Object>): Object {
    if status.Some? && status.value.Object? then status.value else Object(map[])
  }

  function NewStatus(app: App, name: Name, report: Report, now: string): Option<Object> {
    var edited := ApplyEdits(Base(app.status), Edits(report, now));
    if edited.None? then None else WithDetails(edited.value, name, app.owner, report.cluster)
  }

  /** The simulated status: as the Application has it, but Progressing. */
  function Simulated(status: Option<Object>): Option<Object> {
    SetNested(status.GetOr(Object(map[])), [Health, Status], Text("Progressing"))
  }

  /** The writes one report causes, the last of them being the final status; None when some field cannot be set. */
  function Writes(app: App, name: Name, report: Report, now: string): Option<seq<Object>> {
    var new' := NewStatus(app, name, report, now);
    if report.health == "Healthy" then
      if Simulated(app.status).None? || new'.None? then None else Some([Simulated(app.status).value, new'.value])
    else if new'.None? then None
    else Some(if new'.value == Base(app.status) then [] else [new'.value])
  }

  function Final(app: App, writes: seq<Object>): App {
    if writes == [] then app else app.(status := Some(writes[|writes| - 1]))
  }

  function StatusAt(status: Option<Object>, path: Path<Key>): Option<Object> {
    if status.None? then None else At(status.value, path)
  }

  const HEALTH_PATH: Path<Key> := [Field(Health), Field(Status)]

  /** The path is none of those a report can drive. */
  predicate Undriven(q: Path<Key>) {
    && Apart([Field(Health), Field(Status)], q) && Apart([Field(Sync), Field(Status)], q)
    && Apart([Field(Sync), Field(Revision)], q)
    && Apart([Field(OperationState), Field(Phase)], q) && Apart([Field(OperationState), Field(StartedAt)], q)
    && Apart([Field(OperationState), Field(Operation)], q) && Apart([Field(Conditions)], q)
  }

  lemma {:induction false} EditsFrame(t: Object, edits: seq<Edit>, q: Path<Key>)
    requires ApplyEdits(t, edits).Some? && forall e :: e in edits ==> Apart(Fields(e.path), q)
    ensures At(ApplyEdits(t, edits).value, q) == At(t, q)
  {
    if edits != [] {
      var last := edits[|edits| - 1];
      EditsFrame(t, edits[..|edits| - 1], q);
      var before := ApplyEdits(t, edits[..|edits| - 1]).value;
      SetNestedSets(before, last.path, last.value);
      SetFrame(before, Fields(last.path), last.value, q);
    }
  }

  lemma OneField(a: Key)
    ensures Fields([a]) == [Field(a)]
  {
    var path: seq<Key> := [a];
    assert path[1..] == [];
    assert Fields(path) == [Field(path[0])] + Fields(path[1..]);
  }

  lemma TwoFields(a: Key, b: Key)
    ensures Fields([a, b]) == [Field(a), Field(b)] && Fields([a]) == [Field(a)]
  {
    OneField(a);
    OneField(b);
    var path: seq<Key> := [a, b];
    assert path[1..] == [b];
    assert Fields(path) == [Field(a)] + Fields(path[1..]);
  }

  predicate Driven(path: seq<Key>) {
    path in [[Health, Status], [Sync, Status], [Sync, Revision], [OperationState, Phase], [OperationState, StartedAt],
             [OperationState, Operation]]
  }

  /** The health comes first, if at all; everything else is about other fields. */
  lemma EditPaths(report: Report, now: string)
    ensures forall e :: e in Edits(report, now) ==> Driven(e.path)
    ensures report.health != "" ==> Edits(report, now)[0] == Edit([Health, Status], Text(report.health))
    ensures forall i :: (if report.health == "" then 0 else 1) <= i < |Edits(report, now)| ==>
              Edits(report, now)[i].path != [Health, Status]
  {
    var health := if report.health != "" then [Edit([Health, Status], Text(report.health))] else [];
    var rest := OtherEdits(report, now);
    assert Edits(report, now) == health + rest;
    assert forall e :: e in rest ==> Driven(e.path) && e.path != [Health, Status];
  }

  lemma DrivenApart(path: seq<Key>, q: Path<Key>)
    requires Driven(path)
    ensures Undriven(q) ==> Apart(Fields(path), q)
    ensures path != [Health, Status] ==> Apart(Fields(path), HEALTH_PATH)
  {
    TwoFields(path[0], path[1]);
    assert path == [path[0], path[1]];
  }

  lemma EditsApart(edits: seq<Edit>, q: Path<Key>)
    requires Undriven(q) && forall e :: e in edits ==> Driven(e.path)
    ensures forall e :: e in edits ==> Apart(Fields(e.path), q)
  {
    forall e | e in edits ensures Apart(Fields(e.path), q) {
      DrivenApart(e.path, q);
    }
  }

  /** Fields the report does not drive keep their values. */
  lemma UndrivenKept(app: App, name: Name, report: Report, now: string, q: Path<Key>)
    requires NewStatus(app, name, report, now).Some? && Undriven(q)
    ensures At(NewStatus(app, name, report, now).value, q) == StatusAt(app.status, q)
  {
    var edits := Edits(report, now);
    EditPaths(report, now);
    EditsApart(edits, q);
    EditsFrame(Base(app.status), edits, q);
    var edited := ApplyEdits(Base(app.status), edits).value;
    DetailsFrame(edited, name, app.owner, report.cluster, q);
    BaseAt(app.status, q);
  }

  lemma BaseAt(status: Option<Object>, q: Path<Key>)
    requires q != [] && q[0].Field?
    ensures At(Base(status), q) == StatusAt(status, q)
  {
  }

  lemma DetailsFrame(t: Object, name: Name, owner: string, cluster: string, q: Path<Key>)
    requires WithDetails(t, name, owner, cluster).Some? && Apart([Field(Conditions)], q)
    ensures At(WithDetails(t, name, owner, cluster).value, q) == At(t, q)
  {
    var value := List([Details(name, owner, cluster)]);
    if WithDetails(t, name, owner, cluster).value != t {
      TwoFields(Conditions, Conditions);
      SetNestedSets(t, [Conditions], value);
      SetFrame(t, [Field(Conditions)], value, q);
    }
  }

  /** The reported health arrives; when none is reported, the health stays. */
  lemma HealthArrives(app: App, name: Name, report: Report, now: string)
    requires NewStatus(app, name, report, now).Some?
    ensures At(NewStatus(app, name, report, now).value, HEALTH_PATH) ==
              if report.health == "" then StatusAt(app.status, HEALTH_PATH) else Some(Text(report.health))
  {
    var edits := Edits(report, now);
    EditPaths(report, now);
    var edited := ApplyEdits(Base(app.status), edits).value;
    DetailsFrame(edited, name, app.owner, report.cluster, HEALTH_PATH);
    EditsHealth(Base(app.status), edits, report.health);
    BaseAt(app.status, HEALTH_PATH);
  }

  lemma EditsHealth(t: Object, edits: seq<Edit>, health: string)
    requires ApplyEdits(t, edits).Some? && forall e :: e in edits ==> Driven(e.path)
    requires health != "" ==> edits != [] && edits[0] == Edit([Health, Status], Text(health))
    requires forall i :: (if health == "" then 0 else 1) <= i < |edits| ==> edits[i].path != [Health, Status]
    ensures At(ApplyEdits(t, edits).value, HEALTH_PATH) == if health == "" then At(t, HEALTH_PATH)
            else Some(Text(health))
  {
    forall i | (if health == "" then 0 else 1) <= i < |edits| ensures Apart(Fields(edits[i].path), HEALTH_PATH) {
      assert edits[i] in edits;
      DrivenApart(edits[i].path, HEALTH_PATH);
    }
    if health == "" {
      EditsFrame(t, edits, HEALTH_PATH);
    } else {
      HealthFirst(t, edits);
    }
  }

  lemma {:induction false} HealthFirst(t: Object, edits: seq<Edit>)
    requires edits != [] && edits[0].path == [Health, Status] && ApplyEdits(t, edits).Some?
    requires forall i :: 1 <= i < |edits| ==> Apart(Fields(edits[i].path), HEALTH_PATH)
    ensures At(ApplyEdits(t, edits).value, HEALTH_PATH) == Some(edits[0].value)
  {
    var last := edits[|edits| - 1];
    var before := ApplyEdits(t, edits[..|edits| - 1]).value;
    SetNestedSets(before, last.path, last.value);
    if |edits| == 1 {
      TwoFields(Health, Status);
      ReachesFields(before, HEALTH_PATH);
      AtSet(before, HEALTH_PATH, last.value);
    } else {
      HealthFirst(t, edits[..|edits| - 1]);
      SetFrame(before, Fields(last.path), last.value, HEALTH_PATH);
    }
  }

  /** The two writes of a Healthy report. */
  lemma HealthyIsWrittenTwice(app: App, name: Name, report: Report, now: string)
    requires report.health == "Healthy" && Writes(app, name, report, now).Some?
    ensures var w := Writes(app, name, report, now).value;
            && |w| == 2 && At(w[0], HEALTH_PATH) == Some(Text("Progressing"))
            && At(w[1], HEALTH_PATH) == Some(Text("Healthy"))
  {
    var t := app.status.GetOr(Object(map[]));
    SetNestedSets(t, [Health, Status], Text("Progressing"));
    TwoFields(Health, Status);
    ReachesFields(t, HEALTH_PATH);
    AtSet(t, HEALTH_PATH, Text("Progressing"));
    HealthArrives(app, name, report, now);
  }

  /** The name the aggregation gives a work leads back to the hub Application the work was made from. */
  lemma AggregatedNameLeadsBack(w: Aggregation.Work, report: Report)
    requires report.app == Aggregation.AppName(w) && '/' !in w.hubName
    ensures AppOf(report) == Some(Name(Aggregation.KeyOf(w).namespace, w.hubName))
  {
    var namespace := Aggregation.KeyOf(w).namespace;
    if |Aggregation.Split(w.appSet)| == 2 {
      Aggregation.SplitBack(w.appSet);
    }
    var rest := w.namespace + "/" + w.name;
    assert report.app == namespace + "/" + (w.hubName + "/" + rest);
    Aggregation.SplitFirst(namespace, w.hubName + "/" + rest);
    Aggregation.SplitFirst(w.hubName, rest);
  }

  // ---------------------------------------------------------------------------------------------
  // A pass over all reports
  // ---------------------------------------------------------------------------------------------

  type Apps = map<Name, App>

  /** What one report does to the Applications; None when some field cannot be set. */
  function AfterOne(apps: Apps, report: Report, now: string): Option<Apps> {
    var name := AppOf(report);
    if name.None? || name.value !in apps then Some(apps)
    else
      var writes := Writes(apps[name.value], name.value, report, now);
      if writes.None? then None else Some(apps[name.value := Final(apps[name.value], writes.value)])
  }

  /** All reports in turn; `clock` gives the time of each. */
  function After(apps: Apps, reports: seq<Report>, clock: nat -> string): Option<Apps> {
    if reports == [] then Some(apps)
    else
      var last := |reports| - 1;
      var before := After(apps, reports[..last], clock);
      if before.None? then None else AfterOne(before.value, reports[last], clock(last))
  }

  /** The writes of all reports in turn. */
  function Log(apps: Apps, reports: seq<Report>, clock: nat -> string): seq<(Name, Object)> {
    if reports == [] then []
    else
      var last := |reports| - 1;
      var before := After(apps, reports[..last], clock);
      Log(apps, reports[..last], clock) + if before.None? then [] else StepLog(before.value, reports[last], clock(last))
  }

  function StepLog(apps: Apps, report: Report, now: string): seq<(Name, Object)> {
    var name := AppOf(report);
    if name.None? || name.value !in apps then []
    else
      Tagged(name.value, Writes(apps[name.value], name.value, report, now).GetOr([]))
  }

  /** The last health reported for an Application. */
  function LastHealth(reports: seq<Report>, name: Name, otherwise: Option<Object>): Option<Object> {
    if reports == [] then otherwise
    else
      var last := reports[|reports| - 1];
      if AppOf(last) == Some(name) && last.health != "" then Some(Text(last.health))
          else LastHealth(reports[..|reports| - 1], name, otherwise)
  }

  lemma FinalStatus(app: App, name: Name, report: Report, now: string, q: Path<Key>)
    requires Writes(app, name, report, now).Some?
    ensures Undriven(q) ==>
              StatusAt(Final(app, Writes(app, name, report, now).value).status, q) == StatusAt(app.status, q)
    ensures StatusAt(Final(app, Writes(app, name, report, now).value).status, HEALTH_PATH) ==
              if report.health == "" then StatusAt(app.status, HEALTH_PATH) else Some(Text(report.health))
  {
    HealthArrives(app, name, report, now);
    BaseAt(app.status, HEALTH_PATH);
    if Undriven(q) {
      UndrivenKept(app, name, report, now, q);
    }
  }

  /**
   After a pass each Application's health is the last one reported, not the simulated one, and fields no
   report drives are as they were.
   */
  lemma {:induction false} PassHandsBack(apps: Apps, reports: seq<Report>, clock: nat -> string, name: Name,
                                         q: Path<Key>)
    requires After(apps, reports, clock).Some? && name in apps
    ensures var after := After(apps, reports, clock).value;
            && after.Keys == apps.Keys && after[name].owner == apps[name].owner
            && StatusAt(after[name].status, HEALTH_PATH) ==
                LastHealth(reports, name, StatusAt(apps[name].status, HEALTH_PATH))
            && (Undriven(q) ==> StatusAt(after[name].status, q) == StatusAt(apps[name].status, q))
  {
    if reports != [] {
      var last := |reports| - 1;
      PassHandsBack(apps, reports[..last], clock, name, q);
      var before := After(apps, reports[..last], clock).value;
      if AppOf(reports[last]) == Some(name) {
        FinalStatus(before[name], name, reports[last], clock(last), q);
      }
    }
  }

  // ---------------------------------------------------------------------------------------------
  // The controller
  // ---------------------------------------------------------------------------------------------

  class Hub {
    var apps: Apps
    const response: nat -> bool
    var calls: nat
    ghost var log: seq<(Name, Object)>

    constructor (apps: Apps, response: nat -> bool)
      ensures this.apps == apps && this.response == response && log == []
    {
      this.apps, this.response, calls, log := apps, response, 0, [];
    }

    ghost predicate AllDone() {
      forall n {:trigger response(n)} :: response(n)
    }

    method WriteStatus(name: Name, status: Object) returns (ok: bool)
      requires name in apps
      modifies this
      ensures AllDone() ==> ok
      ensures apps == if ok then old(apps)[name := old(apps)[name].(status := Some(status))] else old(apps)
      ensures log == if ok then old(log) + [(name, status)] else old(log)
    {
      ok := response(calls);
      calls := calls + 1;
      if ok {
        apps := apps[name := apps[name].(status := Some(status))];
        log := log + [(name, status)];
      }
    }

    /** Collects what the report drives, field by field. */
    method CollectEdits(report: Report, now: string) returns (edits: seq<Edit>)
      ensures edits == Edits(report, now)
    {
      edits := [];
      if report.health != "" {
        edits := edits + [Edit([Health, Status], Text(report.health))];
      }
      if report.sync != "" {
        edits := edits + [Edit([Sync, Status], Text(report.sync))];
      }
      if report.phase != "" {
        edits := edits + [Edit([OperationState, Phase], Text(report.phase))];
        var startedAt := report.startedAt;
        if startedAt == "" {
          startedAt := now;
        }
        edits := edits + [Edit([OperationState, StartedAt], Text(startedAt)),
                          Edit([OperationState, Operation], Object(map[]))];
      }
      if report.revision != "" {
        edits := edits + [Edit([Sync, Revision], Text(report.revision))];
      }
    }

    method BuildStatus(app: App, name: Name, report: Report, now: string) returns (status: Option<Object>)
      ensures status == NewStatus(app, name, report, now)
    {
      var edits := CollectEdits(report, now);
      status := Some(Base(app.status));
      for i := 0 to |edits|
        invariant status.Some? && status == ApplyEdits(Base(app.status), edits[..i])
      {
        assert edits[..i + 1][..i] == edits[..i];
        var next := SetNested(status.value, edits[i].path, edits[i].value);
        if next.None? {
          Blocked(Base(app.status), edits, i + 1);
          return None;
        }
        status := next;
      }
      assert edits[..|edits|] == edits;
      status := WithDetails(status.value, name, app.owner, report.cluster);
    }

    /**
     One report: for Healthy the simulated Progressing first, then the new status if it differs or has been simulated
     over.
     */
    method HandBack(name: Name, report: Report, now: string) returns (ok: bool)
      requires name in apps
      modifies this
      ensures ok ==> Writes(old(apps)[name], name, report, now).Some?
      ensures ok ==> apps == old(apps)[name := Final(old(apps)[name], Writes(old(apps)[name], name, report, now).value)]
      ensures ok ==> log == old(log) + Tagged(name, Writes(old(apps)[name], name, report, now).value)
      ensures AllDone() ==> (ok <==> Writes(old(apps)[name], name, report, now).Some?)
    {
      var app := apps[name];
      var forceUpdate := false;
      if report.health == "Healthy" {
        var simulated := SetNested(app.status.GetOr(Object(map[])), [Health, Status], Text("Progressing"));
        if simulated.None? {
          return false;
        }
        ok := WriteStatus(name, simulated.value);
        if !ok {
          return;
        }
        forceUpdate := true;
      }
      var status := BuildStatus(app, name, report, now);
      if status.None? {
        return false;
      }
      ok := true;
      if forceUpdate || status.value != Base(app.status) {
        ok := WriteStatus(name, status.value);
      }
    }

    /** Reports about Applications that are not there are passed over. */
    method HandBackReport(report: Report, now: string) returns (ok: bool)
      modifies this
      ensures ok ==> AfterOne(old(apps), report, now) == Some(apps) && log == old(log) + StepLog(old(apps), report, now)
      ensures AllDone() ==> (ok <==> AfterOne(old(apps), report, now).Some?)
    {
      var name := AppOf(report);
      if name.None? || name.value !in apps {
        return true;
      }
      ok := HandBack(name.value, report, now);
    }

    /** The next report of a pass that started from `start` with the log at `before`. */
    method HandBackNext(ghost start: Apps, ghost before: seq<(Name, Object)>, reports: seq<Report>,
                        clock: nat -> string, i: nat) returns (ok: bool)
      requires i < |reports| && After(start, reports[..i], clock) == Some(apps)
               && log == before + Log(start, reports[..i], clock)
      modifies this
      ensures ok ==>
                && After(start, reports[..i + 1], clock) == Some(apps)
                && log == before + Log(start, reports[..i + 1], clock)
      ensures AllDone() ==> (ok <==> After(start, reports[..i + 1], clock).Some?)
    {
      PassStep(start, reports, clock, i);
      PlusIsAssociative(before, Log(start, reports[..i], clock), StepLog(apps, reports[i], clock(i)));
      ok := HandBackReport(reports[i], clock(i));
    }

    /** Stops at the first failure; without one, every report has been handed back. */
    method Reconcile(reports: seq<Report>, clock: nat -> string, disabled: bool) returns (ok: bool)
      modifies this
      ensures disabled ==> apps == old(apps) && log == old(log)
      ensures ok && !disabled ==>
                After(old(apps), reports, clock) == Some(apps) && log == old(log) + Log(old(apps), reports, clock)
      ensures AllDone() && !disabled ==> (ok <==> After(old(apps), reports, clock).Some?)
    {
      if disabled {
        return true;
      }
      for i := 0 to |reports|
        invariant After(old(apps), reports[..i], clock) == Some(apps)
        invariant log == old(log) + Log(old(apps), reports[..i], clock)
      {
        ok := HandBackNext(old(apps), old(log), reports, clock, i);
        if !ok {
          Stuck(old(apps), reports, clock, i + 1);
          return false;
        }
      }
      assert reports[..|reports|] == reports;
      return true;
    }
  }

  lemma PlusIsAssociative<T>(a: seq<T>, b: seq<T>, c: seq<T>)
    ensures a + (b + c) == (a + b) + c
  {
  }

  lemma PassStep(apps: Apps, reports: seq<Report>, clock: nat -> string, i: nat)
    requires i < |reports| && After(apps, reports[..i], clock).Some?
    ensures var before := After(apps, reports[..i], clock).value;
            && After(apps, reports[..i + 1], clock) == AfterOne(before, reports[i], clock(i))
            && Log(apps, reports[..i + 1], clock) == Log(apps, reports[..i], clock)
                + StepLog(before, reports[i], clock(i))
  {
    assert reports[..i + 1][..i] == reports[..i];
  }

  function Tagged(name: Name, writes: seq<Object>): seq<(Name, Object)> {
    seq(|writes|, i requires 0 <= i < |writes| => (name, writes[i]))
  }

  lemma {:induction false} Blocked(t: Object, edits: seq<Edit>, n: nat)
    requires n <= |edits| && ApplyEdits(t, edits[..n]).None?
    ensures ApplyEdits(t, edits).None?
  {
    if n < |edits| {
      var shorter := edits[..|edits| - 1];
      assert shorter[..n] == edits[..n];
      Blocked(t, shorter, n);
    } else {
      assert edits[..n] == edits;
    }
  }

  lemma {:induction false} Stuck(apps: Apps, reports: seq<Report>, clock: nat -> string, n: nat)
    requires n <= |reports|
    ensures After(apps, reports[..n], clock).None? ==> After(apps, reports, clock).None?
  {
    if n < |reports| {
      var shorter := reports[..|reports| - 1];
      assert shorter[..n] == reports[..n];
      Stuck(apps, shorter, clock, n);
    } else {
      assert reports[..n] == reports;
    }
  }
}
