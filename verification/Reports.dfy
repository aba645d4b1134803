/** The report of one ApplicationSet: its summary, its sorted cluster conditions, and when it counts as changed. */
module Reports {
  import opened Options
  import opened Sorting
  import opened Aggregation

  datatype Resource = Resource(name: string, kind: string, rest: string)

  datatype ClusterCondition = ClusterCondition(cluster: string, status: OverallStatus, conditions: string)

  datatype Summary = Summary(synced: nat, notSynced: nat, healthy: nat, notHealthy: nat, inProgress: nat, clusters: nat)

  // ---------------------------------------------------------------------------------------------
  // Orders
  // ---------------------------------------------------------------------------------------------

  predicate ConditionBelow(x: ClusterCondition, y: ClusterCondition) {
    Below(x.cluster, y.cluster)
  }

  predicate ResourceBelow(x: Resource, y: Resource) {
    if x.name != y.name then Below(x.name, y.name) else Below(x.kind, y.kind)
  }

  lemma BelowCompares(s: string, t: string, u: string)
    requires Below(s, u)
    ensures Below(s, t) || Below(t, u)
  {
    BelowTotal(s, t);
    if Below(t, s) {
      BelowTransitive(t, s, u);
    }
  }

  lemma ConditionsAreOrdered()
    ensures WeakOrder(ConditionBelow)
  {
    forall x, y | ConditionBelow(x, y) ensures !ConditionBelow(y, x) {
      BelowTotal(x.cluster, y.cluster);
    }
    forall x, y, z | ConditionBelow(x, y) && ConditionBelow(y, z) ensures ConditionBelow(x, z) {
      BelowTransitive(x.cluster, y.cluster, z.cluster);
    }
    forall x, y, z | ConditionBelow(x, z) ensures ConditionBelow(x, y) || ConditionBelow(y, z) {
      BelowCompares(x.cluster, y.cluster, z.cluster);
    }
  }

  lemma ResourcesAreOrdered()
    ensures WeakOrder(ResourceBelow)
  {
    forall x, y | ResourceBelow(x, y) ensures !ResourceBelow(y, x) {
      BelowTotal(x.name, y.name);
      BelowTotal(x.kind, y.kind);
    }
    forall x, y, z | ResourceBelow(x, y) && ResourceBelow(y, z) ensures ResourceBelow(x, z) {
      ResourceTransitive(x, y, z);
    }
    forall x, y, z | ResourceBelow(x, z) ensures ResourceBelow(x, y) || ResourceBelow(y, z) {
      ResourceCompares(x, y, z);
    }
  }

  lemma ResourceTransitive(x: Resource, y: Resource, z: Resource)
    requires ResourceBelow(x, y) && ResourceBelow(y, z)
    ensures ResourceBelow(x, z)
  {
    BelowTotal(x.name, y.name);
    if x.name != y.name && y.name != z.name {
      BelowTransitive(x.name, y.name, z.name);
    } else if x.name == y.name == z.name {
      BelowTransitive(x.kind, y.kind, z.kind);
    }
  }

  lemma ResourceCompares(x: Resource, y: Resource, z: Resource)
    requires ResourceBelow(x, z)
    ensures ResourceBelow(x, y) || ResourceBelow(y, z)
  {
    if x.name != z.name {
      BelowCompares(x.name, y.name, z.name);
    } else if y.name == x.name {
      BelowCompares(x.kind, y.kind, z.kind);
    } else {
      BelowTotal(x.name, y.name);
    }
  }

  // ---------------------------------------------------------------------------------------------
  // Summaries
  // ---------------------------------------------------------------------------------------------

  predicate IsHealthy(status: OverallStatus) {
    status.health == "Healthy"
  }

  predicate IsProgressing(status: OverallStatus) {
    status.health == "Progressing"
  }

  predicate IsSynced(status: OverallStatus) {
    status.sync == "Synced"
  }

  /** The clusters whose status is so. */
  function Where(statuses: map<string, OverallStatus>, p: OverallStatus -> bool): set<string> {
    set c | c in statuses && p(statuses[c])
  }

  ghost predicate Counts(s: Summary, statuses: map<string, OverallStatus>) {
    && s.synced == |Where(statuses, IsSynced)| && s.healthy == |Where(statuses, IsHealthy)|
    && s.inProgress == |Where(statuses, IsProgressing)|
    && s.synced + s.notSynced == |statuses.Keys| && s.healthy + s.notHealthy == |statuses.Keys|
    && s.clusters == |statuses.Keys|
  }

  /** The figures add up, and the clusters in progress are among the unhealthy ones. */
  lemma CountsAddUp(s: Summary, statuses: map<string, OverallStatus>)
    requires Counts(s, statuses)
    ensures s.synced + s.notSynced == s.healthy + s.notHealthy == s.clusters == |statuses.Keys|
    ensures s.inProgress <= s.notHealthy
  {
    var healthy, progressing := Where(statuses, IsHealthy), Where(statuses, IsProgressing);
    assert healthy !! progressing;
    SubsetSize(healthy + progressing, statuses.Keys);
  }

  lemma {:induction false} SubsetSize<T>(a: set<T>, b: set<T>)
    requires a <= b
    ensures |a| <= |b|
  {
    if a != {} {
      var x :| x in a;
      SubsetSize(a - {x}, b - {x});
    }
  }

  function ConditionOf(cluster: string, status: OverallStatus): ClusterCondition {
    ClusterCondition(cluster, status, "")
  }

  type Conditions = map<string, ClusterCondition>

  ghost predicate Named(m: Conditions) {
    forall c :: c in m ==> m[c].cluster == c
  }

  /** The status comes from the works when there is one, the conditions from the file. */
  function Combined(m: Conditions, file: seq<ClusterCondition>): Conditions {
    if file == [] then m
    else
      var last := file[|file| - 1];
      var before := Combined(m, file[..|file| - 1]);
      if last.cluster in before then before[last.cluster := before[last.cluster].(conditions := last.conditions)]
          else before[last.cluster := last]
  }

  function FromWorks(statuses: map<string, OverallStatus>): Conditions {
    map c | c in statuses :: ConditionOf(c, statuses[c])
  }

  /** The list covers the clusters of the works and those of the file, and keeps the status of the former. */
  lemma {:induction false} CombinedCovers(m: Conditions, file: seq<ClusterCondition>)
    requires Named(m)
    ensures Named(Combined(m, file))
    ensures forall c :: c in Combined(m, file) <==> c in m || exists i :: 0 <= i < |file| && file[i].cluster == c
    ensures forall c :: c in m ==> Combined(m, file)[c].status == m[c].status
  {
    if file != [] {
      var last := |file| - 1;
      CombinedCovers(m, file[..last]);
      assert forall i :: 0 <= i < last ==> file[..last][i] == file[i];
      assert file[last] == file[|file| - 1];
    }
  }

  /** The figures with one more cluster. */
  function Counted(status: OverallStatus, s: Summary): Summary {
    s.(clusters := s.clusters + 1,
       healthy := s.healthy + (if IsHealthy(status) then 1 else 0),
       inProgress := s.inProgress + (if IsProgressing(status) then 1 else 0),
       notHealthy := s.notHealthy + (if IsHealthy(status) then 0 else 1),
       synced := s.synced + (if IsSynced(status) then 1 else 0),
       notSynced := s.notSynced + (if IsSynced(status) then 0 else 1))
  }

  method CountOne(status: OverallStatus, before: Summary) returns (s: Summary)
    ensures s == Counted(status, before)
  {
    s := before.(clusters := before.clusters + 1);
    if status.health == "Healthy" {
      s := s.(healthy := s.healthy + 1);
    } else if status.health == "Progressing" {
      s := s.(inProgress := s.inProgress + 1, notHealthy := s.notHealthy + 1);
    } else {
      s := s.(notHealthy := s.notHealthy + 1);
    }
    if status.sync == "Synced" {
      s := s.(synced := s.synced + 1);
    } else {
      s := s.(notSynced := s.notSynced + 1);
    }
  }

  lemma WhereStep(done: map<string, OverallStatus>, p: OverallStatus -> bool, c: string, status: OverallStatus)
    requires c !in done
    ensures |Where(done[c := status], p)| == |Where(done, p)| + if p(status) then 1 else 0
  {
    assert Where(done[c := status], p) == Where(done, p) + if p(status) then {c} else {};
  }

  lemma CountStep(s: Summary, t: Summary, done: map<string, OverallStatus>, c: string, status: OverallStatus)
    requires Counts(s, done) && c !in done && t == Counted(status, s)
    ensures Counts(t, done[c := status])
  {
    WhereStep(done, IsHealthy, c, status);
    WhereStep(done, IsProgressing, c, status);
    WhereStep(done, IsSynced, c, status);
    assert done[c := status].Keys == done.Keys + {c};
  }

  /** Visits the clusters in an arbitrary order. */
  method Summarize(statuses: map<string, OverallStatus>) returns (summary: Summary, conditions: Conditions)
    ensures Counts(summary, statuses) && conditions == FromWorks(statuses)
  {
    summary, conditions := Summary(0, 0, 0, 0, 0, 0), map[];
    var left := statuses.Keys;
    while left != {}
      invariant left <= statuses.Keys && Counts(summary, statuses - left) && conditions == FromWorks(statuses - left)
      decreases left
    {
      var c :| c in left;
      OneMore(statuses, left, c, summary);
      conditions := conditions[c := ConditionOf(c, statuses[c])];
      summary := CountOne(statuses[c], summary);
      left := left - {c};
    }
    assert statuses - {} == statuses;
  }

  /** One cluster less is left. */
  lemma OneMore(statuses: map<string, OverallStatus>, left: set<string>, c: string, s: Summary)
    requires c in left && left <= statuses.Keys && Counts(s, statuses - left)
    ensures Counts(Counted(statuses[c], s), statuses - (left - {c}))
    ensures FromWorks(statuses - (left - {c})) == FromWorks(statuses - left)[c := ConditionOf(c, statuses[c])]
  {
    assert statuses - (left - {c}) == (statuses - left)[c := statuses[c]];
    CountStep(s, Counted(statuses[c], s), statuses - left, c, statuses[c]);
  }

  ghost predicate Lists(res: seq<ClusterCondition>, m: Conditions) {
    && (forall i, j :: 0 <= i < j < |res| ==> Below(res[i].cluster, res[j].cluster))
    && (forall x :: x in res <==> Get(m, x.cluster) == Some(x))
  }

  /** There is one sorted list of the conditions: the order in which they were visited does not show. */
  lemma {:induction false} ListIsUnique(res: seq<ClusterCondition>, other: seq<ClusterCondition>, m: Conditions)
    requires Lists(res, m) && Lists(other, m)
    ensures res == other
  {
    ConditionsAreOrdered();
    ListSorted(res, m);
    ListSorted(other, m);
    NoRepeats(res, other);
    SortIsUnique(res, other, ConditionBelow);
  }

  lemma ListSorted(res: seq<ClusterCondition>, m: Conditions)
    requires Lists(res, m)
    ensures Sorted(res, ConditionBelow) && Distinct(res, ConditionBelow)
    ensures forall i, j :: 0 <= i < j < |res| ==> res[i] != res[j]
  {
    forall i, j | 0 <= i < j < |res|
      ensures !ConditionBelow(res[j], res[i]) && ConditionBelow(res[i], res[j]) && res[i] != res[j]
    {
      BelowTotal(res[i].cluster, res[j].cluster);
    }
  }

  lemma NoRepeats<T>(s: seq<T>, t: seq<T>)
    requires forall i, j :: 0 <= i < j < |s| ==> s[i] != s[j]
    requires forall i, j :: 0 <= i < j < |t| ==> t[i] != t[j]
    requires forall x :: x in s <==> x in t
    ensures multiset(s) == multiset(t)
  {
    forall x ensures multiset(s)[x] == multiset(t)[x] {
      Once(s, x);
      Once(t, x);
    }
  }

  lemma {:induction false} Once<T>(s: seq<T>, x: T)
    requires forall i, j :: 0 <= i < j < |s| ==> s[i] != s[j]
    ensures multiset(s)[x] == if x in s then 1 else 0
  {
    if s != [] {
      Once(s[1..], x);
      assert s == [s[0]] + s[1..];
    }
  }

  /** The values of the map, in arbitrary order. */
  method ValuesOf(m: Conditions) returns (res: seq<ClusterCondition>)
    requires Named(m)
    ensures (forall x :: x in res <==> Get(m, x.cluster) == Some(x)) && Distinct(res, ConditionBelow)
  {
    res := [];
    var left := m.Keys;
    while left != {}
      invariant left <= m.Keys && forall x :: x in res <==> Get(m, x.cluster) == Some(x) && x.cluster !in left
      invariant Distinct(res, ConditionBelow)
      decreases left
    {
      var c :| c in left;
      forall i | 0 <= i < |res| ensures ConditionBelow(res[i], m[c]) || ConditionBelow(m[c], res[i]) {
        assert res[i] in res;
        BelowTotal(res[i].cluster, c);
      }
      res := res + [m[c]];
      left := left - {c};
    }
  }

  /** The summary counts the works; the conditions are those of works and file together, strictly sorted by cluster. */
  method GenerateSummary(statuses: map<string, OverallStatus>, file: seq<ClusterCondition>)
    returns (summary: Summary, res: seq<ClusterCondition>)
    ensures Counts(summary, statuses)
    ensures Lists(res, Combined(FromWorks(statuses), file))
  {
    var conditions;
    summary, conditions := Summarize(statuses);
    for i := 0 to |file|
      invariant conditions == Combined(FromWorks(statuses), file[..i])
    {
      assert file[..i + 1][..i] == file[..i];
      var c := file[i].cluster;
      if c in conditions {
        conditions := conditions[c := conditions[c].(conditions := file[i].conditions)];
      } else {
        conditions := conditions[c := file[i]];
      }
    }
    assert file[..|file|] == file;
    CombinedCovers(FromWorks(statuses), file);
    var values := ValuesOf(conditions);
    ConditionsAreOrdered();
    res := Sort(values, ConditionBelow);
    SortedList(values, res, conditions);
  }

  lemma SortedList(values: seq<ClusterCondition>, res: seq<ClusterCondition>, m: Conditions)
    requires (forall x :: x in values <==> Get(m, x.cluster) == Some(x)) && Distinct(values, ConditionBelow)
    requires IsSortOf(res, values, ConditionBelow)
    ensures Lists(res, m)
  {
    DistinctPermuted(values, res, ConditionBelow);
    forall i, j | 0 <= i < j < |res| ensures Below(res[i].cluster, res[j].cluster) {
      assert !ConditionBelow(res[j], res[i]);
    }
    forall x ensures x in res <==> x in values {
      assert x in res <==> x in multiset(res);
    }
  }

  // ---------------------------------------------------------------------------------------------
  // Comparison
  // ---------------------------------------------------------------------------------------------

  class Report {
    var labels: map<string, string>
    var summary: Summary
    var resources: seq<Resource>
    var conditions: seq<ClusterCondition>

    constructor (labels: map<string, string>, summary: Summary, resources: seq<Resource>,
                 conditions: seq<ClusterCondition>)
      ensures this.labels == labels && this.summary == summary && this.resources == resources
              && this.conditions == conditions
    {
      this.labels, this.summary, this.resources, this.conditions := labels, summary, resources, conditions;
    }

    /** Same labels, figures and entries, in whatever order. */
    twostate predicate SameContents(other: Report)
      reads this, other
    {
      && old(labels) == old(other.labels) && old(summary) == old(other.summary)
      && multiset(old(resources)) == multiset(old(other.resources))
      && multiset(old(conditions)) == multiset(old(other.conditions))
    }

    /** Resources of one name and kind, and conditions of one cluster, are repetitions of the same entry. */
    ghost predicate WithoutConflicts()
      reads this
    {
      NoConflict(resources, ResourceBelow) && NoConflict(conditions, ConditionBelow)
    }
  }

  /** Sorts the lists of both reports in place on the way. */
  method CompareAppSetReports(a: Report, b: Report) returns (same: bool)
    modifies a, b
    ensures a.labels == old(a.labels) && a.summary == old(a.summary) && b.labels == old(b.labels)
            && b.summary == old(b.summary)
    ensures multiset(a.resources) == multiset(old(a.resources)) && multiset(b.resources) == multiset(old(b.resources))
    ensures multiset(a.conditions) == multiset(old(a.conditions))
            && multiset(b.conditions) == multiset(old(b.conditions))
    ensures same ==> a.SameContents(b)
    ensures a.SameContents(b) && old(a.WithoutConflicts()) ==> same
  {
    same := a.labels == b.labels && a.summary == b.summary;
    var sameResources := CompareResources(a, b);
    var sameConditions := CompareConditions(a, b);
    same := same && sameResources && sameConditions;
  }

  method CompareResources(a: Report, b: Report) returns (same: bool)
    modifies a`resources, b`resources
    ensures multiset(a.resources) == multiset(old(a.resources)) && multiset(b.resources) == multiset(old(b.resources))
    ensures same ==> multiset(old(a.resources)) == multiset(old(b.resources))
    ensures multiset(old(a.resources)) == multiset(old(b.resources)) && NoConflict(old(a.resources), ResourceBelow) ==>
              same
  {
    if |a.resources| != |b.resources| {
      DifferentSizes(a.resources, b.resources);
      return false;
    }
    var x, y := a.resources, b.resources;
    a.resources := SortResources(x);
    b.resources := SortResources(y);
    same := a.resources == b.resources;
    if a != b {
      SortsAgree(x, y, a.resources, b.resources, ResourceBelow);
    }
  }

  method CompareConditions(a: Report, b: Report) returns (same: bool)
    modifies a`conditions, b`conditions
    ensures multiset(a.conditions) == multiset(old(a.conditions))
            && multiset(b.conditions) == multiset(old(b.conditions))
    ensures same ==> multiset(old(a.conditions)) == multiset(old(b.conditions))
    ensures NoConflict(old(a.conditions), ConditionBelow) ==>
              multiset(old(a.conditions)) == multiset(old(b.conditions)) ==> same
  {
    if |a.conditions| != |b.conditions| {
      DifferentSizes(a.conditions, b.conditions);
      return false;
    }
    var x, y := a.conditions, b.conditions;
    a.conditions := SortConditions(x);
    b.conditions := SortConditions(y);
    same := a.conditions == b.conditions;
    if a != b {
      SortsAgree(x, y, a.conditions, b.conditions, ConditionBelow);
    }
  }

  method SortResources(s: seq<Resource>) returns (t: seq<Resource>)
    ensures IsSortOf(t, s, ResourceBelow)
  {
    ResourcesAreOrdered();
    t := Sort(s, ResourceBelow);
  }

  method SortConditions(s: seq<ClusterCondition>) returns (t: seq<ClusterCondition>)
    ensures IsSortOf(t, s, ConditionBelow)
  {
    ConditionsAreOrdered();
    t := Sort(s, ConditionBelow);
  }

  lemma DifferentSizes<T>(s: seq<T>, t: seq<T>)
    requires |s| != |t|
    ensures multiset(s) != multiset(t)
  {
    assert |multiset(s)| == |s| && |multiset(t)| == |t|;
  }

  /** Sorting decides equality up to order, when there are no conflicts. */
  lemma SortsAgree<T(!new)>(s: seq<T>, t: seq<T>, s': seq<T>, t': seq<T>, less: (T, T) -> bool)
    requires IsSortOf(s', s, less) && IsSortOf(t', t, less)
    ensures s' == t' ==> multiset(s) == multiset(t)
    ensures multiset(s) == multiset(t) && NoConflict(s, less) ==> s' == t'
  {
    if multiset(s) == multiset(t) && NoConflict(s, less) {
      NoConflictPermuted(s, s', less);
      SortIsUnique(s', t', less);
    }
  }

  /**
   When the comparison is right, whatever the sorting does with ties: the sorted lists are always equal exactly
   for permuted lists in which entries of one name and kind, or of one cluster, are the same entry.
   */
  lemma ComparisonDecides(r: seq<Resource>, r': seq<Resource>, c: seq<ClusterCondition>, c': seq<ClusterCondition>)
    ensures (forall s, s' :: IsSortOf(s, r, ResourceBelow) && IsSortOf(s', r', ResourceBelow) ==> s == s') <==>
              && multiset(r) == multiset(r')
              && forall i, j | 0 <= i < j < |r| && r[i].name == r[j].name && r[i].kind == r[j].kind :: r[i] == r[j]
    ensures (forall s, s' :: IsSortOf(s, c, ConditionBelow) && IsSortOf(s', c', ConditionBelow) ==> s == s') <==>
              multiset(c) == multiset(c') && forall i, j :: 0 <= i < j < |c| && c[i].cluster == c[j].cluster ==>
                    c[i] == c[j]
  {
    ResourcesAreOrdered();
    ConditionsAreOrdered();
    SortingDecides(r, r', ResourceBelow);
    SortingDecides(c, c', ConditionBelow);
    forall x, y ensures !ResourceBelow(x, y) && !ResourceBelow(y, x) <==> x.name == y.name && x.kind == y.kind {
      BelowTotal(x.name, y.name);
      BelowTotal(x.kind, y.kind);
    }
    forall x, y ensures !ConditionBelow(x, y) && !ConditionBelow(y, x) <==> x.cluster == y.cluster {
      BelowTotal(x.cluster, y.cluster);
    }
  }

  /**
   Two resources of one name and kind in different namespaces: both orders are sorted, so equal lists may compare as
   different.
   */
  lemma ConflictsCanHideEquality(name: string, kind: string)
    ensures var x, y := Resource(name, kind, "x"), Resource(name, kind, "y");
            IsSortOf([x, y], [x, y], ResourceBelow) && IsSortOf([y, x], [x, y], ResourceBelow) && [x, y] != [y, x]
  {
    var x, y := Resource(name, kind, "x"), Resource(name, kind, "y");
    BelowTotal(kind, kind);
    assert [x, y][0] != [y, x][0];
  }
}
