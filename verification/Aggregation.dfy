/**
 Aggregating the ManifestWorks of every ApplicationSet into a report: paging through the works, the
 summary and sorted cluster conditions, and the comparison that decides whether a report is rewritten.
 */
module Aggregation {
  import opened Options
  import opened Sorting

  // ---------------------------------------------------------------------------------------------
  // Names
  // ---------------------------------------------------------------------------------------------

  datatype AppSet = AppSet(namespace: string, name: string)

  /** The parts of a string between slashes. */
  function Split(s: string): (parts: seq<string>)
    ensures |parts| > 0
  {
    if s == "" then [""]
    else
      var rest := Split(s[1..]);
      if s[0] == '/' then [""] + rest else [[s[0]] + rest[0]] + rest[1..]
  }

  function ParseNamespacedName(s: string): AppSet {
    var parts := Split(s);
    if |parts| == 2 then AppSet(parts[0], parts[1]) else AppSet("", "")
  }

  lemma {:induction false} SplitWhole(s: string)
    ensures '/' !in s <==> |Split(s)| == 1
    ensures '/' !in s ==> Split(s) == [s]
  {
    if s != "" {
      SplitWhole(s[1..]);
      assert s == [s[0]] + s[1..];
    }
  }

  lemma {:induction false} SplitFirst(first: string, rest: string)
    requires '/' !in first
    ensures Split(first + "/" + rest) == [first] + Split(rest)
  {
    var s := first + "/" + rest;
    if first == "" {
      assert s[1..] == rest;
    } else {
      assert s[1..] == first[1..] + "/" + rest;
      SplitFirst(first[1..], rest);
      assert first == [first[0]] + first[1..];
    }
  }

  lemma SplitTwo(namespace: string, name: string)
    requires '/' !in namespace && '/' !in name
    ensures Split(namespace + "/" + name) == [namespace, name]
  {
    SplitFirst(namespace, name);
    SplitWhole(name);
  }

  lemma {:induction false} SplitBack(s: string)
    requires |Split(s)| == 2
    ensures s == Split(s)[0] + "/" + Split(s)[1] && '/' !in Split(s)[0] && '/' !in Split(s)[1]
  {
    if s[0] == '/' {
      SplitWhole(s[1..]);
    } else {
      SplitBack(s[1..]);
    }
    assert s == [s[0]] + s[1..];
  }

  /** A namespaced name is read back exactly when it was written without slashes in its parts. */
  lemma ParseInvertsFormat(s: string, key: AppSet)
    requires key != AppSet("", "")
    ensures ParseNamespacedName(s) == key <==>
              s == key.namespace + "/" + key.name && '/' !in key.namespace && '/' !in key.name
  {
    if |Split(s)| == 2 {
      SplitBack(s);
    }
    if '/' !in key.namespace && '/' !in key.name {
      SplitTwo(key.namespace, key.name);
    }
  }

  // ---------------------------------------------------------------------------------------------
  // Paging
  // ---------------------------------------------------------------------------------------------

  datatype FeedbackKind = HealthStatus | SyncStatus | OperationStatePhase | OperationStateStartedAt | SyncRevision
      | OtherFeedback

  datatype Feedback = Feedback(kind: FeedbackKind, value: string)

  datatype Work = Work(namespace: string, name: string, appSet: string, hubName: string, feedback: seq<Feedback>)

  datatype OverallStatus = OverallStatus(health: string, sync: string, startedAt: string, phase: string,
                                         revision: string, app: string)

  type StatusMap = map<AppSet, map<string, OverallStatus>>

  function KeyOf(w: Work): AppSet {
    ParseNamespacedName(w.appSet)
  }

  /** The last value reported of a kind. */
  function LastReported(feedback: seq<Feedback>, kind: FeedbackKind, otherwise: string): string {
    if feedback == [] then otherwise
    else
      var last := |feedback| - 1;
      if feedback[last].kind == kind then feedback[last].value else LastReported(feedback[..last], kind, otherwise)
  }

  function AppName(w: Work): string {
    KeyOf(w).namespace + "/" + w.hubName + "/" + w.namespace + "/" + w.name
  }

  function StatusOf(w: Work): OverallStatus {
    OverallStatus(LastReported(w.feedback, HealthStatus, "Unknown"), LastReported(w.feedback, SyncStatus, "Unknown"),
                  LastReported(w.feedback, OperationStateStartedAt, ""),
                  LastReported(w.feedback, OperationStatePhase, ""),
                  LastReported(w.feedback, SyncRevision, ""), AppName(w))
  }

  method ReadStatus(w: Work) returns (status: OverallStatus)
    ensures status == StatusOf(w)
  {
    var health, sync, startedAt, phase, revision := "Unknown", "Unknown", "", "", "";
    for i := 0 to |w.feedback|
      invariant health == LastReported(w.feedback[..i], HealthStatus, "Unknown")
                && sync == LastReported(w.feedback[..i], SyncStatus, "Unknown")
      invariant startedAt == LastReported(w.feedback[..i], OperationStateStartedAt, "")
      invariant phase == LastReported(w.feedback[..i], OperationStatePhase, "")
                && revision == LastReported(w.feedback[..i], SyncRevision, "")
    {
      assert w.feedback[..i + 1][..i] == w.feedback[..i];
      match w.feedback[i].kind {
        case HealthStatus => health := w.feedback[i].value;
        case SyncStatus => sync := w.feedback[i].value;
        case OperationStatePhase => phase := w.feedback[i].value;
        case OperationStateStartedAt => startedAt := w.feedback[i].value;
        case SyncRevision => revision := w.feedback[i].value;
        case OtherFeedback =>
      }
    }
    assert w.feedback[..|w.feedback|] == w.feedback;
    status := OverallStatus(health, sync, startedAt, phase, revision, AppName(w));
  }

  /** What one work contributes. */
  datatype Entry = Entry(key: AppSet, cluster: string, status: OverallStatus)

  function EntryOf(w: Work): Entry {
    Entry(KeyOf(w), w.namespace, StatusOf(w))
  }

  function EntriesOf(works: seq<Work>): seq<Entry> {
    seq(|works|, i requires 0 <= i < |works| => EntryOf(works[i]))
  }

  function Lookup(m: StatusMap, key: AppSet): map<string, OverallStatus> {
    Get(m, key).GetOr(map[])
  }

  function Put(m: StatusMap, e: Entry): StatusMap {
    m[e.key := Lookup(m, e.key)[e.cluster := e.status]]
  }

  /** Every entry in turn, a later one overwriting an earlier one of the same ApplicationSet and cluster. */
  function Fold(entries: seq<Entry>): StatusMap {
    if entries == [] then map[] else Put(Fold(entries[..|entries| - 1]), entries[|entries| - 1])
  }

  /** The last entry about an ApplicationSet and cluster, looked for from the end. */
  function Latest(entries: seq<Entry>, key: AppSet, cluster: string): Option<OverallStatus> {
    if entries == [] then None
    else
      var e := entries[|entries| - 1];
      if e.key == key && e.cluster == cluster then Some(e.status) else Latest(entries[..|entries| - 1], key, cluster)
  }

  /**
   What the fold means: under each ApplicationSet and cluster, the status of the last work about them, and nothing else.
   */
  lemma {:induction false} FoldIsLastWrite(entries: seq<Entry>, key: AppSet, cluster: string)
    ensures Get(Lookup(Fold(entries), key), cluster) == Latest(entries, key, cluster)
  {
    if entries != [] {
      FoldIsLastWrite(entries[..|entries| - 1], key, cluster);
    }
  }

  lemma {:induction false} FoldKeys(entries: seq<Entry>)
    ensures forall k :: k in Fold(entries) <==> exists i :: 0 <= i < |entries| && entries[i].key == k
  {
    if entries != [] {
      var last := |entries| - 1;
      FoldKeys(entries[..last]);
      forall k ensures k in Fold(entries) <==> exists i :: 0 <= i < |entries| && entries[i].key == k {
        if i :| 0 <= i < |entries| && entries[i].key == k {
          assert i < last ==> entries[..last][i].key == k;
        }
        if k in Fold(entries[..last]) {
          var i :| 0 <= i < last && entries[..last][i].key == k;
          assert entries[i].key == k;
        }
        assert entries[last].key in Fold(entries);
      }
    }
  }

  function Concat(pages: seq<seq<Entry>>): seq<Entry> {
    if pages == [] then [] else Concat(pages[..|pages| - 1]) + pages[|pages| - 1]
  }

  /** The ApplicationSets of a page are there, with the clusters they had before. */
  ghost predicate KeysAdded(before: StatusMap, m: StatusMap, page: seq<Entry>) {
    && (forall k :: k in m <==> k in before || exists i :: 0 <= i < |page| && page[i].key == k)
    && (forall k :: Lookup(m, k) == Lookup(before, k))
  }

  /** Two maps with the same keys and the same clusters under each are the same. */
  lemma SameMaps(m: StatusMap, n: StatusMap)
    requires m.Keys == n.Keys && forall k :: Lookup(m, k) == Lookup(n, k)
    ensures m == n
  {
    forall k | k in m ensures m[k] == n[k] {
      assert Lookup(m, k) == Lookup(n, k);
    }
  }

  method AddKeys(before: StatusMap, page: seq<Work>) returns (m: StatusMap)
    ensures KeysAdded(before, m, EntriesOf(page))
  {
    m := before;
    ghost var entries := EntriesOf(page);
    for i := 0 to |page|
      invariant forall k :: k in m <==> k in before || exists j :: 0 <= j < i && entries[j].key == k
      invariant forall k :: Lookup(m, k) == Lookup(before, k)
    {
      var key := ParseNamespacedName(page[i].appSet);
      assert key == entries[i].key;
      if key !in m {
        m := m[key := map[]];
      }
    }
  }

  lemma KeysOfConcat(before: seq<Entry>, page: seq<Entry>, m: StatusMap, k: AppSet)
    requires KeysAdded(Fold(before), m, page)
    ensures k in m <==> k in Fold(before + page)
  {
    FoldKeys(before);
    FoldKeys(before + page);
    if i :| 0 <= i < |page| && page[i].key == k {
      assert (before + page)[|before| + i].key == k;
    }
    if i :| 0 <= i < |before| && before[i].key == k {
      assert (before + page)[i].key == k;
    }
  }

  lemma PutStep(m: StatusMap, entries: seq<Entry>, e: Entry)
    requires Folded(m, entries)
    ensures Folded(Put(m, e), entries + [e])
  {
    assert (entries + [e])[..|entries|] == entries;
    forall k ensures Lookup(Put(m, e), k) == Lookup(Fold(entries + [e]), k) {
      assert Lookup(m, k) == Lookup(Fold(entries), k) && Lookup(m, e.key) == Lookup(Fold(entries), e.key);
    }
  }

  method Record(before: StatusMap, w: Work) returns (m: StatusMap)
    requires EntryOf(w).key in before
    ensures m == Put(before, EntryOf(w))
  {
    var key := ParseNamespacedName(w.appSet);
    var status := ReadStatus(w);
    m := before[key := before[key][w.namespace := status]];
  }

  /** The fold of the entries so far, but for ApplicationSets that have no clusters yet. */
  ghost predicate Folded(m: StatusMap, entries: seq<Entry>) {
    forall k :: Lookup(m, k) == Lookup(Fold(entries), k)
  }

  method AddStatuses(ghost before: seq<Entry>, keyed: StatusMap, page: seq<Work>) returns (m: StatusMap)
    requires Folded(keyed, before) && forall i :: 0 <= i < |page| ==> KeyOf(page[i]) in keyed
    ensures m.Keys == keyed.Keys && Folded(m, before + EntriesOf(page))
  {
    m := keyed;
    ghost var done := before;
    for i := 0 to |page|
      invariant m.Keys == keyed.Keys && Folded(m, done)
      invariant done == before + EntriesOf(page[..i])
    {
      ghost var e := EntryOf(page[i]);
      assert EntriesOf(page[..i + 1]) == EntriesOf(page[..i]) + [e];
      PutStep(m, done, e);
      m := Record(m, page[i]);
      done := done + [e];
    }
    assert page[..|page|] == page;
  }

  method AddPage(ghost before: seq<Entry>, statuses: StatusMap, page: seq<Work>) returns (m: StatusMap)
    requires statuses == Fold(before)
    ensures m == Fold(before + EntriesOf(page))
  {
    ghost var entries := EntriesOf(page);
    var keyed := AddKeys(statuses, page);
    assert forall i :: 0 <= i < |page| ==> entries[i].key == KeyOf(page[i]);
    m := AddStatuses(before, keyed, page);
    forall k ensures k in m <==> k in Fold(before + entries) {
      KeysOfConcat(before, entries, keyed, k);
    }
    SameMaps(m, Fold(before + entries));
  }

  /**
   However the works are split into pages, the result is that of the whole list; None when a page cannot be listed.
   */
  method GenerateAggregation(pages: seq<Option<seq<Work>>>) returns (m: Option<StatusMap>)
    ensures m.None? <==> exists i :: 0 <= i < |pages| && pages[i].None?
    ensures m.Some? ==>
              m.value == Fold(Concat(seq(|pages|, i requires 0 <= i < |pages| => EntriesOf(pages[i].GetOr([])))))
  {
    var statuses: StatusMap := map[];
    ghost var all := seq(|pages|, i requires 0 <= i < |pages| => EntriesOf(pages[i].GetOr([])));
    for i := 0 to |pages|
      invariant forall j :: 0 <= j < i ==> pages[j].Some?
      invariant statuses == Fold(Concat(all[..i]))
    {
      if pages[i].None? {
        return None;
      }
      assert all[..i + 1][..i] == all[..i];
      statuses := AddPage(Concat(all[..i]), statuses, pages[i].value);
    }
    assert all[..|pages|] == all;
    return Some(statuses);
  }
}
