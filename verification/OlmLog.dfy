/** What the addon read and wrote, in order, and what entitles it to a deletion or an update. */
module OlmLog {
  import opened Options
  import opened Olm

  datatype Event =
    | Read(n: Name, sub: Subscription)
    | Listed(namespace: string, items: seq<(Name, Subscription)>)
    | ListingUnavailable(namespace: string)
    | Created(n: Name)
    | Updated(n: Name, before: Subscription)
    | Deleted(n: Name, before: Subscription)
    | DeletedCSV(csv: Name)

  /** The event shows the CSV as installed by a subscription of the addon in the CSV's namespace. */
  ghost predicate ShowsInstalled(e: Event, csv: Name) {
    match e
    case Read(n, sub) => sub.labelled && n.namespace == csv.namespace && sub.installedCSV == csv.name
    case Listed(_, items) =>
      exists i :: 0 <= i < |items| && items[i].1.labelled && items[i].0.namespace == csv.namespace
          && items[i].1.installedCSV == csv.name
    case _ => false
  }

  /** The event shows that no subscription in the CSV's namespace names it, as far as these can be listed. */
  ghost predicate ShowsUnclaimed(e: Event, csv: Name) {
    match e
    case Listed(namespace, items) => namespace == csv.namespace && forall i :: 0 <= i < |items| ==>
          !Names(items[i].1, csv.name)
    case ListingUnavailable(namespace) => namespace == csv.namespace
    case _ => false
  }

  ghost predicate SeenInstalled(log: seq<Event>, csv: Name) {
    exists i :: 0 <= i < |log| && ShowsInstalled(log[i], csv)
  }

  /**
   Subscriptions are updated and deleted only with the addon's label on; a CSV is deleted only if it was
   seen installed by such a subscription, or if it is the operator's and the call just before found no claim to it.
   */
  ghost predicate Entitled(log: seq<Event>, operator: string, e: Event) {
    match e
    case Updated(_, before) => before.labelled
    case Deleted(_, before) => before.labelled
    case DeletedCSV(csv) =>
      || (csv.name != "" && SeenInstalled(log, csv))
      || (IsOperatorCSV(operator, csv) && |log| > 0 && ShowsUnclaimed(log[|log| - 1], csv))
    case _ => true
  }

  ghost predicate Legit(log: seq<Event>, operator: string) {
    forall i :: 0 <= i < |log| ==> Entitled(log[..i], operator, log[i])
  }

  lemma LegitSnoc(log: seq<Event>, operator: string, e: Event)
    requires Legit(log, operator) && Entitled(log, operator, e)
    ensures Legit(log + [e], operator)
  {
    forall i | 0 <= i < |log + [e]| ensures Entitled((log + [e])[..i], operator, (log + [e])[i]) {
      if i < |log| {
        assert (log + [e])[..i] == log[..i];
      } else {
        assert (log + [e])[..i] == log;
      }
    }
  }

  lemma SeenBefore(log: seq<Event>, later: seq<Event>, csv: Name)
    requires log <= later && SeenInstalled(log, csv)
    ensures SeenInstalled(later, csv)
  {
    var i :| 0 <= i < |log| && ShowsInstalled(log[i], csv);
    assert later[i] == log[i];
  }

  /** Nobody else's subscription has changed. */
  ghost predicate OthersKept(s: State, t: State) {
    forall n :: n in s.subs && !s.subs[n].labelled ==> n in t.subs && t.subs[n] == s.subs[n]
  }

  predicate WritesSubscription(e: Event, n: Name) {
    match e
    case Created(m) => m == n
    case Updated(m, _) => m == n
    case Deleted(m, _) => m == n
    case _ => false
  }

  ghost predicate SubscriptionWritten(n: Name, a: seq<Event>, b: seq<Event>) {
    exists i :: |a| <= i < |b| && WritesSubscription(b[i], n)
  }

  ghost predicate CSVDeleted(csv: Name, a: seq<Event>, b: seq<Event>) {
    exists i :: |a| <= i < |b| && b[i] == DeletedCSV(csv)
  }

  /** Between two states, while the log grew from `a` to `b`, nothing changed without an event that says so. */
  ghost predicate Accounted(s: State, t: State, a: seq<Event>, b: seq<Event>) {
    && a <= b && t.csvs <= s.csvs
    && (forall n :: Get(t.subs, n) != Get(s.subs, n) ==> SubscriptionWritten(n, a, b))
    && (forall c :: c in s.csvs && c !in t.csvs ==> CSVDeleted(c, a, b))
  }

  lemma Unchanged(s: State, t: State, a: seq<Event>, b: seq<Event>)
    requires a <= b && t.subs == s.subs && t.csvs == s.csvs
    ensures Accounted(s, t, a, b)
  {
  }

  lemma AccountedThen(s: State, t: State, u: State, a: seq<Event>, b: seq<Event>, c: seq<Event>)
    requires Accounted(s, t, a, b) && Accounted(t, u, b, c)
    ensures Accounted(s, u, a, c)
  {
    forall n | Get(u.subs, n) != Get(s.subs, n) ensures SubscriptionWritten(n, a, c) {
      if Get(t.subs, n) != Get(s.subs, n) {
        var i :| |a| <= i < |b| && WritesSubscription(b[i], n);
        assert c[i] == b[i];
      } else {
        var i :| |b| <= i < |c| && WritesSubscription(c[i], n);
      }
    }
    forall csv | csv in s.csvs && csv !in u.csvs ensures CSVDeleted(csv, a, c) {
      if csv !in t.csvs {
        var i :| |a| <= i < |b| && b[i] == DeletedCSV(csv);
        assert c[i] == b[i];
      } else {
        var i :| |b| <= i < |c| && c[i] == DeletedCSV(csv);
      }
    }
  }
}
