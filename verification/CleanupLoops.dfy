/** The two waiting loops of the addon's removal. */
module CleanupLoops {
  import opened Options

  // ---------------------------------------------------------------------------------------------
  // ArgoCD resources
  // ---------------------------------------------------------------------------------------------

  datatype Listing<T> = NoSuchKind | ListFailed | Items(items: seq<T>)

  /** One look at the labelled ArgoCD resources, at a time in seconds. */
  datatype Poll = Poll(time: nat, listing: Listing<string>)

  const STABILITY := 15
  const INTERVAL := 5

  predicate Empty(p: Poll) {
    p.listing == Items([])
  }

  /** Polls `from` to `to` all succeeded, found nothing, and span the stability period. */
  ghost predicate Stable(polls: seq<Poll>, from: nat, to: nat) {
    && from <= to < |polls| && (forall i :: from <= i <= to ==> Empty(polls[i]))
    && polls[to].time >= polls[from].time + STABILITY
  }

  /** The reasons for which the loop stops at poll `k`. */
  ghost predicate StableAt(polls: seq<Poll>, k: nat) {
    exists from: nat :: Stable(polls, from, k)
  }

  ghost predicate StopsAt(polls: seq<Poll>, k: nat) {
    k < |polls| && (polls[k].listing.NoSuchKind? || StableAt(polls, k))
  }

  ghost predicate Timed(polls: seq<Poll>) {
    forall i, j :: 0 <= i < j < |polls| ==> polls[i].time <= polls[j].time
  }

  /** The polls before `k` end in a longest run of empty ones, which starts at `from`. */
  ghost predicate EmptyFrom(polls: seq<Poll>, from: nat, k: nat) {
    from < k <= |polls| && (forall i :: from <= i < k ==> Empty(polls[i])) && (from == 0 || !Empty(polls[from - 1]))
  }

  /** The time at which the current run of empty polls started. */
  ghost predicate Since(polls: seq<Poll>, k: nat, zeroSince: Option<nat>)
    requires k <= |polls|
  {
    match zeroSince
    case None => k == 0 || !Empty(polls[k - 1])
    case Some(time) => exists from: nat :: EmptyFrom(polls, from, k) && polls[from].time == time
  }

  /**
   Stops at the first poll at which the kind is unknown or nothing has been there for the stability period,
   and never otherwise. Returns that poll, and the resources deleted on the way.
   */
  method DeleteArgoCDCR(polls: seq<Poll>) returns (stopped: Option<nat>, deletions: seq<string>)
    requires Timed(polls)
    ensures stopped.Some? ==> StopsAt(polls, stopped.value) && forall k: nat :: k < stopped.value ==> !StopsAt(polls, k)
    ensures stopped.None? ==> forall k: nat :: !StopsAt(polls, k)
    ensures deletions == Seen(if stopped.Some? && stopped.value <= |polls| then polls[..stopped.value] else polls)
  {
    var zeroSince: Option<nat> := None;
    stopped, deletions := None, [];
    for k := 0 to |polls|
      invariant stopped.None? && Since(polls, k, zeroSince)
      invariant forall j :: 0 <= j < k ==> !StopsAt(polls, j)
      invariant deletions == Seen(polls[..k])
    {
      assert polls[..k + 1][..k] == polls[..k];
      match polls[k].listing {
        case NoSuchKind =>
          return Some(k), deletions;
        case ListFailed =>
          zeroSince := None;
        case Items(items) =>
          if items == [] {
            SinceNext(polls, k, zeroSince);
            if zeroSince.None? {
              zeroSince := Some(polls[k].time);
            }
            SinceIsEarliest(polls, k, zeroSince.value);
            if polls[k].time >= zeroSince.value + STABILITY {
              return Some(k), deletions;
            }
          } else {
            zeroSince := None;
            deletions := deletions + items;
          }
      }
    }
    assert polls[..|polls|] == polls;
  }

  /** All resources seen. */
  function Seen(polls: seq<Poll>): seq<string> {
    if polls == [] then []
    else
      var last := |polls| - 1;
      Seen(polls[..last]) + if polls[last].listing.Items? then polls[last].listing.items else []
  }

  lemma SinceNext(polls: seq<Poll>, k: nat, zeroSince: Option<nat>)
    requires k < |polls| && Since(polls, k, zeroSince) && Empty(polls[k])
    ensures Since(polls, k + 1, if zeroSince.None? then Some(polls[k].time) else zeroSince)
  {
    if zeroSince.None? {
      assert EmptyFrom(polls, k, k + 1);
    } else {
      var from: nat :| EmptyFrom(polls, from, k) && polls[from].time == zeroSince.value;
      assert EmptyFrom(polls, from, k + 1);
    }
  }

  /** The loop measures from the start of the longest run of empty polls. */
  lemma SinceIsEarliest(polls: seq<Poll>, k: nat, time: nat)
    requires Timed(polls) && k < |polls| && Since(polls, k + 1, Some(time))
    ensures StableAt(polls, k) <==> polls[k].time >= time + STABILITY
  {
    var from: nat :| EmptyFrom(polls, from, k + 1) && polls[from].time == time;
    if polls[k].time >= time + STABILITY {
      assert Stable(polls, from, k);
    }
    if other: nat :| Stable(polls, other, k) {
      assert other >= from;
      assert polls[other].time >= polls[from].time;
    }
  }

  /** Whenever the kind exists, success means that the last 15 seconds of polls all succeeded and found nothing. */
  lemma SuccessIsStable(polls: seq<Poll>, k: nat)
    requires Timed(polls) && StopsAt(polls, k) && !polls[k].listing.NoSuchKind?
    ensures forall i :: 0 <= i <= k && polls[k].time < polls[i].time + STABILITY ==> Empty(polls[i])
    ensures exists i :: 0 <= i < k && polls[k].time >= polls[i].time + STABILITY && Empty(polls[i])
  {
    var from: nat :| Stable(polls, from, k);
    forall i | 0 <= i <= k && polls[k].time < polls[i].time + STABILITY ensures Empty(polls[i]) {
      assert i >= from;
    }
  }

  // ---------------------------------------------------------------------------------------------
  // Labelled resources of the operator
  // ---------------------------------------------------------------------------------------------

  const ADDON_NAME := "gitops-addon"

  datatype Kind = ClusterRole | ClusterRoleBinding | Namespaced(kind: string)

  datatype Item = Item(name: string, terminating: bool)

  /** The roles the removal itself runs with. */
  predicate OwnRole(kind: Kind, item: Item) {
    !kind.Namespaced? && (item.name == ADDON_NAME || item.name == ADDON_NAME + "-cleanup")
  }

  /**
   What lies behind the API server while the loop runs: what each sweep, and the final look, is shown of each kind.
   */
  datatype World = World(shown: (nat, Kind) -> Listing<Item>, final: Kind -> Listing<Item>, cancelled: nat -> bool)

  /** Nothing but the removal's own roles, and these not on their way out. */
  predicate CleanKind(kind: Kind, listing: Listing<Item>) {
    listing.Items? && forall i :: 0 <= i < |listing.items| ==>
          OwnRole(kind, listing.items[i]) && !listing.items[i].terminating
  }

  predicate CleanSweep(w: World, kinds: seq<Kind>, sweep: nat) {
    forall k :: 0 <= k < |kinds| ==> CleanKind(kinds[k], w.shown(sweep, kinds[k]))
  }

  /** The items of a listing that a sweep deletes. */
  function Deleted(kind: Kind, items: seq<Item>): seq<(Kind, string)> {
    if items == [] then []
    else
      var last := |items| - 1;
      Deleted(kind, items[..last]) + if items[last].terminating || OwnRole(kind, items[last]) then []
          else [(kind, items[last].name)]
  }

  function DeletedBySweep(w: World, kinds: seq<Kind>, sweep: nat): seq<(Kind, string)> {
    if kinds == [] then []
    else
      var last := |kinds| - 1;
      var listing := w.shown(sweep, kinds[last]);
      DeletedBySweep(w, kinds[..last], sweep) + if listing.Items? then Deleted(kinds[last], listing.items) else []
  }

  function DeletedBySweeps(w: World, kinds: seq<Kind>, sweeps: nat): seq<(Kind, string)> {
    if sweeps == 0 then [] else DeletedBySweeps(w, kinds, sweeps - 1) + DeletedBySweep(w, kinds, sweeps - 1)
  }

  method DeleteItems(kind: Kind, items: seq<Item>) returns (clean: bool, deletions: seq<(Kind, string)>)
    ensures clean <==> CleanKind(kind, Items(items))
    ensures deletions == Deleted(kind, items)
  {
    clean, deletions := true, [];
    for i := 0 to |items|
      invariant clean <==> forall j :: 0 <= j < i ==> OwnRole(kind, items[j]) && !items[j].terminating
      invariant deletions == Deleted(kind, items[..i])
    {
      assert items[..i + 1][..i] == items[..i];
      if items[i].terminating {
        clean := false;
        continue;
      }
      if !kind.Namespaced? && (items[i].name == ADDON_NAME || items[i].name == ADDON_NAME + "-cleanup") {
        continue;
      }
      deletions := deletions + [(kind, items[i].name)];
      clean := false;
    }
    assert items[..|items|] == items;
  }

  method DeleteResourcesByType(w: World, kinds: seq<Kind>, sweep: nat)
    returns (clean: bool, deletions: seq<(Kind, string)>)
    ensures clean <==> CleanSweep(w, kinds, sweep)
    ensures deletions == DeletedBySweep(w, kinds, sweep)
  {
    clean, deletions := true, [];
    for k := 0 to |kinds|
      invariant clean <==> CleanSweep(w, kinds[..k], sweep)
      invariant deletions == DeletedBySweep(w, kinds[..k], sweep)
    {
      assert kinds[..k + 1][..k] == kinds[..k];
      var listing := w.shown(sweep, kinds[k]);
      if !listing.Items? {
        clean := false;
        continue;
      }
      var kindClean, more := DeleteItems(kinds[k], listing.items);
      clean, deletions := clean && kindClean, deletions + more;
    }
    assert kinds[..|kinds|] == kinds;
  }

  /** The final look skips kinds that cannot be listed, and counts the removal's own roles. */
  predicate NothingRemains(w: World, kinds: seq<Kind>) {
    forall k :: 0 <= k < |kinds| ==> w.final(kinds[k]).Items? ==> w.final(kinds[k]).items == []
  }

  method CollectRemainingResources(w: World, kinds: seq<Kind>) returns (count: nat)
    ensures count == 0 <==> NothingRemains(w, kinds)
  {
    count := 0;
    for k := 0 to |kinds|
      invariant count == 0 <==> forall j :: 0 <= j < k ==> w.final(kinds[j]).Items? ==> w.final(kinds[j]).items == []
    {
      var listing := w.final(kinds[k]);
      if listing.Items? {
        count := count + |listing.items|;
      }
    }
  }

  /** The most sweeps there is time for. */
  function SweepLimit(maxWait: nat): nat {
    (maxWait + INTERVAL - 1) / INTERVAL
  }

  /** The sweep at which the loop succeeds, unless time or the caller's patience runs out first. */
  ghost predicate SucceedsAt(w: World, kinds: seq<Kind>, maxWait: nat, sweep: nat) {
    && sweep < SweepLimit(maxWait) && CleanSweep(w, kinds, sweep)
    && forall s :: 0 <= s <= sweep ==> !w.cancelled(s) && (s < sweep ==> !CleanSweep(w, kinds, s))
  }

  /**
   Succeeds within the loop exactly at the first clean sweep, and after it exactly when the final look finds nothing.
   */
  method DeleteResourcesWithRetry(w: World, kinds: seq<Kind>, maxWait: nat)
    returns (ok: bool, sweeps: nat, deletions: seq<(Kind, string)>)
    ensures sweeps <= SweepLimit(maxWait)
    ensures deletions == DeletedBySweeps(w, kinds, sweeps)
    ensures (exists s: nat :: SucceedsAt(w, kinds, maxWait, s)) ==>
              ok && sweeps > 0 && SucceedsAt(w, kinds, maxWait, sweeps - 1)
    ensures (forall s: nat :: !SucceedsAt(w, kinds, maxWait, s)) ==> (ok <==> NothingRemains(w, kinds))
  {
    var elapsed := 0;
    sweeps, deletions := 0, [];
    while elapsed < maxWait
      invariant elapsed == INTERVAL * sweeps && sweeps <= SweepLimit(maxWait)
      invariant deletions == DeletedBySweeps(w, kinds, sweeps)
      invariant forall s: nat :: s < sweeps ==> !w.cancelled(s) && !CleanSweep(w, kinds, s)
      decreases maxWait - elapsed
    {
      if w.cancelled(sweeps) {
        break;
      }
      var clean, more := DeleteResourcesByType(w, kinds, sweeps);
      sweeps, deletions := sweeps + 1, deletions + more;
      if clean {
        assert SucceedsAt(w, kinds, maxWait, sweeps - 1);
        OnlyOnce(w, kinds, maxWait, sweeps - 1);
        return true, sweeps, deletions;
      }
      elapsed := elapsed + INTERVAL;
    }
    GaveUp(w, kinds, maxWait, sweeps);
    var remaining := CollectRemainingResources(w, kinds);
    return remaining == 0, sweeps, deletions;
  }

  /** After so many unclean sweeps, with the time over or the caller gone, the loop cannot succeed any more. */
  lemma GaveUp(w: World, kinds: seq<Kind>, maxWait: nat, sweeps: nat)
    requires forall s: nat :: s < sweeps ==> !CleanSweep(w, kinds, s)
    requires sweeps >= SweepLimit(maxWait) || w.cancelled(sweeps)
    ensures forall s: nat :: !SucceedsAt(w, kinds, maxWait, s)
  {
    forall s: nat ensures !SucceedsAt(w, kinds, maxWait, s) {
      if s >= sweeps && sweeps < SweepLimit(maxWait) {
        assert w.cancelled(sweeps);
      }
    }
  }

  lemma OnlyOnce(w: World, kinds: seq<Kind>, maxWait: nat, sweep: nat)
    requires SucceedsAt(w, kinds, maxWait, sweep)
    ensures forall s: nat :: SucceedsAt(w, kinds, maxWait, s) ==> s == sweep
  {
  }

  /** When nothing can be listed, neither during the sweeps nor at the end, the loop reports success all the same. */
  lemma UnlistableCountsAsGone(w: World, kinds: seq<Kind>, maxWait: nat)
    requires kinds != [] && (forall k, s: nat {:trigger w.shown(s, k)} :: w.shown(s, k) == ListFailed)
    requires forall k {:trigger w.final(k)} :: w.final(k) == ListFailed
    ensures NothingRemains(w, kinds) && forall s: nat :: !SucceedsAt(w, kinds, maxWait, s)
  {
    forall s: nat ensures !SucceedsAt(w, kinds, maxWait, s) {
      assert !CleanKind(kinds[0], w.shown(s, kinds[0]));
    }
  }
}
