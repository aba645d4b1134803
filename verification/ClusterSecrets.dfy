/**
 The cluster secrets Argo CD works from: replacing the old secrets of a cluster by a new one, and
 sweeping away the secrets nobody claims. Any call may fail, and others may delete secrets meanwhile.
 */
module ClusterSecrets {
  import opened Options

  datatype Key = Key(namespace: string, name: string)

  /**
   `typed`: labelled as an Argo CD cluster secret; `acm`: labelled as managed here; `cluster`: the cluster named by
   its label; `agent`: of agent mode; `server` and `dataName`: its data. Empty strings stand for what is missing.
   */
  datatype Secret = Secret(typed: bool, acm: bool, cluster: string, agent: bool, server: string, dataName: string)

  type Secrets = map<Key, Secret>

  /** How a call ends; `Vanishes`: others have deleted the object just before. */
  datatype Response = Done | Refused | Vanishes

  datatype Reason = Replaced | Orphaned

  datatype Deletion = Deletion(key: Key, secret: Secret, reason: Reason)

  /** By call: the secret it found deleted by others. */
  type Vanishings = map<nat, Key>

  /** What was found deleted by others since was found by calls made since. */
  ghost predicate Onward(a: Vanishings, b: Vanishings, from: nat, to: nat) {
    && from <= to
    && (forall n :: n in a ==> n in b && b[n] == a[n])
    && (forall n :: n in b && n !in a ==> from <= n)
  }

  lemma ValuesMore(m: Vanishings, n: nat, k: Key)
    requires n !in m
    ensures m[n := k].Values == m.Values + {k}
  {
    forall x | x in m.Values ensures x in m[n := k].Values {
      var j :| j in m && m[j] == x;
      assert m[n := k][j] == x;
    }
    assert m[n := k][n] == k;
  }

  // ---------------------------------------------------------------------------------------------
  // Replacing
  // ---------------------------------------------------------------------------------------------

  /** A replacement: the new secret, its cluster and server, and the servers Applications still name. */
  datatype Job = Job(key: Key, cluster: string, server: string, servers: seq<string>)

  /** An older secret of the same cluster, not of agent mode. */
  predicate Old(start: Secrets, k: Key, job: Job) {
    && k in start && k.namespace == job.key.namespace && k.name != job.key.name
    && start[k].typed && start[k].acm && start[k].cluster == job.cluster && !start[k].agent
  }

  /** An old secret to go: it has the server of the new one, or one that no Application names. */
  predicate Replaceable(start: Secrets, k: Key, job: Job) {
    Old(start, k, job) && (start[k].server == job.server || start[k].server !in job.servers)
  }

  function Delabelled(s: Secret): Secret {
    s.(typed := false)
  }

  /** What a replacement may have done to the secrets at any moment; others' deletions are `gone`. */
  ghost predicate Safe(start: Secrets, now: Secrets, job: Job, gone: set<Key>) {
    && now.Keys <= start.Keys
    && (forall k :: k in start && !Replaceable(start, k, job) && k !in gone ==> k in now)
    && (forall k :: k in now ==> now[k] == start[k] || (Replaceable(start, k, job) && now[k] == Delabelled(start[k])))
  }

  /**
   So at any moment the new secret, those of agent mode, and those whose own server is still in use are as they were.
   */
  lemma SafeKeeps(start: Secrets, now: Secrets, job: Job, gone: set<Key>, k: Key)
    requires Safe(start, now, job, gone) && k in start && k !in gone
    requires k == job.key || start[k].agent || (start[k].server != job.server && start[k].server in job.servers)
    ensures k in now && now[k] == start[k]
  {
  }

  /** The secrets after a replacement in which no call fails. */
  function AfterReplacement(start: Secrets, job: Job): Secrets {
    map k | k in start && !Replaceable(start, k, job) :: start[k]
  }

  /** The secrets while those in `left` have not been considered. */
  function Remaining(start: Secrets, left: set<Key>, job: Job): Secrets {
    map k | k in start && (k in left || !Replaceable(start, k, job)) :: start[k]
  }

  lemma RemainingFirst(start: Secrets, listed: set<Key>, job: Job)
    requires forall k :: Old(start, k, job) ==> k in listed
    ensures Remaining(start, listed, job) == start
  {
  }

  lemma RemainingNext(start: Secrets, left: set<Key>, k: Key, job: Job)
    requires k in left && k in start
    ensures Remaining(start, left - {k}, job) == if Replaceable(start, k, job) then Remaining(start, left, job) - {k}
            else Remaining(start, left, job)
  {
  }

  lemma RemainingNone(start: Secrets, job: Job)
    ensures Remaining(start, {}, job) == AfterReplacement(start, job)
  {
  }

  /**
   The clusters Argo CD sees: those that a replacement keeps are the new one, those of agent mode, and those still in
   use.
   */
  lemma ReplacementKeeps(start: Secrets, job: Job, k: Key)
    requires k in start && k.namespace == job.key.namespace && start[k].typed && start[k].acm
             && start[k].cluster == job.cluster
    ensures k in AfterReplacement(start, job) <==>
              k == job.key || start[k].agent || (start[k].server != job.server && start[k].server in job.servers)
  {
    assert k == job.key <==> k.name == job.key.name;
  }

  /** A second replacement has nothing left to do. */
  lemma ReplacementIsIdempotent(start: Secrets, job: Job)
    ensures AfterReplacement(AfterReplacement(start, job), job) == AfterReplacement(start, job)
  {
  }

  // ---------------------------------------------------------------------------------------------
  // Sweeping
  // ---------------------------------------------------------------------------------------------

  function Listed(secrets: Secrets): set<Key> {
    set k | k in secrets && secrets[k].typed && secrets[k].acm
  }

  function ClusterOf(s: Secret): string {
    if s.cluster != "" then s.cluster else s.dataName
  }

  /** The secret of a cluster that is known to be gone. */
  predicate Abandoned(s: Secret, clusters: set<string>) {
    ClusterOf(s) != "" && ClusterOf(s) !in clusters
  }

  const SECRET_SUFFIX := "-cluster-secret"
  const COMPONENT_NAME := "application-manager"

  /** What there is for a placed cluster: secrets of others, no way to build one, or a new secret under its name. */
  datatype Build = Foreign | Unbuildable | Built(name: string, server: string)

  datatype Placed = Placed(cluster: string, build: Build)

  /** The secrets after one placed cluster, in which no call fails. */
  function AfterAddingOne(start: Secrets, namespace: string, p: Placed, servers: seq<string>): Secrets {
    if !p.build.Built? then start
    else AfterReplacement(start[Key(namespace, p.build.name) := NewSecret(p)], JobOf(namespace, p, servers))
  }

  function AfterAdding(start: Secrets, namespace: string, placed: seq<Placed>, servers: seq<string>): Secrets {
    if placed == [] then start
    else AfterAddingOne(AfterAdding(start, namespace, placed[..|placed| - 1], servers), namespace,
                        placed[|placed| - 1], servers)
  }

  function JobOf(namespace: string, p: Placed, servers: seq<string>): Job
    requires p.build.Built?
  {
    Job(Key(namespace, p.build.name), p.cluster, p.build.server, servers)
  }

  function NewSecret(p: Placed): Secret
    requires p.build.Built?
  {
    Secret(true, true, p.cluster, false, p.build.server, p.cluster)
  }

  function ClaimsOf(namespace: string, p: Placed): set<Key> {
    if p.build.Built? then {Key(namespace, p.build.name)} else StandardKeys(namespace, p.cluster)
  }

  /** The orphans nobody claims when no call fails. */
  function Unclaimed(orphans: set<Key>, namespace: string, placed: seq<Placed>): set<Key> {
    if placed == [] then orphans
    else Unclaimed(orphans, namespace, placed[..|placed| - 1]) - ClaimsOf(namespace, placed[|placed| - 1])
  }

  /** Swept of the orphans whose cluster is gone. */
  function AfterSweep(start: Secrets, orphans: set<Key>, clusters: set<string>): Secrets {
    map k | k in start && !(k in orphans && Abandoned(start[k], clusters)) :: start[k]
  }

  type Placements = seq<(string, seq<Placed>)>

  function AfterAddingAll(start: Secrets, placements: Placements, servers: seq<string>): Secrets {
    if placements == [] then start
    else
      var last := placements[|placements| - 1];
      AfterAdding(AfterAddingAll(start, placements[..|placements| - 1], servers), last.0, last.1, servers)
  }

  function UnclaimedByAll(orphans: set<Key>, placements: Placements): set<Key> {
    if placements == [] then orphans
    else
      var last := placements[|placements| - 1];
      Unclaimed(UnclaimedByAll(orphans, placements[..|placements| - 1]), last.0, last.1)
  }

  function AfterPass(start: Secrets, placements: Placements, servers: seq<string>, clusters: set<string>): Secrets {
    AfterSweep(AfterAddingAll(start, placements, servers), UnclaimedByAll(Listed(start), placements), clusters)
  }

  function AfterPasses(start: Secrets, passes: seq<Placements>, servers: seq<string>, clusters: set<string>): Secrets {
    if passes == [] then start
    else AfterPass(AfterPasses(start, passes[..|passes| - 1], servers, clusters), passes[|passes| - 1], servers,
                   clusters)
  }

  function StandardKeys(namespace: string, cluster: string): set<Key> {
    {Key(namespace, cluster + SECRET_SUFFIX), Key(namespace, cluster + "-" + COMPONENT_NAME + SECRET_SUFFIX)}
  }

  // ---------------------------------------------------------------------------------------------
  // The store
  // ---------------------------------------------------------------------------------------------

  class Store {
    var secrets: Secrets
    /** Destination servers of the Applications; None when there is no such kind. */
    const servers: Option<seq<string>>
    const clusters: set<string>
    const response: nat -> Response
    var calls: nat
    /** Deleted by others, and the calls that found it out. */
    ghost var gone: set<Key>
    ghost var vanishings: Vanishings
    ghost var deletions: seq<Deletion>
    /** All the states the secrets have been in. */
    ghost var states: seq<Secrets>

    constructor (secrets: Secrets, servers: Option<seq<string>>, clusters: set<string>, response: nat -> Response)
      ensures this.secrets == secrets && this.servers == servers && this.clusters == clusters
              && this.response == response
      ensures gone == {} && vanishings == map[] && deletions == [] && states == [secrets] && Valid()
    {
      this.secrets, this.servers, this.clusters, this.response, calls := secrets, servers, clusters, response, 0;
      gone, vanishings, deletions, states := {}, map[], [], [secrets];
    }

    /** Whatever has been deleted by others was found missing by a call answered so, one secret by one call. */
    ghost predicate Valid()
      reads this
    {
      && gone == vanishings.Values
      && forall n :: n in vanishings ==> n < calls && response(n) == Vanishes
    }

    /** No call finds a secret deleted by others. */
    ghost predicate NoneVanish() {
      forall n {:trigger response(n)} :: response(n) != Vanishes
    }

    lemma NoneGone()
      requires Valid() && NoneVanish()
      ensures gone == {}
    {
      assert forall n :: n in vanishings ==> response(n) == Vanishes;
      assert vanishings == map[];
    }

    ghost predicate AllDone() {
      forall n {:trigger response(n)} :: response(n) == Done
    }

    function ServersInUse(): seq<string> {
      servers.GetOr([])
    }

    /** A call about one secret that is refused or finds the secret missing; None when neither. */
    method Fails(k: Key) returns (outcome: Option<Outcome>)
      requires Valid()
      modifies this`secrets, this`calls, this`gone, this`vanishings, this`states
      ensures Valid() && Onward(old(vanishings), vanishings, old(calls), calls)
      ensures calls == old(calls) + 1
      ensures outcome == if response(old(calls)) == Refused then Some(Failed)
                         else if response(old(calls)) == Done && k in old(secrets) then None else Some(Missing)
      ensures outcome == None ==> k in secrets && secrets == old(secrets) && gone == old(gone) && states == old(states)
      ensures outcome.Some? ==>
                && states == old(states) + [secrets]
                && (outcome.value == Failed ==> secrets == old(secrets) && gone == old(gone))
                && (outcome.value == Missing ==>
                      && secrets == old(secrets) - {k}
                      && gone == if k in old(secrets) then old(gone) + {k} else old(gone))
    {
      var r := response(calls);
      calls := calls + 1;
      if r == Done && k in secrets {
        return None;
      }
      if r == Refused {
        outcome := Some(Failed);
      } else {
        outcome := Some(Missing);
        if k in secrets {
          ValuesMore(vanishings, calls - 1, k);
          vanishings := vanishings[calls - 1 := k];
          gone := gone + {k};
        }
        secrets := secrets - {k};
      }
      states := states + [secrets];
    }

    method PatchLabel(k: Key, typed: bool) returns (outcome: Outcome)
      requires Valid()
      modifies this`secrets, this`calls, this`gone, this`vanishings, this`states
      ensures Valid() && Onward(old(vanishings), vanishings, old(calls), calls)
      ensures calls == old(calls) + 1
      ensures outcome == OutcomeOf(response(old(calls)), k in old(secrets))
      ensures states == old(states) + [secrets]
      ensures outcome == Fine ==>
                k in old(secrets) && secrets == old(secrets)[k := old(secrets)[k].(typed := typed)] && gone == old(gone)
      ensures outcome == Failed ==> secrets == old(secrets) && gone == old(gone)
      ensures outcome == Missing ==>
                && secrets == old(secrets) - {k}
                && gone == if k in old(secrets) then old(gone) + {k} else old(gone)
    {
      var failure := Fails(k);
      if failure.Some? {
        return failure.value;
      }
      secrets := secrets[k := secrets[k].(typed := typed)];
      states := states + [secrets];
      return Fine;
    }

    method Delete(k: Key, reason: Reason) returns (outcome: Outcome)
      requires Valid()
      modifies this`secrets, this`calls, this`gone, this`vanishings, this`states, this`deletions
      ensures Valid() && Onward(old(vanishings), vanishings, old(calls), calls)
      ensures calls == old(calls) + 1
      ensures outcome == OutcomeOf(response(old(calls)), k in old(secrets))
      ensures states == old(states) + [secrets]
      ensures outcome == Fine ==>
                && k in old(secrets) && secrets == old(secrets) - {k} && gone == old(gone)
                && deletions == old(deletions) + [Deletion(k, old(secrets)[k], reason)]
      ensures outcome != Fine ==> deletions == old(deletions)
      ensures outcome == Failed ==> secrets == old(secrets) && gone == old(gone)
      ensures outcome == Missing ==>
                && secrets == old(secrets) - {k}
                && gone == if k in old(secrets) then old(gone) + {k} else old(gone)
    {
      var failure := Fails(k);
      if failure.Some? {
        return failure.value;
      }
      deletions := deletions + [Deletion(k, secrets[k], reason)];
      secrets := secrets - {k};
      states := states + [secrets];
      return Fine;
    }

    // -----------------------------------------------------------------------------------------
    // Replacement
    // -----------------------------------------------------------------------------------------

    /**
     Takes the label off, then deletes; puts the label back when the deletion fails. The secret is left without
     its label exactly when the deletion and the restoring patch are both refused.
     */
    method ReplaceOne(k: Key)
      requires k in secrets ==> secrets[k].typed
      requires Valid()
      modifies this`secrets, this`calls, this`gone, this`vanishings, this`states, this`deletions
      ensures Valid() && Onward(old(vanishings), vanishings, old(calls), calls)
      ensures k in secrets && !secrets[k].typed <==>
                && k in old(secrets) && response(old(calls)) == Done && response(old(calls) + 1) == Refused
                && response(old(calls) + 2) == Refused
      ensures old(states) <= states && old(gone) <= gone <= old(gone) + {k}
      ensures forall s :: s in states[|old(states)|..] || s == secrets ==> StepOf(old(secrets), k, s)
      ensures deletions == old(deletions)
              || (k in old(secrets)
                  && deletions == old(deletions) + [Deletion(k, Delabelled(old(secrets)[k]), Replaced)])
      ensures AllDone() && k in old(secrets) ==> secrets == old(secrets) - {k} && gone == old(gone)
    {
      var outcome := PatchLabel(k, false);
      if outcome != Fine {
        return;
      }
      DeleteOrRestore(k, old(secrets));
    }

    /** The second half, from the secret without its label. */
    method DeleteOrRestore(k: Key, ghost before: Secrets)
      requires Valid() && k in before && before[k].typed && secrets == before[k := Delabelled(before[k])]
      modifies this`secrets, this`calls, this`gone, this`vanishings, this`states, this`deletions
      ensures Valid() && Onward(old(vanishings), vanishings, old(calls), calls)
      ensures k in secrets && !secrets[k].typed <==>
                response(old(calls)) == Refused && response(old(calls) + 1) == Refused
      ensures old(states) <= states && old(gone) <= gone <= old(gone) + {k}
      ensures forall s :: s in states[|old(states)|..] || s == secrets ==> StepOf(before, k, s)
      ensures || deletions == old(deletions)
              || deletions == old(deletions) + [Deletion(k, Delabelled(before[k]), Replaced)]
      ensures AllDone() ==> secrets == before - {k} && gone == old(gone)
    {
      var outcome := Delete(k, Replaced);
      ghost var middle := secrets;
      assert states[|old(states)|..] == [middle];
      if outcome == Failed {
        outcome := PatchLabel(k, true);
        assert states[|old(states)|..] == [middle, secrets];
      }
      Halves(before, k, middle, secrets);
    }

    /** One step of a replacement that started from `start`; its states and deletions begin at the given places. */
    method ReplaceSafely(k: Key, ghost start: Secrets, ghost job: Job, ghost firstState: nat, ghost firstDeletion: nat)
      requires Replaceable(start, k, job) && (k in secrets ==> secrets[k] == start[k])
      requires firstState <= |states| && firstDeletion <= |deletions| && Safe(start, secrets, job, gone)
      requires forall s :: s in states[firstState..] ==> Safe(start, s, job, gone)
      requires forall d :: d in deletions[firstDeletion..] ==> ProperlyReplaced(start, d, job)
      requires Valid()
      modifies this`secrets, this`calls, this`gone, this`vanishings, this`states, this`deletions
      ensures Valid() && Onward(old(vanishings), vanishings, old(calls), calls)
      ensures old(states) <= states && old(gone) <= gone && old(deletions) <= deletions
      ensures Safe(start, secrets, job, gone) && forall s :: s in states[firstState..] ==> Safe(start, s, job, gone)
      ensures forall d :: d in deletions[firstDeletion..] ==> ProperlyReplaced(start, d, job)
      ensures secrets.Keys <= old(secrets).Keys && forall j :: j in secrets && j != k ==> secrets[j] == old(secrets)[j]
      ensures AllDone() && k in old(secrets) ==> secrets == old(secrets) - {k} && gone == old(gone)
    {
      ReplaceOne(k);
      SafeStep(start, old(secrets), secrets, job, old(gone), gone, k);
      SafeTrace(start, old(secrets), old(states), states, firstState, job, old(gone), gone, k);
      ProperLog(start, old(deletions), deletions, firstDeletion, job);
    }

    method IsOldSecretReferencedByArgoApps(server: string) returns (referenced: bool)
      requires Valid()
      modifies this`calls
      ensures Valid() && old(calls) <= calls
      ensures server in ServersInUse() ==> referenced
      ensures AllDone() ==> (referenced <==> server in ServersInUse())
    {
      if servers.None? {
        return false;
      }
      var r := response(calls);
      calls := calls + 1;
      if r != Done {
        return true;
      }
      for i := 0 to |servers.value|
        invariant Valid() && old(calls) <= calls
        invariant server !in servers.value[..i]
      {
        if servers.value[i] == server {
          return true;
        }
      }
      assert servers.value[..|servers.value|] == servers.value;
      return false;
    }

    method IsStale(k: Key, ghost start: Secrets, found: Secret, job: Job) returns (stale: bool)
      requires job.servers == ServersInUse() && k in start && start[k] == found
      requires k.namespace == job.key.namespace && found.typed && found.acm && found.cluster == job.cluster
      requires Valid()
      modifies this`calls
      ensures Valid() && old(calls) <= calls
      ensures stale ==> Replaceable(start, k, job)
      ensures AllDone() ==> (stale <==> Replaceable(start, k, job))
    {
      if k.name == job.key.name || found.agent {
        return false;
      }
      if found.server != job.server {
        var referenced := IsOldSecretReferencedByArgoApps(found.server);
        return !referenced;
      }
      return true;
    }

    /**
     A replacement that started from `start` has all secrets but those in `left` behind it; its states and deletions
     begin at the given places.
     */
    ghost predicate Replacing(start: Secrets, job: Job, left: set<Key>, firstState: nat, firstDeletion: nat)
      reads this
    {
      && firstState <= |states| && firstDeletion <= |deletions|
      && (forall k :: k in left && k in secrets ==> k in start && secrets[k] == start[k])
      && Safe(start, secrets, job, gone) && (forall s :: s in states[firstState..] ==> Safe(start, s, job, gone))
      && (forall d :: d in deletions[firstDeletion..] ==> ProperlyReplaced(start, d, job))
      && (AllDone() ==> secrets == Remaining(start, left, job))
    }

    /** Replaces the secret if it is stale. */
    method ConsiderOld(k: Key, found: Secret, job: Job, ghost start: Secrets, ghost left: set<Key>,
                       ghost firstState: nat, ghost firstDeletion: nat)
      requires Valid() && Replacing(start, job, left, firstState, firstDeletion) && k in left
      requires job.servers == ServersInUse() && k in start && start[k] == found
      requires k.namespace == job.key.namespace && found.typed && found.acm && found.cluster == job.cluster
      modifies this`secrets, this`calls, this`gone, this`vanishings, this`states, this`deletions
      ensures Valid() && Onward(old(vanishings), vanishings, old(calls), calls)
      ensures old(states) <= states && old(gone) <= gone && old(deletions) <= deletions
      ensures Replacing(start, job, left - {k}, firstState, firstDeletion)
    {
      RemainingNext(start, left, k, job);
      var stale := IsStale(k, start, found, job);
      if stale {
        ReplaceSafely(k, start, job, firstState, firstDeletion);
      }
    }

    /** Replaces the old secrets of a cluster; every state on the way is safe. */
    method CleanupOldArgoClusterSecrets(key: Key, server: string, cluster: string)
      requires Valid()
      modifies this`secrets, this`calls, this`gone, this`vanishings, this`states, this`deletions
      ensures Valid() && Onward(old(vanishings), vanishings, old(calls), calls)
      ensures old(states) <= states && old(gone) <= gone
      ensures forall s :: s in states[|old(states)|..] || s == secrets ==>
                Safe(old(secrets), s, Job(key, cluster, server, ServersInUse()), gone)
      ensures old(deletions) <= deletions
      ensures forall d :: d in deletions[|old(deletions)|..] ==>
                ProperlyReplaced(old(secrets), d, Job(key, cluster, server, ServersInUse()))
      ensures AllDone() ==> secrets == AfterReplacement(old(secrets), Job(key, cluster, server, ServersInUse()))
    {
      ghost var start := secrets;
      var job := Job(key, cluster, server, ServersInUse());
      var r := response(calls);
      calls := calls + 1;
      if r != Done {
        return;
      }
      var left := set k | k in secrets && k.namespace == key.namespace && secrets[k].typed && secrets[k].acm
          && secrets[k].cluster == cluster;
      ghost var listed := left;
      RemainingFirst(start, listed, job);
      var found := secrets;
      while left != {}
        invariant left <= listed
        invariant Valid() && Onward(old(vanishings), vanishings, old(calls), calls)
        invariant old(states) <= states && old(gone) <= gone && old(deletions) <= deletions
        invariant Replacing(start, job, left, |old(states)|, |old(deletions)|)
        decreases left
      {
        var k :| k in left;
        ConsiderOld(k, found[k], job, start, left, |old(states)|, |old(deletions)|);
        left := left - {k};
      }
      RemainingNone(start, job);
    }

    // -----------------------------------------------------------------------------------------
    // Reconciling
    // -----------------------------------------------------------------------------------------

    /** Creates the secret, or updates the one of that name. */
    method Apply(key: Key, secret: Secret) returns (ok: bool)
      requires Valid()
      modifies this`secrets, this`calls, this`states
      ensures Valid() && old(calls) <= calls
      ensures states == old(states) + [secrets]
      ensures secrets == if ok then old(secrets)[key := secret] else old(secrets)
      ensures AllDone() ==> ok
    {
      var get, write := response(calls), response(calls + 1);
      calls := calls + 2;
      ok := get == Done && write == Done;
      if ok {
        secrets := secrets[key := secret];
      }
      states := states + [secrets];
    }

    /** One placed cluster: its new secret replaces the old ones, or its standard names are taken off the orphans. */
    method AddManagedCluster(namespace: string, p: Placed, orphans: set<Key>, ghost start: Secrets,
                             ghost placed: seq<Placed>)
      returns (left: set<Key>, failed: bool)
      requires p in placed && Kept(start, secrets, gone, namespace, placed, ServersInUse())
      requires Valid()
      modifies this`secrets, this`calls, this`gone, this`vanishings, this`states, this`deletions
      ensures Valid() && Onward(old(vanishings), vanishings, old(calls), calls)
      ensures left <= orphans && Claimed(namespace, p, left) && old(states) <= states && old(gone) <= gone
              && old(deletions) <= deletions
      ensures forall s :: s in states[|old(states)|..] || s == secrets ==>
                Kept(start, s, gone, namespace, placed, ServersInUse())
      ensures forall d :: d in deletions[|old(deletions)|..] ==> OldOne(d, placed, ServersInUse())
      ensures AllDone() ==>
                && (failed <==> !p.build.Built?)
                && secrets == AfterAddingOne(old(secrets), namespace, p, ServersInUse())
                && left == orphans - ClaimsOf(namespace, p)
    {
      left, failed := orphans - StandardKeys(namespace, p.cluster), true;
      if !p.build.Built? {
        return;
      }
      var key := Key(namespace, p.build.name);
      var ok := Apply(key, NewSecret(p));
      KeptAdding(start, old(secrets), gone, namespace, p, placed, ServersInUse());
      if !ok {
        return;
      }
      ghost var added, addedGone := secrets, gone;
      CleanupOldArgoClusterSecrets(key, p.build.server, p.cluster);
      forall s | s in states[|old(states)| + 1..] || s == secrets
        ensures Kept(start, s, gone, namespace, placed, ServersInUse())
      {
        KeptReplacing(start, added, s, addedGone, gone, namespace, p, placed, ServersInUse());
      }
      KeptLonger(start, added, addedGone, gone, namespace, placed, ServersInUse());
      assert states[|old(states)|..] == [added] + states[|old(states)| + 1..];
      left, failed := orphans - {key}, false;
    }

    /** Makes the secrets of the placed clusters; what is `left` of the orphans nobody has claimed. */
    method AddManagedClustersToArgo(namespace: string, placed: seq<Placed>, orphans: set<Key>)
      returns (left: set<Key>, failed: bool, listed: bool)
      requires Valid()
      modifies this`secrets, this`calls, this`gone, this`vanishings, this`states, this`deletions
      ensures Valid() && Onward(old(vanishings), vanishings, old(calls), calls)
      ensures left <= orphans && (listed ==> forall i :: 0 <= i < |placed| ==> Claimed(namespace, placed[i], left))
      ensures !listed ==> failed && left == orphans && secrets == old(secrets)
      ensures old(states) <= states && old(gone) <= gone && old(deletions) <= deletions
      ensures forall s :: s in states[|old(states)|..] || s == secrets ==>
                Kept(old(secrets), s, gone, namespace, placed, ServersInUse())
      ensures forall d :: d in deletions[|old(deletions)|..] ==> OldOne(d, placed, ServersInUse())
      ensures AllDone() ==> listed && (failed <==> exists i :: 0 <= i < |placed| && !placed[i].build.Built?)
      ensures AllDone() ==>
                && secrets == AfterAdding(old(secrets), namespace, placed, ServersInUse())
                && left == Unclaimed(orphans, namespace, placed)
    {
      left, failed, listed := orphans, false, true;
      // The cluster secrets of others are listed first.
      var r := response(calls);
      calls := calls + 1;
      if r != Done {
        return orphans, true, false;
      }
      for i := 0 to |placed|
        invariant Valid() && Onward(old(vanishings), vanishings, old(calls), calls)
        invariant left <= orphans && listed && old(states) <= states && old(gone) <= gone && old(deletions) <= deletions
        invariant forall j :: 0 <= j < i ==> Claimed(namespace, placed[j], left)
        invariant forall s :: s in states[|old(states)|..] || s == secrets ==>
                    Kept(old(secrets), s, gone, namespace, placed, ServersInUse())
        invariant forall d :: d in deletions[|old(deletions)|..] ==> OldOne(d, placed, ServersInUse())
        invariant AllDone() ==> (failed <==> exists j :: 0 <= j < i && !placed[j].build.Built?)
        invariant AllDone() ==>
                    && secrets == AfterAdding(old(secrets), namespace, placed[..i], ServersInUse())
                    && left == Unclaimed(orphans, namespace, placed[..i])
      {
        assert placed[..i + 1][..i] == placed[..i];
        ghost var statesBefore, deletionsBefore, goneBefore := states, deletions, gone;
        var failedOne;
        left, failedOne := AddManagedCluster(namespace, placed[i], left, old(secrets), placed);
        failed := failed || failedOne;
        KeptTrace(old(secrets), statesBefore, states, |old(states)|, goneBefore, gone, namespace, placed,
                  ServersInUse());
        OldOnes(deletionsBefore, deletions, |old(deletions)|, placed, ServersInUse());
      }
      assert placed[..|placed|] == placed;
    }

    /** Deletes the orphans whose cluster is known to be gone. */
    method CleanupOrphanSecrets(orphans: set<Key>) returns (ok: bool)
      requires Valid()
      modifies this`secrets, this`calls, this`gone, this`vanishings, this`states, this`deletions
      ensures Valid() && Onward(old(vanishings), vanishings, old(calls), calls)
      ensures old(states) <= states && old(gone) <= gone && old(deletions) <= deletions
      ensures forall s :: s in states[|old(states)|..] || s == secrets ==>
                OnlySwept(old(secrets), s, orphans, clusters, gone)
      ensures forall d :: d in deletions[|old(deletions)|..] ==>
                d.reason == Orphaned && d.key in orphans && Abandoned(d.secret, clusters)
      ensures AllDone() ==> ok && secrets == AfterSweep(old(secrets), orphans, clusters)
    {
      ok := true;
      var left := orphans;
      while left != {}
        invariant Valid() && Onward(old(vanishings), vanishings, old(calls), calls)
        invariant left <= orphans
        invariant old(states) <= states && old(gone) <= gone && old(deletions) <= deletions
        invariant forall s :: s in states[|old(states)|..] || s == secrets ==>
                    OnlySwept(old(secrets), s, orphans, clusters, gone)
        invariant forall d :: d in deletions[|old(deletions)|..] ==>
                    d.reason == Orphaned && d.key in orphans && Abandoned(d.secret, clusters)
        invariant AllDone() ==>
                    && ok
                    && secrets == map k |
                         k in old(secrets) && !(k in orphans && k !in left && Abandoned(old(secrets)[k], clusters)) ::
                         old(secrets)[k]
        decreases left
      {
        var k :| k in left;
        left := left - {k};
        var clean := SweepOne(k, orphans, old(secrets), |old(states)|, |old(deletions)|);
        ok := ok && clean;
      }
    }

    /** Whether the secret names a cluster that is no longer managed; None when that cannot be found out. */
    method LooksAbandoned(k: Key) returns (abandoned: Option<bool>)
      requires Valid()
      modifies this`calls
      ensures Valid() && calls >= old(calls)
      ensures abandoned == Some(true) ==> k in secrets && Abandoned(secrets[k], clusters)
      ensures AllDone() ==> abandoned == Some(k in secrets && Abandoned(secrets[k], clusters))
    {
      var r := response(calls);
      calls := calls + 1;
      if r != Done || k !in secrets {
        return Some(false);
      }
      var cluster := ClusterOf(secrets[k]);
      if cluster == "" {
        return Some(false);
      }
      r := response(calls);
      calls := calls + 1;
      if r == Done && cluster in clusters {
        return Some(false);
      }
      return if r == Done then Some(true) else None;
    }

    /** One orphan of a sweep that started from `start`; its states and deletions begin at the given places. */
    method SweepOne(k: Key, ghost orphans: set<Key>, ghost start: Secrets, ghost firstState: nat,
                    ghost firstDeletion: nat) returns (clean: bool)
      requires k in orphans && firstState <= |states| && firstDeletion <= |deletions|
               && OnlySwept(start, secrets, orphans, clusters, gone)
      requires forall s :: s in states[firstState..] ==> OnlySwept(start, s, orphans, clusters, gone)
      requires forall d :: d in deletions[firstDeletion..] ==>
                 d.reason == Orphaned && d.key in orphans && Abandoned(d.secret, clusters)
      requires Valid()
      modifies this`secrets, this`calls, this`gone, this`vanishings, this`states, this`deletions
      ensures Valid() && Onward(old(vanishings), vanishings, old(calls), calls)
      ensures old(states) <= states && old(gone) <= gone && old(deletions) <= deletions
      ensures OnlySwept(start, secrets, orphans, clusters, gone)
      ensures forall s :: s in states[firstState..] ==> OnlySwept(start, s, orphans, clusters, gone)
      ensures forall d :: d in deletions[firstDeletion..] ==>
                d.reason == Orphaned && d.key in orphans && Abandoned(d.secret, clusters)
      ensures AllDone() ==>
                && clean
                && secrets == (if k in old(secrets) && Abandoned(old(secrets)[k], clusters) then old(secrets) - {k}
                               else old(secrets))
    {
      var abandoned := LooksAbandoned(k);
      if abandoned != Some(true) {
        return abandoned.Some?;
      }
      var outcome := Delete(k, Orphaned);
      clean := outcome == Fine;
      OneMore(old(states), states, firstState, secrets);
      if clean {
        OneMore(old(deletions), deletions, firstDeletion, Deletion(k, old(secrets)[k], Orphaned));
      }
    }

    /**
     All GitOpsClusters in turn, then the sweep. Every secret deleted was an old one replaced, or a listed orphan
     that no pass with a foreign listing claimed; secrets nobody writes, replaces or abandons are untouched throughout.
     */
    method Reconcile(placements: Placements) returns (ok: bool, ghost listings: seq<bool>)
      requires Valid()
      modifies this`secrets, this`calls, this`gone, this`vanishings, this`states, this`deletions
      ensures Valid() && Onward(old(vanishings), vanishings, old(calls), calls)
      ensures old(states) <= states && old(gone) <= gone && old(deletions) <= deletions
      ensures forall s :: s in states[|old(states)|..] || s == secrets ==>
                KeptByPass(old(secrets), s, gone, placements, ServersInUse(), clusters)
      ensures forall d :: d in deletions[|old(deletions)|..] ==>
                            Entitled(d, placements, Listed(old(secrets)), listings, ServersInUse(), clusters)
      ensures NoneVanish() ==> gone == {}
      ensures AllDone() ==> listings == seq(|placements|, _ => true)
      ensures AllDone() ==> secrets == AfterPass(old(secrets), placements, ServersInUse(), clusters)
    {
      listings := seq(|placements|, _ => false);
      var r := response(calls);
      calls := calls + 1;
      if r != Done {
        if NoneVanish() {
          NoneGone();
        }
        return false, listings;
      }
      var orphans;
      orphans, ok, listings := AddAll(placements);
      ghost var added, addedGone, addedStates, addedDeletions := secrets, gone, states, deletions;
      assert placements[..|placements|] == placements;
      var swept := CleanupOrphanSecrets(orphans);
      forall s | s in states[|addedStates|..] || s == secrets
        ensures KeptByPass(old(secrets), s, gone, placements, ServersInUse(), clusters)
      {
        KeptSweeping(old(secrets), added, s, addedGone, gone, placements, orphans, ServersInUse(), clusters);
      }
      forall s | s in addedStates[|old(states)|..]
        ensures KeptByPass(old(secrets), s, gone, placements, ServersInUse(), clusters)
      {
        assert KeptByAll(old(secrets), s, addedGone, placements, ServersInUse());
      }
      TwoParts(states, |old(states)|, |addedStates|);
      TwoParts(deletions, |old(deletions)|, |addedDeletions|);
      assert states[..|addedStates|] == addedStates && deletions[..|addedDeletions|] == addedDeletions;
      ok := ok && swept;
      if NoneVanish() {
        NoneGone();
      }
    }

    /**
     The first `i` GitOpsClusters of a pass that started from `start` have been added; its states and deletions begin at
     the given places.
     */
    ghost predicate Added(start: Secrets, placements: Placements, i: nat, listings: seq<bool>, orphans: set<Key>,
                          firstState: nat, firstDeletion: nat)
      reads this
    {
      && |listings| == i <= |placements| && firstState <= |states| && firstDeletion <= |deletions|
      && orphans <= Listed(start) && ClaimedByListings(placements, listings, orphans)
      && KeptByAll(start, secrets, gone, placements, ServersInUse())
      && (forall s :: s in states[firstState..] ==> KeptByAll(start, s, gone, placements, ServersInUse()))
      && (forall d :: d in deletions[firstDeletion..] ==> OldOneOfAny(d, placements, ServersInUse()))
      && (AllDone() ==>
            && listings == seq(i, _ => true)
            && secrets == AfterAddingAll(start, placements[..i], ServersInUse())
            && orphans == UnclaimedByAll(Listed(start), placements[..i]))
    }

    /** The next GitOpsCluster. */
    method AddNext(placements: Placements, i: nat, orphans: set<Key>, ghost start: Secrets, ghost listings: seq<bool>,
                   ghost firstState: nat, ghost firstDeletion: nat)
      returns (left: set<Key>, failed: bool, listed: bool)
      requires Valid() && i < |placements| && Added(start, placements, i, listings, orphans, firstState, firstDeletion)
      modifies this`secrets, this`calls, this`gone, this`vanishings, this`states, this`deletions
      ensures Valid() && Onward(old(vanishings), vanishings, old(calls), calls)
      ensures old(states) <= states && old(gone) <= gone && old(deletions) <= deletions
      ensures Added(start, placements, i + 1, listings + [listed], left, firstState, firstDeletion)
    {
      assert placements[..i + 1][..i] == placements[..i];
      left, failed, listed := AddManagedClustersToArgo(placements[i].0, placements[i].1, orphans);
      KeptByNext(start, old(secrets), secrets, old(gone), gone, placements, i, ServersInUse());
      KeptTraceByAll(start, old(secrets), old(states), states, firstState, old(gone), gone, placements, i,
                     ServersInUse());
      OldOnesOfAny(old(deletions), deletions, firstDeletion, placements, i, ServersInUse());
    }

    /** The GitOpsClusters of a pass; what is left of the listed secrets nobody has claimed. */
    method AddAll(placements: Placements) returns (orphans: set<Key>, ok: bool, ghost listings: seq<bool>)
      requires Valid()
      modifies this`secrets, this`calls, this`gone, this`vanishings, this`states, this`deletions
      ensures Valid() && Onward(old(vanishings), vanishings, old(calls), calls)
      ensures old(states) <= states && old(gone) <= gone && old(deletions) <= deletions
      ensures Added(old(secrets), placements, |placements|, listings, orphans, |old(states)|, |old(deletions)|)
    {
      orphans, ok, listings := Listed(secrets), true, [];
      for i := 0 to |placements|
        invariant Valid() && Onward(old(vanishings), vanishings, old(calls), calls)
        invariant old(states) <= states && old(gone) <= gone && old(deletions) <= deletions
        invariant Added(old(secrets), placements, i, listings, orphans, |old(states)|, |old(deletions)|)
      {
        var left, failed, listed :=
          AddNext(placements, i, orphans, old(secrets), listings, |old(states)|, |old(deletions)|);
        orphans, ok, listings := left, ok && !failed, listings + [listed];
      }
    }

    /**
     Pass after pass: in particular a secret left without its label stays as it is until others delete it or a new
     secret takes its name.
     */
    method Run(passes: seq<Placements>)
      requires Valid()
      modifies this`secrets, this`calls, this`gone, this`vanishings, this`states, this`deletions
      ensures Valid() && Onward(old(vanishings), vanishings, old(calls), calls)
      ensures forall k :: k in old(secrets) && SparedByPasses(old(secrets), k, passes, ServersInUse(), clusters) ==>
                Untouched(old(secrets), secrets, k, gone)
      ensures forall k :: k in old(secrets) && !old(secrets)[k].typed && NeverBuilt(k, passes) ==>
                Untouched(old(secrets), secrets, k, gone)
      ensures NoneVanish() ==>
                && gone == {}
                && forall k | k in old(secrets) && SparedByPasses(old(secrets), k, passes, ServersInUse(), clusters) ::
                     k in secrets && secrets[k] == old(secrets)[k]
    {
      for i := 0 to |passes|
        invariant Valid() && Onward(old(vanishings), vanishings, old(calls), calls)
        invariant forall k | k in old(secrets) && SparedByPasses(old(secrets), k, passes, ServersInUse(), clusters) ::
                    Untouched(old(secrets), secrets, k, gone)
      {
        ghost var before := secrets;
        var ok, _ := Reconcile(passes[i]);
        forall k | k in old(secrets) && SparedByPasses(old(secrets), k, passes, ServersInUse(), clusters)
          ensures Untouched(old(secrets), secrets, k, gone)
        {
          if k !in gone {
            assert k in before && before[k] == old(secrets)[k]
                   && KeptByPass(before, secrets, gone, passes[i], ServersInUse(), clusters);
          }
        }
      }
      UnlabelledIsSpared(old(secrets), passes, ServersInUse(), clusters);
      if NoneVanish() {
        NoneGone();
      }
    }
  }

  /**
   Neither the cluster's new secret is among the orphans left nor, when it could not be made, those under its standard
   names.
   */
  predicate Claimed(namespace: string, p: Placed, left: set<Key>) {
    StandardKeys(namespace, p.cluster) !! left || (p.build.Built? && Key(namespace, p.build.name) !in left)
  }

  predicate AllClaimed(namespace: string, placed: seq<Placed>, left: set<Key>) {
    forall i :: 0 <= i < |placed| ==> Claimed(namespace, placed[i], left)
  }

  /**
   An older secret of a placed cluster, without its label, not of agent mode, and with the new server or one not in use.
   */
  predicate OldOne(d: Deletion, placed: seq<Placed>, servers: seq<string>) {
    && d.reason == Replaced && !d.secret.typed && d.secret.acm && !d.secret.agent
    && exists i :: 0 <= i < |placed| && ReplacedBy(d, placed[i], servers)
  }

  predicate ReplacedBy(d: Deletion, p: Placed, servers: seq<string>) {
    && p.build.Built? && p.cluster == d.secret.cluster && p.build.name != d.key.name
    && (d.secret.server == p.build.server || d.secret.server !in servers)
  }

  lemma OldOnes(a: seq<Deletion>, b: seq<Deletion>, from: nat, placed: seq<Placed>, servers: seq<string>)
    requires from <= |a| && a <= b
    requires forall d :: d in a[from..] ==> OldOne(d, placed, servers)
    requires forall d :: d in b[|a|..] ==> OldOne(d, placed, servers)
    ensures forall d :: d in b[from..] ==> OldOne(d, placed, servers)
  {
    TwoParts(b, from, |a|);
    assert b[..|a|] == a;
  }

  // ---------------------------------------------------------------------------------------------
  // What survives, whatever fails
  // ---------------------------------------------------------------------------------------------

  /** Unchanged, unless others have deleted it. */
  ghost predicate Untouched(start: Secrets, now: Secrets, k: Key, gone: set<Key>)
    requires k in start
  {
    k in gone || (k in now && now[k] == start[k])
  }

  /**
   A secret the placed clusters neither write nor replace: in particular one without its label, one of agent mode, or
   one still in use.
   */
  predicate Spared(s: Secret, k: Key, namespace: string, placed: seq<Placed>, servers: seq<string>) {
    forall i :: 0 <= i < |placed| && placed[i].build.Built? ==> SparedBy(s, k, JobOf(namespace, placed[i], servers))
  }

  predicate SparedBy(s: Secret, k: Key, job: Job) {
    && k != job.key
    && (k.namespace != job.key.namespace || !s.typed || !s.acm || s.cluster != job.cluster || s.agent
        || (s.server != job.server && s.server in job.servers))
  }

  ghost predicate Kept(start: Secrets, now: Secrets, gone: set<Key>, namespace: string, placed: seq<Placed>,
                       servers: seq<string>) {
    forall k :: k in start && Spared(start[k], k, namespace, placed, servers) ==> Untouched(start, now, k, gone)
  }

  lemma KeptAdding(start: Secrets, before: Secrets, gone: set<Key>, namespace: string, p: Placed, placed: seq<Placed>,
                   servers: seq<string>)
    requires p in placed && p.build.Built? && Kept(start, before, gone, namespace, placed, servers)
    ensures Kept(start, before[Key(namespace, p.build.name) := NewSecret(p)], gone, namespace, placed, servers)
  {
    var i :| 0 <= i < |placed| && placed[i] == p;
    forall k | k in start && Spared(start[k], k, namespace, placed, servers)
      ensures Untouched(start, before[Key(namespace, p.build.name) := NewSecret(p)], k, gone)
    {
      assert SparedBy(start[k], k, JobOf(namespace, placed[i], servers));
    }
  }

  lemma KeptReplacing(start: Secrets, before: Secrets, now: Secrets, goneBefore: set<Key>, gone: set<Key>,
                      namespace: string, p: Placed,
                      placed: seq<Placed>, servers: seq<string>)
    requires p in placed && p.build.Built? && Kept(start, before, goneBefore, namespace, placed, servers)
    requires goneBefore <= gone && Safe(before, now, JobOf(namespace, p, servers), gone)
    ensures Kept(start, now, gone, namespace, placed, servers)
  {
    var i :| 0 <= i < |placed| && placed[i] == p;
    forall k | k in start && Spared(start[k], k, namespace, placed, servers) ensures Untouched(start, now, k, gone) {
      assert SparedBy(start[k], k, JobOf(namespace, placed[i], servers));
      if k !in gone {
        assert before[k] == start[k] && !Replaceable(before, k, JobOf(namespace, p, servers));
      }
    }
  }

  lemma KeptLonger(start: Secrets, now: Secrets, goneBefore: set<Key>, gone: set<Key>, namespace: string,
                   placed: seq<Placed>, servers: seq<string>)
    requires Kept(start, now, goneBefore, namespace, placed, servers) && goneBefore <= gone
    ensures Kept(start, now, gone, namespace, placed, servers)
  {
  }

  lemma KeptTrace(start: Secrets, a: seq<Secrets>, b: seq<Secrets>, from: nat, goneBefore: set<Key>, gone: set<Key>,
                  namespace: string,
                  placed: seq<Placed>, servers: seq<string>)
    requires from <= |a| && a <= b && goneBefore <= gone
    requires forall s :: s in a[from..] ==> Kept(start, s, goneBefore, namespace, placed, servers)
    requires forall s :: s in b[|a|..] ==> Kept(start, s, gone, namespace, placed, servers)
    ensures forall s :: s in b[from..] ==> Kept(start, s, gone, namespace, placed, servers)
  {
    TwoParts(b, from, |a|);
    assert b[..|a|] == a;
  }

  ghost predicate KeptByAll(start: Secrets, now: Secrets, gone: set<Key>, placements: Placements,
                            servers: seq<string>) {
    forall k :: k in start && SparedByAll(start[k], k, placements, servers) ==> Untouched(start, now, k, gone)
  }

  predicate SparedByAll(s: Secret, k: Key, placements: Placements, servers: seq<string>) {
    forall i :: 0 <= i < |placements| ==> Spared(s, k, placements[i].0, placements[i].1, servers)
  }

  /** Nor is it a listed orphan of a cluster that is gone. */
  predicate SparedByPass(start: Secrets, k: Key, placements: Placements, servers: seq<string>, clusters: set<string>)
    requires k in start
  {
    SparedByAll(start[k], k, placements, servers) && !(start[k].typed && start[k].acm && Abandoned(start[k], clusters))
  }

  ghost predicate KeptByPass(start: Secrets, now: Secrets, gone: set<Key>, placements: Placements,
                             servers: seq<string>, clusters: set<string>) {
    forall k :: k in start && SparedByPass(start, k, placements, servers, clusters) ==> Untouched(start, now, k, gone)
  }

  predicate SparedByPasses(start: Secrets, k: Key, passes: seq<Placements>, servers: seq<string>, clusters: set<string>)
    requires k in start
  {
    forall i :: 0 <= i < |passes| ==> SparedByPass(start, k, passes[i], servers, clusters)
  }

  ghost predicate OnlySwept(start: Secrets, now: Secrets, orphans: set<Key>, clusters: set<string>, gone: set<Key>) {
    forall k :: k in start && !(k in orphans && Abandoned(start[k], clusters)) ==> Untouched(start, now, k, gone)
  }

  /** No placed cluster of any pass builds a secret of this name. */
  predicate NeverBuilt(k: Key, passes: seq<Placements>) {
    forall i :: 0 <= i < |passes| ==> NotBuilt(k, passes[i])
  }

  predicate NotBuilt(k: Key, placements: Placements) {
    forall i, j :: 0 <= i < |placements| && 0 <= j < |placements[i].1| && placements[i].1[j].build.Built? ==>
                     k != Key(placements[i].0, placements[i].1[j].build.name)
  }

  lemma UnlabelledIsSpared(start: Secrets, passes: seq<Placements>, servers: seq<string>, clusters: set<string>)
    ensures forall k :: k in start && !start[k].typed && NeverBuilt(k, passes) ==>
              SparedByPasses(start, k, passes, servers, clusters)
  {
    forall k | k in start && !start[k].typed && NeverBuilt(k, passes)
      ensures SparedByPasses(start, k, passes, servers, clusters)
    {
      forall n | 0 <= n < |passes| ensures SparedByPass(start, k, passes[n], servers, clusters) {
        assert NotBuilt(k, passes[n]);
      }
    }
  }

  lemma KeptByNext(start: Secrets, before: Secrets, now: Secrets, goneBefore: set<Key>, gone: set<Key>,
                   placements: Placements, i: nat,
                   servers: seq<string>)
    requires i < |placements| && goneBefore <= gone && KeptByAll(start, before, goneBefore, placements, servers)
    requires Kept(before, now, gone, placements[i].0, placements[i].1, servers)
    ensures KeptByAll(start, now, gone, placements, servers)
  {
    forall k | k in start && SparedByAll(start[k], k, placements, servers) ensures Untouched(start, now, k, gone) {
      if k !in gone {
        assert k in before && before[k] == start[k];
      }
    }
  }

  lemma KeptTraceByAll(start: Secrets, before: Secrets, a: seq<Secrets>, b: seq<Secrets>, from: nat,
                       goneBefore: set<Key>, gone: set<Key>,
                       placements: Placements, i: nat, servers: seq<string>)
    requires from <= |a| && a <= b && goneBefore <= gone && i < |placements|
             && KeptByAll(start, before, goneBefore, placements, servers)
    requires forall s :: s in a[from..] ==> KeptByAll(start, s, goneBefore, placements, servers)
    requires forall s :: s in b[|a|..] ==> Kept(before, s, gone, placements[i].0, placements[i].1, servers)
    ensures forall s :: s in b[from..] ==> KeptByAll(start, s, gone, placements, servers)
  {
    TwoParts(b, from, |a|);
    assert b[..|a|] == a;
    forall s | s in b[from..] ensures KeptByAll(start, s, gone, placements, servers) {
      if s in b[|a|..] {
        KeptByNext(start, before, s, goneBefore, gone, placements, i, servers);
      } else {
        assert KeptByAll(start, s, goneBefore, placements, servers);
      }
    }
  }

  lemma KeptSweeping(start: Secrets, before: Secrets, now: Secrets, goneBefore: set<Key>, gone: set<Key>,
                     placements: Placements, orphans: set<Key>,
                     servers: seq<string>, clusters: set<string>)
    requires KeptByAll(start, before, goneBefore, placements, servers) && goneBefore <= gone && orphans <= Listed(start)
    requires OnlySwept(before, now, orphans, clusters, gone)
    ensures KeptByPass(start, now, gone, placements, servers, clusters)
  {
    forall k | k in start && SparedByPass(start, k, placements, servers, clusters)
      ensures Untouched(start, now, k, gone)
    {
      if k !in gone {
        assert k in before && before[k] == start[k];
      }
    }
  }

  /** Claims count where the cluster secrets of others could be listed. */
  ghost predicate ClaimedByListings(placements: Placements, listings: seq<bool>, left: set<Key>) {
    forall j :: 0 <= j < |listings| <= |placements| && listings[j] ==>
          AllClaimed(placements[j].0, placements[j].1, left)
  }

  predicate OldOneOfAny(d: Deletion, placements: Placements, servers: seq<string>) {
    exists j :: 0 <= j < |placements| && OldOne(d, placements[j].1, servers)
  }

  lemma OldOnesOfAny(a: seq<Deletion>, b: seq<Deletion>, from: nat, placements: Placements, i: nat,
                     servers: seq<string>)
    requires from <= |a| && a <= b && i < |placements|
    requires forall d :: d in a[from..] ==> OldOneOfAny(d, placements, servers)
    requires forall d :: d in b[|a|..] ==> OldOne(d, placements[i].1, servers)
    ensures forall d :: d in b[from..] ==> OldOneOfAny(d, placements, servers)
  {
    TwoParts(b, from, |a|);
    assert b[..|a|] == a;
  }

  ghost predicate Entitled(d: Deletion, placements: Placements, listed: set<Key>, listings: seq<bool>,
                           servers: seq<string>, clusters: set<string>) {
    match d.reason
    case Replaced => OldOneOfAny(d, placements, servers)
    case Orphaned =>
      d.key in listed && Abandoned(d.secret, clusters) && ClaimedByListings(placements, listings, {d.key})
  }

  /**
   A secret left without its label is never found again: over any number of passes in which no call fails it stays,
   unless a new secret takes its name.
   */
  lemma {:induction false} StrandedStays(start: Secrets, k: Key, passes: seq<Placements>, servers: seq<string>,
                                         clusters: set<string>)
    requires k in start && !start[k].typed && NeverBuilt(k, passes)
    ensures var end := AfterPasses(start, passes, servers, clusters);
            k in end && end[k] == start[k]
  {
    if passes != [] {
      var n := |passes| - 1;
      assert forall i :: 0 <= i < n ==> passes[..n][i] == passes[i];
      StrandedStays(start, k, passes[..n], servers, clusters);
      assert NotBuilt(k, passes[n]);
      UnclaimedAreListed(Listed(AfterPasses(start, passes[..n], servers, clusters)), passes[n]);
      StrandedThroughAll(AfterPasses(start, passes[..n], servers, clusters), k, passes[n], servers);
    }
  }

  lemma {:induction false} UnclaimedAreListed(orphans: set<Key>, placements: Placements)
    ensures UnclaimedByAll(orphans, placements) <= orphans
  {
    if placements != [] {
      var n := |placements| - 1;
      UnclaimedAreListed(orphans, placements[..n]);
      UnclaimedAreOrphans(UnclaimedByAll(orphans, placements[..n]), placements[n].0, placements[n].1);
    }
  }

  lemma {:induction false} UnclaimedAreOrphans(orphans: set<Key>, namespace: string, placed: seq<Placed>)
    ensures Unclaimed(orphans, namespace, placed) <= orphans
  {
    if placed != [] {
      UnclaimedAreOrphans(orphans, namespace, placed[..|placed| - 1]);
    }
  }

  lemma {:induction false} StrandedThroughAll(start: Secrets, k: Key, placements: Placements, servers: seq<string>)
    requires k in start && !start[k].typed && NotBuilt(k, placements)
    ensures var end := AfterAddingAll(start, placements, servers);
            k in end && end[k] == start[k]
  {
    if placements != [] {
      var n := |placements| - 1;
      assert forall i :: 0 <= i < n ==> placements[..n][i] == placements[i];
      StrandedThroughAll(start, k, placements[..n], servers);
      StrandedThroughAdding(AfterAddingAll(start, placements[..n], servers), k, placements[n].0, placements[n].1,
                            servers);
    }
  }

  lemma {:induction false} StrandedThroughAdding(start: Secrets, k: Key, namespace: string, placed: seq<Placed>,
                                                 servers: seq<string>)
    requires k in start && !start[k].typed && forall i :: 0 <= i < |placed| && placed[i].build.Built? ==>
               k != Key(namespace, placed[i].build.name)
    ensures var end := AfterAdding(start, namespace, placed, servers);
            k in end && end[k] == start[k]
  {
    if placed != [] {
      var n := |placed| - 1;
      assert forall i :: 0 <= i < n ==> placed[..n][i] == placed[i];
      StrandedThroughAdding(start, k, namespace, placed[..n], servers);
      assert placed[n].build.Built? ==> k != Key(namespace, placed[n].build.name);
    }
  }

  datatype Outcome = Fine | Missing | Failed

  function OutcomeOf(r: Response, present: bool): Outcome {
    if r == Refused then Failed else if r == Done && present then Fine else Missing
  }

  /** From the secret without its label, in which states it can be next. */
  lemma Halves(before: Secrets, k: Key, middle: Secrets, now: Secrets)
    requires k in before && before[k].typed
    requires var bare := before[k := Delabelled(before[k])];
             && (middle == bare || middle == bare - {k})
             && (now == middle || now == middle - {k} || (middle == bare && now == bare[k := before[k]]))
    ensures StepOf(before, k, middle) && StepOf(before, k, now)
  {
    var bare := before[k := Delabelled(before[k])];
    assert bare - {k} == before - {k} && bare - {k} - {k} == before - {k};
    assert bare[k := before[k]] == before;
  }

  lemma SafeStep(start: Secrets, before: Secrets, now: Secrets, job: Job, goneBefore: set<Key>, gone: set<Key>, k: Key)
    requires Safe(start, before, job, goneBefore) && StepOf(before, k, now) && goneBefore <= gone
    requires Replaceable(start, k, job) && (k in before ==> before[k] == start[k])
    ensures Safe(start, now, job, gone)
  {
  }

  lemma SafeTrace(start: Secrets, before: Secrets, a: seq<Secrets>, b: seq<Secrets>, from: nat, job: Job,
                  goneBefore: set<Key>, gone: set<Key>, k: Key)
    requires from <= |a| && a <= b && goneBefore <= gone && Safe(start, before, job, goneBefore)
    requires Replaceable(start, k, job) && (k in before ==> before[k] == start[k])
    requires forall s :: s in a[from..] ==> Safe(start, s, job, goneBefore)
    requires forall s :: s in b[|a|..] ==> StepOf(before, k, s)
    ensures forall s :: s in b[from..] ==> Safe(start, s, job, gone)
  {
    forall s | s in b[from..] ensures Safe(start, s, job, gone) {
      TwoParts(b, from, |a|);
      assert b[..|a|] == a;
      if s in b[|a|..] {
        SafeStep(start, before, s, job, goneBefore, gone, k);
      }
    }
  }

  lemma ProperLog(start: Secrets, a: seq<Deletion>, b: seq<Deletion>, from: nat, job: Job)
    requires from <= |a| && (b == a || (|b| == |a| + 1 && b[..|a|] == a && ProperlyReplaced(start, b[|a|], job)))
    requires forall d :: d in a[from..] ==> ProperlyReplaced(start, d, job)
    ensures forall d :: d in b[from..] ==> ProperlyReplaced(start, d, job)
  {
    if |b| == |a| + 1 {
      assert b[from..] == a[from..] + [b[|a|]];
    }
  }

  lemma OneMore<T>(a: seq<T>, b: seq<T>, i: nat, x: T)
    requires i <= |a| && b == a + [x]
    ensures forall y :: y in b[i..] <==> y in a[i..] || y == x
  {
    assert b[i..] == a[i..] + [x];
  }

  lemma TwoParts<T>(s: seq<T>, i: nat, j: nat)
    requires i <= j <= |s|
    ensures forall x :: x in s[i..] ==> x in s[..j][i..] || x in s[j..]
  {
    assert s[i..] == s[..j][i..] + s[j..];
  }

  /** One secret is gone, delabelled or as it was, all others are as they were. */
  ghost predicate StepOf(before: Secrets, k: Key, now: Secrets) {
    now == before || now == before - {k} || (k in before && now == before[k := Delabelled(before[k])])
  }

  /** Deleted without its label, by right. */
  ghost predicate ProperlyReplaced(start: Secrets, d: Deletion, job: Job) {
    d.reason == Replaced && Replaceable(start, d.key, job) && d.secret == Delabelled(start[d.key])
  }
}
