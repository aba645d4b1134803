/**
 The image registry controller over all the AddOnDeploymentConfigs of a hub: resolving a placed
 cluster to its config, applying, reverting, and the finalizer that ties the two together.
 */
module MirrorHub {
  import opened Options
  import opened ImageMirroring

  const IMAGE_REGISTRY_FINALIZER := "imageregistry.open-cluster-management.io/gitops-addon-cleanup"
  const CONFIG_GROUP := "addon.open-cluster-management.io"
  const CONFIG_RESOURCE := "addondeploymentconfigs"

  datatype Key = Key(namespace: string, name: string)

  /** An entry of the spec.configs of a cluster's gitops-addon ManagedClusterAddOn. */
  datatype ConfigRef = ConfigRef(group: string, resource: string, namespace: string, name: string)

  /** The API calls that fail during one reconcile. */
  datatype Faults = Faults(addonGets: set<string>, configGets: set<Key>, configUpdates: set<Key>, configList: bool,
                           instanceUpdate: bool)

  datatype Found = Found(key: Key) | NotFound | Failed

  /** The first config reference of the right kind, defaulting its namespace to the cluster's. */
  function FirstReference(refs: seq<ConfigRef>, cluster: string): Option<Key> {
    if refs == [] then None
    else if refs[0].group == CONFIG_GROUP && refs[0].resource == CONFIG_RESOURCE
    then Some(Key(if refs[0].namespace == "" then cluster else refs[0].namespace, refs[0].name))
    else FirstReference(refs[1..], cluster)
  }

  function Find(addons: map<string, seq<ConfigRef>>, configs: map<Key, Config>, cluster: string,
                faults: Faults): Found {
    if cluster in faults.addonGets then Failed
    else if cluster !in addons then NotFound
    else match FirstReference(addons[cluster], cluster)
      case None => NotFound
      case Some(key) =>
        if key in faults.configGets then Failed else if key in configs then Found(key) else NotFound
  }

  predicate StampedBy(c: Config, owner: string) {
    c.managedBy == Some(owner)
  }

  // ---------------------------------------------------------------------------------------------
  // Reverting: what one pass leaves behind
  // ---------------------------------------------------------------------------------------------

  /** Some placed cluster's addon leads to this config. */
  predicate Referenced(addons: map<string, seq<ConfigRef>>, configs: map<Key, Config>, clusters: seq<string>,
                       faults: Faults, key: Key) {
    exists i :: 0 <= i < |clusters| && Find(addons, configs, clusters[i], faults) == Found(key)
  }

  /** The cluster-wide scan skips the namespaces of placed clusters. */
  predicate Scanned(clusters: seq<string>, faults: Faults, key: Key) {
    !faults.configList && key.namespace !in clusters
  }

  predicate Reverts(addons: map<string, seq<ConfigRef>>, configs: map<Key, Config>, clusters: seq<string>,
                    faults: Faults,
                    owner: string, key: Key)
    requires key in configs
  {
    && StampedBy(configs[key], owner) && key !in faults.configUpdates
    && (Referenced(addons, configs, clusters, faults, key) || Scanned(clusters, faults, key))
  }

  function Reverted(addons: map<string, seq<ConfigRef>>, configs: map<Key, Config>, clusters: seq<string>,
                    faults: Faults,
                    owner: string): map<Key, Config>
  {
    map key | key in configs ::
      if Reverts(addons, configs, clusters, faults, owner, key) then After(configs[key], Revert(configs[key]))
          else configs[key]
  }

  /** No call that the revert depends on fails. */
  ghost predicate ErrorFree(addons: map<string, seq<ConfigRef>>, configs: map<Key, Config>, clusters: seq<string>,
                            faults: Faults,
                            owner: string)
  {
    && !faults.configList
    && (forall i :: 0 <= i < |clusters| ==> !Find(addons, configs, clusters[i], faults).Failed?)
    && forall key :: key in configs && StampedBy(configs[key], owner) && key in faults.configUpdates
                     ==> !Referenced(addons, configs, clusters, faults, key) && !Scanned(clusters, faults, key)
  }

  /**
   After an error-free revert a config still carries the owner's stamp exactly when it did before, lies in
   the namespace of a placed cluster, and is not the config any placed cluster's addon leads to. Every
   config that did not carry the stamp is untouched.
   */
  lemma RevertCoverage(addons: map<string, seq<ConfigRef>>, configs: map<Key, Config>, clusters: seq<string>,
                       faults: Faults,
                       owner: string)
    requires ErrorFree(addons, configs, clusters, faults, owner)
    ensures var end := Reverted(addons, configs, clusters, faults, owner);
            && end.Keys == configs.Keys
            && (forall key :: key in configs ==>
                                (StampedBy(end[key], owner) <==>
                                 && StampedBy(configs[key], owner) && key.namespace in clusters
                                 && !Referenced(addons, configs, clusters, faults, key)))
            && (forall key :: key in configs && !StampedBy(configs[key], owner) ==> end[key] == configs[key])
  {
  }

  /**
   The documented use: each stamped config in a placed cluster's namespace is the one that cluster's addon references.
   */
  lemma RevertLeavesNoStamp(addons: map<string, seq<ConfigRef>>, configs: map<Key, Config>, clusters: seq<string>,
                            faults: Faults,
                            owner: string)
    requires ErrorFree(addons, configs, clusters, faults, owner)
    requires forall key :: key in configs && StampedBy(configs[key], owner) && key.namespace in clusters
                           ==> Find(addons, configs, key.namespace, faults) == Found(key)
    ensures var end := Reverted(addons, configs, clusters, faults, owner);
            forall key :: key in end ==> !StampedBy(end[key], owner)
  {
    RevertCoverage(addons, configs, clusters, faults, owner);
    forall key | key in configs && StampedBy(configs[key], owner) && key.namespace in clusters
      ensures Referenced(addons, configs, clusters, faults, key)
    {
      var i :| 0 <= i < |clusters| && clusters[i] == key.namespace;
      assert Find(addons, configs, clusters[i], faults) == Found(key);
    }
  }

  /** A placed cluster whose addon was pointed elsewhere after mirroring keeps its stamped config, without any error. */
  lemma RepointedAddonKeepsItsStamp()
    ensures var key := Key("c1", "gitops-addon-config");
            var addons := map["c1" := [ConfigRef(CONFIG_GROUP, CONFIG_RESOURCE, "shared", "custom")]];
            var stamped := Config([Variable("image", "m/x")], Some("ns/r"), Encoded(map["image" := "a/x"], true),
                                  Encoded(map["image" := "m/x"], true), "");
            var configs := map[key := stamped, Key("shared", "custom") := Config([], None, Missing, Missing, "")];
            var faults := Faults({}, {}, {}, false, false);
            && ErrorFree(addons, configs, ["c1"], faults, "ns/r")
            && Reverted(addons, configs, ["c1"], faults, "ns/r")[key] == stamped
  {
    var key := Key("c1", "gitops-addon-config");
    var addons := map["c1" := [ConfigRef(CONFIG_GROUP, CONFIG_RESOURCE, "shared", "custom")]];
    var configs := map[key := Config([Variable("image", "m/x")], Some("ns/r"), Encoded(map["image" := "a/x"], true),
                                     Encoded(map["image" := "m/x"], true), ""),
                       Key("shared", "custom") := Config([], None, Missing, Missing, "")];
    var faults := Faults({}, {}, {}, false, false);
    assert "shared" != "" && "shared" != "c1";
    assert Find(addons, configs, "c1", faults) == Found(Key("shared", "custom"));
    assert key.namespace in ["c1"];
    assert !Referenced(addons, configs, ["c1"], faults, key);
  }

  // ---------------------------------------------------------------------------------------------
  // Applying
  // ---------------------------------------------------------------------------------------------

  function ApplyOne(addons: map<string, seq<ConfigRef>>, configs: map<Key, Config>, cluster: string, faults: Faults,
                    owner: string, spec: RegistrySpec): map<Key, Config>
  {
    match Find(addons, configs, cluster, faults)
    case Found(key) =>
      if key in faults.configUpdates then configs
          else configs[key := After(configs[key], Apply(configs[key], owner, spec))]
    case _ => configs
  }

  /**
   The apply to one cluster meets no failed call and no foreign owner; a cluster without the addon or its config is
   fine.
   */
  predicate AppliesTo(addons: map<string, seq<ConfigRef>>, configs: map<Key, Config>, cluster: string, faults: Faults,
                      owner: string, spec: RegistrySpec)
  {
    match Find(addons, configs, cluster, faults)
    case Found(key) =>
      var d := Apply(configs[key], owner, spec);
      d.UpToDate? || (d.Write? && key !in faults.configUpdates)
    case NotFound => true
    case Failed => false
  }

  /** The applies to all clusters succeed, each on what the ones before have left. */
  predicate AppliesToAll(addons: map<string, seq<ConfigRef>>, configs: map<Key, Config>, clusters: seq<string>,
                         faults: Faults,
                         owner: string, spec: RegistrySpec)
  {
    clusters == []
    || (var n := |clusters| - 1;
        && AppliesToAll(addons, configs, clusters[..n], faults, owner, spec)
        && AppliesTo(addons, ApplyAll(addons, configs, clusters[..n], faults, owner, spec), clusters[n], faults, owner,
                     spec))
  }

  function ApplyAll(addons: map<string, seq<ConfigRef>>, configs: map<Key, Config>, clusters: seq<string>,
                    faults: Faults,
                    owner: string, spec: RegistrySpec): map<Key, Config>
  {
    if clusters == [] then configs
    else
      var n := |clusters| - 1;
      ApplyOne(addons, ApplyAll(addons, configs, clusters[..n], faults, owner, spec), clusters[n], faults, owner, spec)
  }

  /** Applying never touches a config stamped by another registry, and stamps nothing but with its own name. */
  lemma {:induction false} ApplyRespectsOwners(addons: map<string, seq<ConfigRef>>, configs: map<Key, Config>,
                                               clusters: seq<string>,
                                               faults: Faults, owner: string, spec: RegistrySpec, key: Key)
    requires key in configs
    ensures var end := ApplyAll(addons, configs, clusters, faults, owner, spec);
            && key in end
            && (configs[key].managedBy.Some? && !StampedBy(configs[key], owner) ==> end[key] == configs[key])
            && (end[key].managedBy != configs[key].managedBy ==> end[key].managedBy.None? || StampedBy(end[key], owner))
            && (end[key] != configs[key] ==> key !in faults.configUpdates)
  {
    if clusters != [] {
      ApplyRespectsOwners(addons, configs, clusters[..|clusters| - 1], faults, owner, spec, key);
    }
  }

  // ---------------------------------------------------------------------------------------------
  // The controller
  // ---------------------------------------------------------------------------------------------

  /** The stored objects. */
  class Hub {
    var addons: map<string, seq<ConfigRef>>
    var configs: map<Key, Config>

    method FindGitOpsAddonDeploymentConfig(cluster: string, faults: Faults) returns (found: Found)
      ensures found == Find(addons, configs, cluster, faults)
    {
      if cluster in faults.addonGets {
        return Failed;
      }
      if cluster !in addons {
        return NotFound;
      }
      var refs := addons[cluster];
      for i := 0 to |refs|
        invariant FirstReference(refs, cluster) == FirstReference(refs[i..], cluster)
      {
        assert refs[i..][1..] == refs[i + 1..];
        if refs[i].group == CONFIG_GROUP && refs[i].resource == CONFIG_RESOURCE {
          var key := Key(if refs[i].namespace == "" then cluster else refs[i].namespace, refs[i].name);
          if key in faults.configGets {
            return Failed;
          }
          return if key in configs then Found(key) else NotFound;
        }
      }
      return NotFound;
    }

    method UpdateConfig(key: Key, adc: AddOnDeploymentConfig, faults: Faults) returns (ok: bool)
      requires key in configs
      modifies this`configs
      ensures ok <==> key !in faults.configUpdates
      ensures configs == if ok then old(configs)[key := adc.State()] else old(configs)
    {
      ok := key !in faults.configUpdates;
      if ok {
        configs := configs[key := adc.State()];
      }
    }

    method ApplyImageMirroring(cluster: string, ownerKey: string, spec: RegistrySpec, faults: Faults) returns (ok: bool)
      modifies this`configs
      ensures configs == ApplyOne(addons, old(configs), cluster, faults, ownerKey, spec)
      ensures ok <==> AppliesTo(addons, old(configs), cluster, faults, ownerKey, spec)
    {
      var found := FindGitOpsAddonDeploymentConfig(cluster, faults);
      if !found.Found? {
        return found.NotFound?;
      }
      var adc := new AddOnDeploymentConfig(configs[found.key]);
      var update, refused := adc.ApplyImageMirroring(ownerKey, spec.registries, spec.registry);
      ok := !refused;
      if update {
        ok := UpdateConfig(found.key, adc, faults);
      } else {
        assert configs[found.key := configs[found.key]] == configs;
      }
    }

    /** Reverts one fetched config that carries the stamp. */
    method RevertStored(key: Key, faults: Faults) returns (ok: bool)
      requires key in configs && configs[key].managedBy.Some?
      modifies this`configs
      ensures ok <==> key !in faults.configUpdates
      ensures configs == if ok then old(configs)[key := After(old(configs)[key], Revert(old(configs)[key]))]
              else old(configs)
    {
      var adc := new AddOnDeploymentConfig(configs[key]);
      var update := adc.RevertAddOnDeploymentConfig();
      ok := UpdateConfig(key, adc, faults);
    }

    /** `order` is the order in which the cluster-wide list returns the configs. */
    method RevertImageMirroring(ownerKey: string, clusters: seq<string>, order: seq<Key>, faults: Faults)
      returns (ok: bool)
      requires forall key :: key in order <==> key in configs
      modifies this`configs
      ensures configs == Reverted(addons, old(configs), clusters, faults, ownerKey)
      ensures ok <==> ErrorFree(addons, old(configs), clusters, faults, ownerKey)
    {
      ghost var before := configs;
      ok := RevertPlaced(ownerKey, clusters, faults);
      if faults.configList {
        return false;
      }
      var scanned := RevertScanned(ownerKey, clusters, order, faults);
      return ok && scanned;
    }

    /** The cluster-wide scan for stamped configs outside the namespaces of the placed clusters. */
    method RevertScanned(ownerKey: string, clusters: seq<string>, order: seq<Key>, faults: Faults) returns (ok: bool)
      requires forall key :: key in order <==> key in configs
      modifies this`configs
      ensures configs.Keys == old(configs).Keys
      ensures forall key :: key in configs ==>
                              && configs[key] == if key.namespace !in clusters && StampedBy(old(configs)[key], ownerKey)
                              && key !in faults.configUpdates
                                              then After(old(configs)[key], Revert(old(configs)[key]))
                                                  else old(configs)[key]
      ensures ok <==>
                forall key |
                  key in old(configs) && key.namespace !in clusters && StampedBy(old(configs)[key], ownerKey) ::
                  key !in faults.configUpdates
    {
      ok := true;
      ghost var before := configs;
      for i := 0 to |order|
        invariant configs.Keys == before.Keys
        invariant forall key :: key in configs ==>
                                  && configs[key] == if key in order[..i] && key.namespace !in clusters
                                  && StampedBy(before[key], ownerKey)
                                                     && key !in faults.configUpdates
                                                  then After(before[key], Revert(before[key])) else before[key]
        invariant ok <==>
                    forall key | key in order[..i] && key.namespace !in clusters && StampedBy(before[key], ownerKey) ::
                      key !in faults.configUpdates
      {
        var key := order[i];
        assert order[..i + 1] == order[..i] + [key];
        if key.namespace !in clusters && StampedBy(configs[key], ownerKey) {
          var reverted := RevertStored(key, faults);
          ok := ok && reverted;
        }
      }
      assert order[..|order|] == order;
    }

    /** The fast path: the clusters the placement currently selects. */
    method RevertPlaced(ownerKey: string, clusters: seq<string>, faults: Faults) returns (ok: bool)
      modifies this`configs
      ensures configs.Keys == old(configs).Keys
      ensures forall key :: key in configs ==>
                              configs[key] == if StampedBy(old(configs)[key], ownerKey) && key !in faults.configUpdates
                                                 && Referenced(addons, old(configs), clusters, faults, key)
                                              then After(old(configs)[key], Revert(old(configs)[key]))
                                                  else old(configs)[key]
      ensures ok <==> RevertsPlaced(addons, old(configs), clusters, faults, ownerKey)
    {
      ok := true;
      ghost var before := configs;
      for i := 0 to |clusters|
        invariant configs.Keys == before.Keys
        invariant forall key :: key in configs ==>
                                  configs[key] == if StampedBy(before[key], ownerKey) && key !in faults.configUpdates
                                                     && Referenced(addons, before, clusters[..i], faults, key)
                                                  then After(before[key], Revert(before[key])) else before[key]
        invariant ok <==> RevertsPlaced(addons, before, clusters[..i], faults, ownerKey)
      {
        var found := FindGitOpsAddonDeploymentConfig(clusters[i], faults);
        assert found == Find(addons, before, clusters[i], faults);
        ReferencedStep(addons, before, clusters, faults, i);
        RevertsPlacedStep(addons, before, clusters, faults, ownerKey, i);
        if found.Failed? {
          ok := false;
        } else if found.Found? && StampedBy(configs[found.key], ownerKey) {
          var reverted := RevertStored(found.key, faults);
          ok := ok && reverted;
        }
      }
      assert clusters[..|clusters|] == clusters;
    }
  }

  /** No call of the fast path fails. */
  ghost predicate RevertsPlaced(addons: map<string, seq<ConfigRef>>, configs: map<Key, Config>, clusters: seq<string>,
                                faults: Faults,
                                owner: string)
  {
    && (forall i :: 0 <= i < |clusters| ==> !Find(addons, configs, clusters[i], faults).Failed?)
    && forall key :: key in configs && StampedBy(configs[key], owner) && key in faults.configUpdates
                     ==> !Referenced(addons, configs, clusters, faults, key)
  }

  lemma RevertsPlacedStep(addons: map<string, seq<ConfigRef>>, configs: map<Key, Config>, clusters: seq<string>,
                          faults: Faults,
                          owner: string, i: nat)
    requires i < |clusters|
    ensures RevertsPlaced(addons, configs, clusters[..i + 1], faults, owner) <==>
              && RevertsPlaced(addons, configs, clusters[..i], faults, owner)
              && var found := Find(addons, configs, clusters[i], faults);
                 !found.Failed? && (found.Found? && found.key in configs && StampedBy(configs[found.key], owner) ==>
                       found.key !in faults.configUpdates)
  {
    ReferencedStep(addons, configs, clusters, faults, i);
    assert forall j :: 0 <= j < i ==> clusters[..i + 1][j] == clusters[..i][j];
  }

  lemma ReferencedStep(addons: map<string, seq<ConfigRef>>, configs: map<Key, Config>, clusters: seq<string>,
                       faults: Faults, i: nat)
    requires i < |clusters|
    ensures forall key :: Referenced(addons, configs, clusters[..i + 1], faults, key)
                     <==>
                       || Referenced(addons, configs, clusters[..i], faults, key)
                       || Find(addons, configs, clusters[i], faults) == Found(key)
  {
    forall key | Referenced(addons, configs, clusters[..i], faults, key)
      ensures Referenced(addons, configs, clusters[..i + 1], faults, key)
    {
      var j :| 0 <= j < i && Find(addons, configs, clusters[..i][j], faults) == Found(key);
      assert clusters[..i + 1][j] == clusters[..i][j];
    }
    forall key | Find(addons, configs, clusters[i], faults) == Found(key)
      ensures Referenced(addons, configs, clusters[..i + 1], faults, key)
    {
      assert clusters[..i + 1][i] == clusters[i];
    }
  }

  /** A registry that has opted in to gitops-addon image mirroring, or once had. */
  class ManagedClusterImageRegistry {
    const ownerKey: string
    var spec: RegistrySpec
    var wantsMirroring: bool
    var deleting: bool
    var finalizers: seq<string>

    constructor (ownerKey: string, spec: RegistrySpec)
      ensures this.ownerKey == ownerKey && this.spec == spec && finalizers == [] && !wantsMirroring && !deleting
    {
      this.ownerKey, this.spec := ownerKey, spec;
      finalizers, wantsMirroring, deleting := [], false, false;
    }

    predicate Finalizing()
      reads this
    {
      IMAGE_REGISTRY_FINALIZER in finalizers
    }

    /** `placed` is None when the placement cannot be resolved. */
    method ReconcileDelete(hub: Hub, placed: Option<seq<string>>, order: seq<Key>, faults: Faults) returns (ok: bool)
      requires forall key :: key in order <==> key in hub.configs
      modifies hub`configs, this`finalizers
      ensures hub.configs == if old(Finalizing())
              then Reverted(hub.addons, old(hub.configs), placed.GetOr([]), faults, ownerKey)
                             else old(hub.configs)
      ensures Finalizing() <==> old(Finalizing())
                                && !(ErrorFree(hub.addons, old(hub.configs), placed.GetOr([]), faults, ownerKey)
                                     && !faults.instanceUpdate)
      ensures forall f :: f != IMAGE_REGISTRY_FINALIZER ==> (f in finalizers <==> f in old(finalizers))
      ensures ok <==> !Finalizing()
    {
      if IMAGE_REGISTRY_FINALIZER !in finalizers {
        return true;
      }
      ok := hub.RevertImageMirroring(ownerKey, placed.GetOr([]), order, faults);
      if !ok {
        return false;
      }
      var kept := RemoveString(finalizers, IMAGE_REGISTRY_FINALIZER);
      if faults.instanceUpdate {
        return false;
      }
      finalizers := kept;
    }

    /**
     Configs are only ever written while the finalizer is in place, and the finalizer goes only in the pass
     whose revert met no error.
     */
    method Reconcile(hub: Hub, placed: Option<seq<string>>, order: seq<Key>, faults: Faults) returns (ok: bool)
      requires forall key :: key in order <==> key in hub.configs
      modifies hub`configs, this`finalizers
      ensures hub.configs != old(hub.configs) ==> old(Finalizing())
      ensures old(Finalizing()) && !Finalizing() ==>
                && (deleting || !wantsMirroring)
                && ErrorFree(hub.addons, old(hub.configs), placed.GetOr([]), faults, ownerKey)
                && hub.configs == Reverted(hub.addons, old(hub.configs), placed.GetOr([]), faults, ownerKey)
      ensures old(Finalizing()) && (deleting || !wantsMirroring) ==>
                hub.configs == Reverted(hub.addons, old(hub.configs), placed.GetOr([]), faults, ownerKey)
      ensures !deleting && wantsMirroring ==> (Finalizing() <==> old(Finalizing()) || !faults.instanceUpdate)
      ensures !deleting && wantsMirroring && old(Finalizing()) ==>
                hub.configs == ApplyAll(hub.addons, old(hub.configs), placed.GetOr([]), faults, ownerKey, spec)
      ensures deleting || !wantsMirroring ==> (ok <==> !Finalizing())
      ensures !deleting && wantsMirroring && !old(Finalizing()) ==> (ok <==> !faults.instanceUpdate)
      ensures !deleting && wantsMirroring && old(Finalizing()) ==>
                (ok <==>
                   && placed.Some?
                   && AppliesToAll(hub.addons, old(hub.configs), placed.value, faults, ownerKey, spec))
    {
      if deleting {
        ok := ReconcileDelete(hub, placed, order, faults);
        return;
      }
      if !wantsMirroring {
        if IMAGE_REGISTRY_FINALIZER in finalizers {
          ok := ReconcileDelete(hub, placed, order, faults);
          return;
        }
        return true;
      }
      if IMAGE_REGISTRY_FINALIZER !in finalizers {
        // The update raises a new event; the work happens in the next pass.
        if faults.instanceUpdate {
          return false;
        }
        finalizers := finalizers + [IMAGE_REGISTRY_FINALIZER];
        return true;
      }
      if placed.None? {
        return false;
      }
      ok := true;
      var clusters := placed.value;
      ghost var before := hub.configs;
      for i := 0 to |clusters|
        invariant hub.configs == ApplyAll(hub.addons, before, clusters[..i], faults, ownerKey, spec)
        invariant finalizers == old(finalizers)
        invariant ok <==> AppliesToAll(hub.addons, before, clusters[..i], faults, ownerKey, spec)
      {
        assert clusters[..i + 1][..i] == clusters[..i];
        var applied := hub.ApplyImageMirroring(clusters[i], ownerKey, spec, faults);
        ok := ok && applied;
      }
      assert clusters[..|clusters|] == clusters;
    }
  }

  method RemoveString(list: seq<string>, s: string) returns (result: seq<string>)
    ensures forall item :: item in result <==> item in list && item != s
  {
    result := [];
    for i := 0 to |list|
      invariant forall item :: item in result <==> item in list[..i] && item != s
    {
      if list[i] != s {
        result := result + [list[i]];
      }
    }
  }
}
