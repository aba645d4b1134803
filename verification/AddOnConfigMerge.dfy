/**
 The GitOpsCluster controller's side of an AddOnDeploymentConfig: merging the managed variables into
 the existing ones, keeping live mirrored values, and deciding whether to write at all.
 */
module AddOnConfigMerge {
  import opened Options
  import opened ImageMirroring

  const ADDON_AGENT_NAMESPACE := "open-cluster-management-agent-addon"

  /** The variables as a map; on a repeated name the last entry wins. */
  function Lookup(vars: seq<Variable>): map<string, string> {
    if vars == [] then map[]
    else Lookup(vars[..|vars| - 1])[vars[|vars| - 1].name := vars[|vars| - 1].value]
  }

  /** No name occurs twice. */
  predicate Unique(vars: seq<Variable>) {
    vars == [] || (Unique(vars[..|vars| - 1]) && vars[|vars| - 1].name !in Lookup(vars[..|vars| - 1]))
  }

  predicate Distinct(names: seq<string>) {
    names == [] || (Distinct(names[..|names| - 1]) && names[|names| - 1] !in names[..|names| - 1])
  }

  /** `order` is one of the orders in which a loop may visit the keys of a map. */
  ghost predicate Lists(order: seq<string>, keys: set<string>) {
    && Distinct(order)
    && (forall n :: n in order <==> n in keys)
  }

  // ---------------------------------------------------------------------------------------------
  // Merging
  // ---------------------------------------------------------------------------------------------

  /** The variables the GitOpsCluster does not manage. */
  function Kept(existing: seq<Variable>, managed: map<string, string>): seq<Variable> {
    if existing == [] then []
    else
      var n := |existing| - 1;
      var front := Kept(existing[..n], managed);
      if existing[n].name in managed then front else front + [existing[n]]
  }

  /** The managed variables in the given order, leaving out the names in `skip`. */
  function Entries(order: seq<string>, managed: map<string, string>, skip: set<string>): seq<Variable>
    requires forall n :: n in order ==> n in managed
  {
    if order == [] then []
    else
      var n := |order| - 1;
      var front := Entries(order[..n], managed, skip);
      if order[n] in skip then front else front + [Variable(order[n], managed[order[n]])]
  }

  function Merged(existing: seq<Variable>, managed: map<string, string>, override: bool,
                  order: seq<string>): seq<Variable>
    requires forall n :: n in order ==> n in managed
  {
    if override then Kept(existing, managed) + Entries(order, managed, {})
    else RestoredAll(existing, managed) + Entries(order, managed, Lookup(existing).Keys)
  }

  method IndexByName(vars: seq<Variable>) returns (index: map<string, string>)
    ensures index == Lookup(vars)
  {
    index := map[];
    for i := 0 to |vars|
      invariant index == Lookup(vars[..i])
    {
      assert vars[..i + 1][..i] == vars[..i];
      index := index[vars[i].name := vars[i].value];
    }
    assert vars[..|vars|] == vars;
  }

  method AppendManaged(prefix: seq<Variable>, managed: map<string, string>, order: seq<string>,
                       skip: map<string, string>)
    returns (updated: seq<Variable>)
    requires forall n :: n in order ==> n in managed
    ensures updated == prefix + Entries(order, managed, skip.Keys)
  {
    updated := prefix;
    for i := 0 to |order|
      invariant updated == prefix + Entries(order[..i], managed, skip.Keys)
    {
      assert order[..i + 1][..i] == order[..i];
      if order[i] !in skip {
        updated := updated + [Variable(order[i], managed[order[i]])];
      }
    }
    assert order[..|order|] == order;
  }

  method MergeVariables(existing: seq<Variable>, managed: map<string, string>, override: bool, order: seq<string>)
    returns (updated: seq<Variable>)
    requires forall n :: n in order ==> n in managed
    ensures updated == Merged(existing, managed, override, order)
  {
    updated := [];
    if override {
      for i := 0 to |existing|
        invariant updated == Kept(existing[..i], managed)
      {
        assert existing[..i + 1][..i] == existing[..i];
        if existing[i].name !in managed {
          updated := updated + [existing[i]];
        }
      }
      assert existing[..|existing|] == existing;
      var none: map<string, string> := map[];
      updated := AppendManaged(updated, managed, order, none);
      assert none.Keys == {};
    } else {
      for i := 0 to |existing|
        invariant updated == RestoredAll(existing, managed)[..i]
      {
        if existing[i].name in managed {
          updated := updated + [Variable(existing[i].name, managed[existing[i].name])];
        } else {
          updated := updated + [existing[i]];
        }
      }
      var existingVars := IndexByName(existing);
      updated := AppendManaged(updated, managed, order, existingVars);
    }
  }

  // ---------------------------------------------------------------------------------------------
  // Keeping mirrored values, and comparing
  // ---------------------------------------------------------------------------------------------

  function Preserved(v: Variable, live: map<string, string>, originals: map<string, string>): Variable {
    if v.name in originals && originals[v.name] == v.value && v.name in live then Variable(v.name, live[v.name]) else v
  }

  function PreservedAll(desired: seq<Variable>, live: map<string, string>,
                        originals: map<string, string>): seq<Variable> {
    seq(|desired|, i requires 0 <= i < |desired| => Preserved(desired[i], live, originals))
  }

  method PreserveMirroredImageValues(desired: seq<Variable>, existing: seq<Variable>, originalValues: Note)
    returns (out: seq<Variable>)
    ensures out == PreservedAll(desired, Lookup(existing), Parse(originalValues))
  {
    var origMap := Parse(originalValues);
    if |origMap| == 0 {
      return desired;
    }
    var existingByName := IndexByName(existing);
    out := [];
    for i := 0 to |desired|
      invariant out == PreservedAll(desired, existingByName, origMap)[..i]
    {
      var v := desired[i];
      if v.name in origMap && origMap[v.name] == v.value && v.name in existingByName {
        out := out + [Variable(v.name, existingByName[v.name])];
      } else {
        out := out + [v];
      }
    }
  }

  predicate EqualVars(a: seq<Variable>, b: seq<Variable>) {
    |a| == |b| && forall v :: v in b ==> v.name in Lookup(a) && Lookup(a)[v.name] == v.value
  }

  method CustomizedVariablesEqual(a: seq<Variable>, b: seq<Variable>) returns (equal: bool)
    ensures equal <==> EqualVars(a, b)
  {
    if |a| != |b| {
      return false;
    }
    var ma := IndexByName(a);
    for i := 0 to |b|
      invariant forall v :: v in b[..i] ==> v.name in ma && ma[v.name] == v.value
    {
      if b[i].name !in ma || ma[b[i].name] != b[i].value {
        assert b[i] in b;
        return false;
      }
    }
    return true;
  }

  // ---------------------------------------------------------------------------------------------
  // The whole step
  // ---------------------------------------------------------------------------------------------

  function Desired(c: Config, managed: map<string, string>, override: bool, order: seq<string>): seq<Variable>
    requires forall n :: n in order ==> n in managed
  {
    PreservedAll(Merged(c.vars, managed, override, order), Lookup(c.vars), Parse(c.originals))
  }

  /** The decision for an existing config, or for none. */
  function Create(stored: Option<Config>, managed: map<string, string>, override: bool, order: seq<string>): Decision
    requires forall n :: n in order ==> n in managed
  {
    match stored
    case None =>
      Write(Config(Entries(order, managed, {}), None, Missing, Missing, ADDON_AGENT_NAMESPACE))
    case Some(c) =>
      var vars := Desired(c, managed, override, order);
      if EqualVars(vars, c.vars) && c.installNamespace == ADDON_AGENT_NAMESPACE then UpToDate
      else Write(c.(vars := vars, installNamespace := ADDON_AGENT_NAMESPACE))
  }

  method CreateAddOnDeploymentConfig(stored: Option<Config>, managed: map<string, string>, override: bool,
                                     order: seq<string>)
    returns (d: Decision)
    requires forall n :: n in order ==> n in managed
    ensures d == Create(stored, managed, override, order)
  {
    if stored.None? {
      var none: map<string, string> := map[];
      var vars := AppendManaged([], managed, order, none);
      assert none.Keys == {};
      assert [] + Entries(order, managed, {}) == Entries(order, managed, {});
      return Write(Config(vars, None, Missing, Missing, ADDON_AGENT_NAMESPACE));
    }
    var existing := new AddOnDeploymentConfig(stored.value);
    var updated := MergeVariables(existing.customizedVariables, managed, override, order);
    updated := PreserveMirroredImageValues(updated, existing.customizedVariables, existing.originalValues);
    var same := CustomizedVariablesEqual(updated, existing.customizedVariables);
    if !same || existing.agentInstallNamespace != ADDON_AGENT_NAMESPACE {
      existing.customizedVariables := updated;
      existing.agentInstallNamespace := ADDON_AGENT_NAMESPACE;
      return Write(existing.State());
    }
    return UpToDate;
  }

  // ---------------------------------------------------------------------------------------------
  // What the merge and the comparison mean on the variables as a map
  // ---------------------------------------------------------------------------------------------

  lemma {:induction false} LookupAt(vars: seq<Variable>, i: nat)
    requires i < |vars|
    ensures vars[i].name in Lookup(vars)
    ensures Unique(vars) ==> Lookup(vars)[vars[i].name] == vars[i].value
  {
    var n := |vars| - 1;
    if i < n {
      LookupAt(vars[..n], i);
    }
  }

  lemma {:induction false} LookupFrom(vars: seq<Variable>, name: string) returns (i: nat)
    requires name in Lookup(vars)
    ensures i < |vars| && vars[i] == Variable(name, Lookup(vars)[name])
  {
    i := |vars| - 1;
    if vars[i].name != name {
      i := LookupFrom(vars[..i], name);
    }
  }

  lemma {:induction false} LookupSize(vars: seq<Variable>)
    requires Unique(vars)
    ensures |Lookup(vars)| == |vars|
  {
    if vars != [] {
      LookupSize(vars[..|vars| - 1]);
    }
  }

  lemma PlusUpdate(m: map<string, string>, n: map<string, string>, k: string, v: string)
    ensures m + n[k := v] == (m + n)[k := v]
  {
  }

  lemma LastMoved<T>(a: seq<T>, b: seq<T>)
    requires b != []
    ensures a + b == (a + b[..|b| - 1]) + [b[|b| - 1]] && b == b[..|b| - 1] + [b[|b| - 1]]
  {
    assert b == b[..|b| - 1] + [b[|b| - 1]];
    assert a + (b[..|b| - 1] + [b[|b| - 1]]) == (a + b[..|b| - 1]) + [b[|b| - 1]];
  }

  lemma {:induction false} LookupConcat(a: seq<Variable>, b: seq<Variable>)
    ensures Lookup(a + b) == Lookup(a) + Lookup(b)
  {
    if b == [] {
      assert a + b == a;
    } else {
      var n := |b| - 1;
      LookupConcat(a, b[..n]);
      LastMoved(a, b);
      LookupSnoc(a + b[..n], b[n]);
      LookupSnoc(b[..n], b[n]);
      PlusUpdate(Lookup(a), Lookup(b[..n]), b[n].name, b[n].value);
    }
  }

  lemma {:induction false} UniqueConcat(a: seq<Variable>, b: seq<Variable>)
    requires Unique(a) && Unique(b) && Lookup(a).Keys !! Lookup(b).Keys
    ensures Unique(a + b)
  {
    if b == [] {
      assert a + b == a;
    } else {
      var n := |b| - 1;
      UniqueConcat(a, b[..n]);
      LookupConcat(a, b[..n]);
      LastMoved(a, b);
      LookupSnoc(a + b[..n], b[n]);
    }
  }

  lemma LookupSnoc(front: seq<Variable>, v: Variable)
    ensures Lookup(front + [v]) == Lookup(front)[v.name := v.value]
    ensures Unique(front + [v]) <==> Unique(front) && v.name !in Lookup(front)
  {
    assert (front + [v])[..|front + [v]| - 1] == front;
  }

  lemma {:induction false} LookupKept(existing: seq<Variable>, managed: map<string, string>)
    ensures Lookup(Kept(existing, managed)) == Lookup(existing) - managed.Keys
  {
    if existing != [] {
      var n := |existing| - 1;
      LookupKept(existing[..n], managed);
      LookupSnoc(Kept(existing[..n], managed), existing[n]);
      MinusUpdate(Lookup(existing[..n]), managed.Keys, existing[n].name, existing[n].value);
    }
  }

  lemma MinusUpdate(m: map<string, string>, keys: set<string>, k: string, v: string)
    ensures m[k := v] - keys == if k in keys then m - keys else (m - keys)[k := v]
  {
  }

  lemma {:induction false} UniqueKept(existing: seq<Variable>, managed: map<string, string>)
    requires Unique(existing)
    ensures Unique(Kept(existing, managed))
  {
    if existing != [] {
      var n := |existing| - 1;
      UniqueKept(existing[..n], managed);
      LookupKept(existing[..n], managed);
      LookupSnoc(Kept(existing[..n], managed), existing[n]);
    }
  }

  /** Restoring the last variable last. */
  lemma RestoredSnoc(existing: seq<Variable>, managed: map<string, string>)
    requires existing != []
    ensures var n := |existing| - 1;
            var restored, front := RestoredAll(existing, managed), RestoredAll(existing[..n], managed);
            && Lookup(restored) == Lookup(front)[existing[n].name :=
                Get(managed, existing[n].name).GetOr(existing[n].value)]
            && (Unique(restored) <==> Unique(front) && existing[n].name !in Lookup(front))
  {
    var n := |existing| - 1;
    var v := Variable(existing[n].name, Get(managed, existing[n].name).GetOr(existing[n].value));
    assert RestoredAll(existing, managed) == RestoredAll(existing[..n], managed) + [v];
    LookupSnoc(RestoredAll(existing[..n], managed), v);
  }

  lemma {:induction false} LookupRestored(existing: seq<Variable>, managed: map<string, string>)
    ensures Lookup(RestoredAll(existing, managed)).Keys == Lookup(existing).Keys
    ensures forall n :: n in Lookup(existing) ==>
                          Lookup(RestoredAll(existing, managed))[n] == Get(managed, n).GetOr(Lookup(existing)[n])
    ensures Unique(existing) ==> Unique(RestoredAll(existing, managed))
  {
    if existing != [] {
      LookupRestored(existing[..|existing| - 1], managed);
      RestoredSnoc(existing, managed);
    }
  }

  lemma {:induction false} LookupEntries(order: seq<string>, managed: map<string, string>, skip: set<string>)
    requires forall n :: n in order ==> n in managed
    ensures Lookup(Entries(order, managed, skip)) == map n | n in order && n !in skip :: managed[n]
  {
    if order != [] {
      var n := |order| - 1;
      var front := order[..n];
      LookupEntries(front, managed, skip);
      assert order == front + [order[n]];
      LookupSnoc(Entries(front, managed, skip), Variable(order[n], managed[order[n]]));
    }
  }

  lemma {:induction false} UniqueEntries(order: seq<string>, managed: map<string, string>, skip: set<string>)
    requires Distinct(order) && forall n :: n in order ==> n in managed
    ensures Unique(Entries(order, managed, skip))
  {
    if order != [] {
      var n := |order| - 1;
      UniqueEntries(order[..n], managed, skip);
      LookupEntries(order[..n], managed, skip);
      LookupSnoc(Entries(order[..n], managed, skip), Variable(order[n], managed[order[n]]));
    }
  }

  /** Both merge modes compute the same map: the existing variables overridden by the managed ones. */
  lemma MergeOverridesExisting(existing: seq<Variable>, managed: map<string, string>, override: bool,
                               order: seq<string>)
    requires Lists(order, managed.Keys)
    ensures Lookup(Merged(existing, managed, override, order)) == Lookup(existing) + managed
    ensures Unique(existing) ==> Unique(Merged(existing, managed, override, order))
  {
    if override {
      OverrideModeOverrides(existing, managed, order);
    } else {
      PreserveModeOverrides(existing, managed, order);
    }
  }

  /** Visiting all managed variables adds exactly those not skipped. */
  lemma LookupAllEntries(order: seq<string>, managed: map<string, string>, skip: set<string>)
    requires Lists(order, managed.Keys)
    ensures Lookup(Entries(order, managed, skip)) == managed - skip
    ensures Unique(Entries(order, managed, skip))
  {
    LookupEntries(order, managed, skip);
    UniqueEntries(order, managed, skip);
  }

  lemma OverrideMaps(existing: map<string, string>, managed: map<string, string>)
    ensures (existing - managed.Keys) + managed == existing + managed
    ensures (existing - managed.Keys).Keys !! managed.Keys
  {
  }

  lemma OverrideModeOverrides(existing: seq<Variable>, managed: map<string, string>, order: seq<string>)
    requires Lists(order, managed.Keys)
    ensures Lookup(Merged(existing, managed, true, order)) == Lookup(existing) + managed
    ensures Unique(existing) ==> Unique(Merged(existing, managed, true, order))
  {
    LookupKept(existing, managed);
    LookupAllEntries(order, managed, {});
    assert managed - {} == managed;
    LookupConcat(Kept(existing, managed), Entries(order, managed, {}));
    OverrideMaps(Lookup(existing), managed);
    if Unique(existing) {
      UniqueKept(existing, managed);
      UniqueConcat(Kept(existing, managed), Entries(order, managed, {}));
    }
  }

  lemma PreserveMaps(existing: map<string, string>, restored: map<string, string>, managed: map<string, string>)
    requires restored.Keys == existing.Keys && forall n :: n in existing ==>
               restored[n] == Get(managed, n).GetOr(existing[n])
    ensures restored + (managed - existing.Keys) == existing + managed
    ensures (managed - existing.Keys).Keys !! restored.Keys
  {
  }

  lemma PreserveModeOverrides(existing: seq<Variable>, managed: map<string, string>, order: seq<string>)
    requires Lists(order, managed.Keys)
    ensures Lookup(Merged(existing, managed, false, order)) == Lookup(existing) + managed
    ensures Unique(existing) ==> Unique(Merged(existing, managed, false, order))
  {
    var skip := Lookup(existing).Keys;
    LookupRestored(existing, managed);
    LookupAllEntries(order, managed, skip);
    LookupConcat(RestoredAll(existing, managed), Entries(order, managed, skip));
    PreserveMaps(Lookup(existing), Lookup(RestoredAll(existing, managed)), managed);
    if Unique(existing) {
      UniqueConcat(RestoredAll(existing, managed), Entries(order, managed, skip));
    }
  }

  lemma {:induction false} LookupPreserved(desired: seq<Variable>, live: map<string, string>,
                                           originals: map<string, string>)
    ensures Lookup(PreservedAll(desired, live, originals)).Keys == Lookup(desired).Keys
    ensures forall n :: n in Lookup(desired) ==>
                          Lookup(PreservedAll(desired, live, originals))[n] ==
                              Preserved(Variable(n, Lookup(desired)[n]), live, originals).value
    ensures Unique(desired) ==> Unique(PreservedAll(desired, live, originals))
  {
    if desired != [] {
      var n := |desired| - 1;
      LookupPreserved(desired[..n], live, originals);
      assert PreservedAll(desired, live, originals)[..n] == PreservedAll(desired[..n], live, originals);
    }
  }

  /** On variables with unique names the comparison is equality of maps. */
  lemma EqualVarsIsMapEquality(a: seq<Variable>, b: seq<Variable>)
    requires Unique(a) && Unique(b)
    ensures EqualVars(a, b) <==> Lookup(a) == Lookup(b)
  {
    LookupSize(a);
    LookupSize(b);
    if EqualVars(a, b) {
      forall n | n in Lookup(b) ensures n in Lookup(a) && Lookup(a)[n] == Lookup(b)[n] {
        var i := LookupFrom(b, n);
        assert b[i] in b;
      }
      SubsetOfSameSize(Lookup(b).Keys, Lookup(a).Keys);
    }
    if Lookup(a) == Lookup(b) {
      forall v | v in b ensures v.name in Lookup(a) && Lookup(a)[v.name] == v.value {
        var i :| 0 <= i < |b| && b[i] == v;
        LookupAt(b, i);
      }
    }
  }

  lemma SubsetOfSameSize<T>(a: set<T>, b: set<T>)
    requires a <= b && |a| == |b|
    ensures a == b
  {
    assert |b - a| == |b| - |a|;
  }
}
