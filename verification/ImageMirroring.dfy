/**
 Image mirroring of one AddOnDeploymentConfig, as done for a ManagedClusterImageRegistry: rewriting
 the customized variables to mirror registries, the three annotations that make the rewriting
 reversible, and the revert.
 */
module ImageMirroring {
  import opened Options

  datatype Variable = Variable(name: string, value: string)

  datatype Registry = Registry(source: string, mirror: string)

  /** `registries` is tried first; `registry` is the catch-all used only when it is empty. */
  datatype RegistrySpec = RegistrySpec(registries: seq<Registry>, registry: string)

  /**
   The text of a JSON annotation, as far as the controllers can tell texts apart: absent, present but
   empty, present but not a JSON object of strings, or an encoded map. `canonical` tells the text the
   marshaller produces for the map from any other text that decodes to the same map.
   */
  datatype Note = Missing | Blank | Malformed | Encoded(entries: map<string, string>, canonical: bool)

  function Parse(note: Note): map<string, string> {
    if note.Encoded? then note.entries else map[]
  }

  function Marshal(entries: map<string, string>): Note {
    if entries == map[] then Blank else Encoded(entries, true)
  }

  /** Reading an absent annotation yields the empty string. */
  function Text(note: Note): Note {
    if note.Missing? then Blank else note
  }

  // ---------------------------------------------------------------------------------------------
  // Mirroring one value
  // ---------------------------------------------------------------------------------------------

  /** The position of the first '/', or the length when there is none. */
  function FirstSlash(s: string): (i: nat)
    ensures i <= |s|
    ensures i < |s| ==> s[i] == '/'
    ensures forall j :: 0 <= j < i ==> s[j] != '/'
  {
    if s == [] || s[0] == '/' then 0 else 1 + FirstSlash(s[1..])
  }

  /** Looks like an image reference: a non-empty host followed by '/'. */
  predicate HasHost(value: string) {
    0 < FirstSlash(value) < |value|
  }

  function Host(value: string): string {
    value[..FirstSlash(value)]
  }

  function EffectiveRegistries(spec: RegistrySpec): seq<Registry> {
    if spec.registries != [] then spec.registries
    else if spec.registry == "" then []
    else [Registry("", spec.registry)]
  }

  predicate Matches(registry: Registry, host: string) {
    registry.mirror != "" && (registry.source == "" || registry.source == host)
  }

  /** The mirror of the last matching entry. */
  function LastMirror(registries: seq<Registry>, host: string): Option<string> {
    if registries == [] then None
    else
      var last := registries[|registries| - 1];
      if Matches(last, host) then Some(last.mirror) else LastMirror(registries[..|registries| - 1], host)
  }

  function Mirror(value: string, spec: RegistrySpec): Option<string> {
    if !HasHost(value) then None
    else
      var mirror := LastMirror(EffectiveRegistries(spec), Host(value));
      if mirror.None? || mirror.value == Host(value) then None
      else Some(mirror.value + value[FirstSlash(value)..])
  }

  method ComputeMirroredValue(value: string, registries: seq<Registry>, registry: string)
    returns (mirrored: string, ok: bool)
    ensures ok <==> Mirror(value, RegistrySpec(registries, registry)).Some?
    ensures mirrored == Mirror(value, RegistrySpec(registries, registry)).GetOr(value)
  {
    var idx := FirstSlash(value);
    if idx == 0 || idx == |value| {
      return value, false;
    }
    var host, rest := value[..idx], value[idx..];
    var effective := registries;
    if |effective| == 0 {
      if registry == "" {
        return value, false;
      }
      effective := [Registry("", registry)];
    }
    var newHost, matched := "", false;
    for i := 0 to |effective|
      invariant matched <==> LastMirror(effective[..i], host).Some?
      invariant matched ==> LastMirror(effective[..i], host) == Some(newHost)
    {
      assert effective[..i + 1][..i] == effective[..i];
      if effective[i].mirror == "" {
        continue;
      }
      if effective[i].source == "" || effective[i].source == host {
        newHost, matched := effective[i].mirror, true;
      }
    }
    assert effective[..|effective|] == effective;
    if !matched || newHost == host {
      return value, false;
    }
    return newHost + rest, true;
  }

  /** Entry k decides exactly when it matches and no later entry does. */
  lemma {:induction false} LastMatchWins(registries: seq<Registry>, host: string, k: nat)
    requires k < |registries| && Matches(registries[k], host)
    requires forall j :: k < j < |registries| ==> !Matches(registries[j], host)
    ensures LastMirror(registries, host) == Some(registries[k].mirror)
  {
    var n := |registries| - 1;
    if k < n {
      LastMatchWins(registries[..n], host, k);
    }
  }

  lemma {:induction false} NoMatchNoMirror(registries: seq<Registry>, host: string)
    ensures LastMirror(registries, host).None? <==> forall j :: 0 <= j < |registries| ==> !Matches(registries[j], host)
  {
    if registries != [] {
      var n := |registries| - 1;
      NoMatchNoMirror(registries[..n], host);
      assert forall j :: 0 <= j < n ==> registries[..n][j] == registries[j];
    }
  }

  /** A mirrored value keeps everything from the first '/' on and always differs from its source. */
  lemma MirrorReplacesHostOnly(value: string, spec: RegistrySpec)
    ensures Mirror(value, spec).Some? ==>
              var m := Mirror(value, spec).value;
              var i := FirstSlash(value);
              m != value && |m| >= |value| - i && m[|m| - (|value| - i)..] == value[i..]
  {
    if Mirror(value, spec).Some? {
      var i := FirstSlash(value);
      var newHost := LastMirror(EffectiveRegistries(spec), Host(value)).value;
      var m := newHost + value[i..];
      assert m[..|newHost|] == newHost && m[|newHost|..] == value[i..];
    }
  }

  // ---------------------------------------------------------------------------------------------
  // Mirroring one variable: its live value and what is recorded about it
  // ---------------------------------------------------------------------------------------------

  datatype Cell = Cell(value: string, original: Option<string>, lastMirrored: Option<string>)

  function Fresh(value: string, spec: RegistrySpec): Cell {
    var m := Mirror(value, spec);
    Cell(m.GetOr(value), if m.Some? then Some(value) else None, m)
  }

  /**
   The controller trusts its record only while the live value is the one it wrote last; otherwise the
   live value itself becomes the source.
   */
  function Remirror(cell: Cell, spec: RegistrySpec): Cell {
    if cell.original.Some? && cell.lastMirrored == Some(cell.value)
    then Fresh(cell.original.value, spec)
    else Fresh(cell.value, spec)
  }

  /** All the variables of a config together with the two recorded maps. */
  datatype Tracked = Tracked(vars: seq<Variable>, originals: map<string, string>, lastMirrored: map<string, string>)

  function CellOf(v: Variable, originals: map<string, string>, lastMirrored: map<string, string>): Cell {
    Cell(v.value, Get(originals, v.name), Get(lastMirrored, v.name))
  }

  function Record(t: Tracked, name: string, cell: Cell): Tracked {
    Tracked(t.vars + [Variable(name, cell.value)],
            if cell.original.Some? then t.originals[name := cell.original.value] else t.originals,
            if cell.lastMirrored.Some? then t.lastMirrored[name := cell.lastMirrored.value] else t.lastMirrored)
  }

  function Updated(current: seq<Variable>, originals: map<string, string>, lastMirrored: map<string, string>,
                   spec: RegistrySpec): Tracked
  {
    if current == [] then Tracked([], map[], map[])
    else
      var n := |current| - 1;
      Record(Updated(current[..n], originals, lastMirrored, spec), current[n].name,
             Remirror(CellOf(current[n], originals, lastMirrored), spec))
  }

  lemma UpdatedStep(current: seq<Variable>, i: nat, originals: map<string, string>, lastMirrored: map<string, string>,
                    spec: RegistrySpec)
    requires i < |current|
    ensures Updated(current[..i + 1], originals, lastMirrored, spec)
         == Record(Updated(current[..i], originals, lastMirrored, spec), current[i].name,
                   Remirror(CellOf(current[i], originals, lastMirrored), spec))
  {
    assert current[..i + 1][..i] == current[..i];
  }

  lemma SameExtension(s: seq<Variable>, t: seq<Variable>, x: Variable, i: nat)
    requires |s| == i < |t|
    ensures s + [x] == t[..i + 1] <==> s == t[..i] && x == t[i]
  {
    assert (s + [x])[..i] == s && (s + [x])[i] == x;
    assert t[..i + 1][..i] == t[..i] && t[..i + 1][i] == t[i];
  }

  /** One iteration of the loop below: what becomes of a variable, and whether its value changes. */
  method UpdateVariable(v: Variable, origMap: map<string, string>, lastMirroredMap: map<string, string>,
                        registries: seq<Registry>, registry: string)
    returns (cell: Cell, changed: bool)
    ensures cell == Remirror(CellOf(v, origMap, lastMirroredMap), RegistrySpec(registries, registry))
    ensures changed <==> cell.value != v.value
  {
    if v.name in origMap && v.name in lastMirroredMap && v.value == lastMirroredMap[v.name] {
      // The last write is intact: recompute from the recorded original, or give up tracking it.
      var orig := origMap[v.name];
      var mirrored, ok := ComputeMirroredValue(orig, registries, registry);
      if ok {
        return Cell(mirrored, Some(orig), Some(mirrored)), v.value != mirrored;
      }
      return Cell(orig, None, None), v.value != orig;
    }
    // Untracked, or overwritten by someone else: the live value is the source.
    MirrorReplacesHostOnly(v.value, RegistrySpec(registries, registry));
    var mirrored, ok := ComputeMirroredValue(v.value, registries, registry);
    if ok {
      return Cell(mirrored, Some(v.value), Some(mirrored)), true;
    }
    return Cell(v.value, None, None), false;
  }

  method ComputeUpdatedVariables(current: seq<Variable>, origMap: map<string, string>,
                                 lastMirroredMap: map<string, string>,
                                 registries: seq<Registry>, registry: string)
    returns (updated: seq<Variable>, newOrigMap: map<string, string>, newLastMirroredMap: map<string, string>,
             changed: bool)
    ensures Tracked(updated, newOrigMap, newLastMirroredMap)
         == Updated(current, origMap, lastMirroredMap, RegistrySpec(registries, registry))
    ensures changed <==> updated != current
  {
    ghost var spec := RegistrySpec(registries, registry);
    updated, newOrigMap, newLastMirroredMap, changed := [], map[], map[], false;
    for i := 0 to |current|
      invariant Tracked(updated, newOrigMap, newLastMirroredMap) ==
                Updated(current[..i], origMap, lastMirroredMap, spec)
      invariant |updated| == i
      invariant changed <==> updated != current[..i]
    {
      var v := current[i];
      var cell, differs := UpdateVariable(v, origMap, lastMirroredMap, registries, registry);
      UpdatedStep(current, i, origMap, lastMirroredMap, spec);
      SameExtension(updated, current, Variable(v.name, cell.value), i);
      if cell.original.Some? {
        newOrigMap := newOrigMap[v.name := cell.original.value];
      }
      if cell.lastMirrored.Some? {
        newLastMirroredMap := newLastMirroredMap[v.name := cell.lastMirrored.value];
      }
      changed := changed || differs;
      updated := updated + [Variable(v.name, cell.value)];
    }
    assert current[..|current|] == current;
  }

  // ---------------------------------------------------------------------------------------------
  // One AddOnDeploymentConfig
  // ---------------------------------------------------------------------------------------------

  /** The part of an AddOnDeploymentConfig the controllers read or write. */
  datatype Config = Config(vars: seq<Variable>, managedBy: Option<string>, originals: Note, lastMirrored: Note,
                           installNamespace: string)

  /** What a controller decides about a config it has read. */
  datatype Decision = Refused | UpToDate | Write(config: Config)

  /** The stored config once the decision has been carried out. */
  function After(c: Config, d: Decision): Config {
    if d.Write? then d.config else c
  }

  function Stamped(c: Config, t: Tracked, owner: string): Config {
    if t.originals == map[]
    then c.(vars := t.vars, managedBy := None, originals := Missing, lastMirrored := Missing)
    else c.(vars := t.vars, managedBy := Some(owner), originals := Marshal(t.originals),
            lastMirrored := Marshal(t.lastMirrored))
  }

  function Tracking(c: Config, spec: RegistrySpec): Tracked {
    Updated(c.vars, Parse(c.originals), Parse(c.lastMirrored), spec)
  }

  function Apply(c: Config, owner: string, spec: RegistrySpec): Decision {
    if c.managedBy.Some? && c.managedBy.value != owner then Refused
    else
      var t := Tracking(c, spec);
      var annotationsChanged :=
        || (c.managedBy != Some(owner) && t.originals != map[])
        || Text(c.originals) != Marshal(t.originals)
        || Text(c.lastMirrored) != Marshal(t.lastMirrored);
      if t.vars == c.vars && !annotationsChanged then UpToDate else Write(Stamped(c, t, owner))
  }

  function Restored(v: Variable, originals: map<string, string>): Variable {
    if v.name in originals then Variable(v.name, originals[v.name]) else v
  }

  function RestoredAll(vars: seq<Variable>, originals: map<string, string>): seq<Variable> {
    seq(|vars|, i requires 0 <= i < |vars| => Restored(vars[i], originals))
  }

  function Revert(c: Config): Decision {
    var vars := RestoredAll(c.vars, Parse(c.originals));
    if vars == c.vars && c.managedBy.None? && c.originals.Missing? && c.lastMirrored.Missing? then UpToDate
    else Write(c.(vars := vars, managedBy := None, originals := Missing, lastMirrored := Missing))
  }

  /** The object a controller holds after reading it from the API server, edited in place before an update. */
  class AddOnDeploymentConfig {
    var customizedVariables: seq<Variable>
    var managedBy: Option<string>
    var originalValues: Note
    var lastMirroredValues: Note
    var agentInstallNamespace: string

    constructor (c: Config)
      ensures State() == c
    {
      customizedVariables, managedBy := c.vars, c.managedBy;
      originalValues, lastMirroredValues := c.originals, c.lastMirrored;
      agentInstallNamespace := c.installNamespace;
    }

    function State(): Config
      reads this
    {
      Config(customizedVariables, managedBy, originalValues, lastMirroredValues, agentInstallNamespace)
    }

    /** Edits the object; the caller sends it to the API server when `update` is true. */
    method ApplyImageMirroring(ownerKey: string, registries: seq<Registry>, registry: string)
      returns (update: bool, refused: bool)
      modifies this
      ensures var d := Apply(old(State()), ownerKey, RegistrySpec(registries, registry));
              refused == d.Refused? && update == d.Write? && State() == After(old(State()), d)
    {
      if managedBy.Some? && managedBy.value != ownerKey {
        return false, true;
      }
      var updatedVars, newOrigMap, newLastMirroredMap, changed :=
        ComputeUpdatedVariables(customizedVariables, Parse(originalValues), Parse(lastMirroredValues), registries,
                                registry);
      var newOrig, newLastMirrored := Marshal(newOrigMap), Marshal(newLastMirroredMap);
      var annotationsChanged := managedBy != Some(ownerKey) && |newOrigMap| > 0;
      annotationsChanged := annotationsChanged || Text(originalValues) != newOrig;
      annotationsChanged := annotationsChanged || Text(lastMirroredValues) != newLastMirrored;
      if !changed && !annotationsChanged {
        return false, false;
      }
      if |newOrigMap| == 0 {
        managedBy, originalValues, lastMirroredValues := None, Missing, Missing;
      } else {
        managedBy, originalValues, lastMirroredValues := Some(ownerKey), newOrig, newLastMirrored;
      }
      customizedVariables := updatedVars;
      return true, false;
    }

    method RevertAddOnDeploymentConfig() returns (update: bool)
      modifies this
      ensures var d := Revert(old(State()));
              update == d.Write? && State() == After(old(State()), d)
    {
      var origMap := Parse(originalValues);
      var changed := false;
      var updated: seq<Variable> := [];
      for i := 0 to |customizedVariables|
        invariant State() == old(State())
        invariant updated == RestoredAll(customizedVariables, origMap)[..i]
        invariant changed <==> updated != customizedVariables[..i]
      {
        var v := customizedVariables[i];
        if v.name in origMap {
          if v.value != origMap[v.name] {
            changed := true;
          }
          updated := updated + [Variable(v.name, origMap[v.name])];
        } else {
          updated := updated + [v];
        }
        assert updated == customizedVariables[..i + 1]
          <==> updated[..i] == customizedVariables[..i] && updated[i] == customizedVariables[i];
      }
      if !changed && managedBy.None? && originalValues.Missing? && lastMirroredValues.Missing? {
        return false;
      }
      customizedVariables := updated;
      managedBy, originalValues, lastMirroredValues := None, Missing, Missing;
      return true;
    }
  }
}
