/**
 Arbitrary runs over one AddOnDeploymentConfig: applies and reverts of any number of
 ManagedClusterImageRegistry objects under changing registries, updates that fail, and outside writes.
 */
module MirrorRuns {
  import opened Options
  import opened ImageMirroring
  import opened AddOnConfigMerge
  import opened MirrorProtocol

  datatype Event =
    | Applying(owner: string, spec: RegistrySpec, updateSucceeds: bool)
    | Reverting(owner: string, updateSucceeds: bool)
    | OutsideWrite(vars: seq<Variable>, installNamespace: string)

  /** A registry reverts only a config that names it as the owner. */
  function RevertOwned(c: Config, owner: string): Decision {
    if c.managedBy != Some(owner) then Refused else Revert(c)
  }

  function Step(c: Config, e: Event): Config {
    match e
    case Applying(owner, spec, ok) => if ok then After(c, Apply(c, owner, spec)) else c
    case Reverting(owner, ok) => if ok then After(c, RevertOwned(c, owner)) else c
    case OutsideWrite(vars, ns) => c.(vars := vars, installNamespace := ns)
  }

  function Run(c: Config, events: seq<Event>): Config
    decreases |events|
  {
    if events == [] then c else Run(Step(c, events[0]), events[1..])
  }

  predicate Unmarked(c: Config) {
    c.managedBy.None? && c.originals.Missing? && c.lastMirrored.Missing?
  }

  // ---------------------------------------------------------------------------------------------
  // Bookkeeping
  // ---------------------------------------------------------------------------------------------

  /** Owner mark, originals and last-mirrored values come and go together, and cover the same variables. */
  ghost predicate Bookkept(c: Config) {
    || Unmarked(c)
    || (&& c.managedBy.Some? && c.originals.Encoded? && c.lastMirrored.Encoded?
        && c.originals.canonical && c.lastMirrored.canonical
        && c.originals.entries != map[] && c.originals.entries.Keys == c.lastMirrored.entries.Keys)
  }

  lemma StepKeepsBooks(c: Config, e: Event)
    requires Bookkept(c)
    ensures Bookkept(Step(c, e))
  {
    if e.Applying? {
      UpdatedNames(c.vars, Parse(c.originals), Parse(c.lastMirrored), e.spec);
      var t := Tracking(c, e.spec);
      if t.lastMirrored == map[] {
        assert t.originals.Keys == {};
      }
    }
  }

  lemma {:induction false} BookkeepingOverRuns(c: Config, events: seq<Event>)
    requires Bookkept(c)
    ensures Bookkept(Run(c, events))
    ensures var end := Run(c, events);
            && (end.managedBy.Some? <==> Parse(end.originals) != map[])
            && Parse(end.originals).Keys == Parse(end.lastMirrored).Keys
    decreases |events|
  {
    if events != [] {
      StepKeepsBooks(c, events[0]);
      BookkeepingOverRuns(Step(c, events[0]), events[1..]);
    }
  }

  // ---------------------------------------------------------------------------------------------
  // Exclusive ownership
  // ---------------------------------------------------------------------------------------------

  predicate Foreign(e: Event, owner: string) {
    !e.OutsideWrite? && e.owner != owner
  }

  function WithoutForeign(events: seq<Event>, owner: string): seq<Event> {
    if events == [] then []
    else if Foreign(events[0], owner) then WithoutForeign(events[1..], owner)
    else [events[0]] + WithoutForeign(events[1..], owner)
  }

  /** The owner does not revert, nor apply in a way that leaves nothing tracked, before the end. */
  ghost predicate Holds(c: Config, events: seq<Event>, owner: string)
    decreases |events|
  {
    c.managedBy == Some(owner) && (events == [] || Holds(Step(c, events[0]), events[1..], owner))
  }

  /** While one registry is the recorded owner, everything the others attempt might as well not have happened. */
  lemma {:induction false} ForeignEventsAreInvisible(c: Config, events: seq<Event>, owner: string)
    requires Holds(c, events, owner)
    ensures Run(c, events) == Run(c, WithoutForeign(events, owner))
    decreases |events|
  {
    if events != [] {
      ForeignEventsAreInvisible(Step(c, events[0]), events[1..], owner);
      if Foreign(events[0], owner) {
        assert Step(c, events[0]) == c;
      } else {
        var rest := WithoutForeign(events[1..], owner);
        assert ([events[0]] + rest)[1..] == rest;
      }
    }
  }

  /** A registry only loses ownership by its own doing. */
  lemma {:induction false} OthersCannotEvict(c: Config, events: seq<Event>, owner: string)
    requires c.managedBy == Some(owner)
    requires forall e :: e in events ==> Foreign(e, owner) || e.OutsideWrite?
    ensures Holds(c, events, owner)
    ensures var end := Run(c, events);
            end.managedBy == c.managedBy && end.originals == c.originals && end.lastMirrored == c.lastMirrored
    decreases |events|
  {
    if events != [] {
      assert events[0] in events;
      OthersCannotEvict(Step(c, events[0]), events[1..], owner);
    }
  }

  // ---------------------------------------------------------------------------------------------
  // Reversibility
  // ---------------------------------------------------------------------------------------------

  /** A variable carries its starting value, in the open or on record behind a mirrored one. */
  predicate CellFaithful(cell: Cell, start: string) {
    || cell == Cell(start, None, None)
    || cell == Cell(cell.value, Some(start), Some(cell.value))
  }

  ghost predicate Faithful(start: Config, c: Config) {
    && Bookkept(c)
    && c.installNamespace == start.installNamespace
    && Names(c.vars) == Names(start.vars) && Unique(c.vars)
    && Lookup(c.vars).Keys == Lookup(start.vars).Keys
    && Parse(c.originals).Keys <= Lookup(start.vars).Keys
    && forall n :: n in Lookup(start.vars) ==> CellFaithful(CellAt(Contents(c), n), Lookup(start.vars)[n])
  }

  lemma StartIsFaithful(start: Config)
    requires Unmarked(start) && Unique(start.vars)
    ensures Faithful(start, start)
  {
  }

  lemma ApplyKeepsFaith(start: Config, c: Config, owner: string, spec: RegistrySpec)
    requires Faithful(start, c)
    ensures Faithful(start, After(c, Apply(c, owner, spec)))
  {
    if !Apply(c, owner, spec).Refused? {
      var c' := After(c, Apply(c, owner, spec));
      StepKeepsBooks(c, Applying(owner, spec, true));
      ApplyCells(c, owner, spec);
      ApplyContents(c, owner, spec);
      UpdatedNames(c.vars, Parse(c.originals), Parse(c.lastMirrored), spec);
      forall n | n in Lookup(start.vars) ensures CellFaithful(CellAt(Contents(c'), n), Lookup(start.vars)[n]) {
        assert CellAt(Contents(c'), n) == Remirror(CellAt(Contents(c), n), spec);
      }
    }
  }

  /** Reverting a faithful config, or finding one that tracks nothing, gives the start back. */
  lemma RevertRestores(start: Config, c: Config)
    requires Unmarked(start) && Faithful(start, c)
    ensures After(c, Revert(c)) == start
    ensures c.managedBy.None? ==> c == start
  {
    var originals := Parse(c.originals);
    var vars := RestoredAll(c.vars, originals);
    LookupRestored(c.vars, originals);
    assert Names(vars) == Names(c.vars);
    forall n | n in Lookup(start.vars) ensures Lookup(vars)[n] == Lookup(start.vars)[n] {
      assert CellFaithful(CellAt(Contents(c), n), Lookup(start.vars)[n]);
    }
    SameVars(vars, start.vars);
    if c.managedBy.None? {
      assert vars == c.vars;
    }
  }

  lemma {:induction false} RunsAreFaithful(start: Config, c: Config, events: seq<Event>)
    requires Unmarked(start) && Unique(start.vars) && Faithful(start, c)
    requires forall e :: e in events ==> !e.OutsideWrite?
    ensures Faithful(start, Run(c, events))
    decreases |events|
  {
    if events != [] {
      var e := events[0];
      assert e in events;
      if e.Applying? {
        ApplyKeepsFaith(start, c, e.owner, e.spec);
      } else if e.Reverting? {
        RevertRestores(start, c);
        StartIsFaithful(start);
      }
      RunsAreFaithful(start, Step(c, e), events[1..]);
    }
  }

  /**
   From an unmarked config, after any applies and reverts of any registries, with any updates failing:
   if no owner is recorded the config is exactly what it was at the start, and otherwise one successful
   revert by the recorded owner makes it so.
   */
  lemma MirroringIsReversible(start: Config, events: seq<Event>)
    requires Unmarked(start) && Unique(start.vars)
    requires forall e :: e in events ==> !e.OutsideWrite?
    ensures var c := Run(start, events);
            && (c.managedBy.None? ==> c == start)
            && (c.managedBy.Some? ==> Step(c, Reverting(c.managedBy.value, true)) == start)
  {
    StartIsFaithful(start);
    RunsAreFaithful(start, start, events);
    RevertRestores(start, Run(start, events));
  }

  /** What the create pass of the GitOpsCluster controller does to a config is an outside write with unique names. */
  lemma CreateIsAnOutsideWrite(c: Config, managed: map<string, string>, pass: Pass)
    requires Unique(c.vars) && Lists(pass.order, managed.Keys)
    ensures var c' := After(c, Create(Some(c), managed, pass.override, pass.order));
            Unique(c'.vars) && c' == Step(c, OutsideWrite(c'.vars, c'.installNamespace))
  {
    CreateCells(c, managed, pass);
  }

  // ---------------------------------------------------------------------------------------------
  // When convergence fails
  // ---------------------------------------------------------------------------------------------

  /**
   Registries that chain (a to b, b to c) and an outside edit to "a/x" while the recorded original is the
   desired "b/x": the edit is mirrored to "b/x", which from then on is taken for the controller's own
   write, so the variable stays on "b/x" and never reaches the mirror "c/x" of the desired value.
   */
  lemma ChainedRegistriesSwallowTheDesiredValue()
    ensures var spec := RegistrySpec([Registry("a", "b"), Registry("b", "c")], "");
            var c := Config([Variable("image", "a/x")], Some("ns/r"), Encoded(map["image" := "b/x"], true),
                            Encoded(map["image" := "c/x"], true), ADDON_AGENT_NAMESPACE);
            var managed := map["image" := "b/x"];
            var pass := Pass(false, ["image"]);
            var c2 := Round(Round(c, managed, pass, "ns/r", spec), managed, pass, "ns/r", spec);
            && "image" in Lookup(c2.vars) && Lookup(c2.vars)["image"] != Target("b/x", spec) == "c/x"
  {
    var spec := RegistrySpec([Registry("a", "b"), Registry("b", "c")], "");
    var c := Config([Variable("image", "a/x")], Some("ns/r"), Encoded(map["image" := "b/x"], true),
                    Encoded(map["image" := "c/x"], true), ADDON_AGENT_NAMESPACE);
    var managed := map["image" := "b/x"];
    var pass := Pass(false, ["image"]);
    assert FirstSlash("a/x") == 1 && FirstSlash("b/x") == 1;
    assert Host("a/x") == "a" && Host("b/x") == "b" && "a/x"[1..] == "/x" && "b/x"[1..] == "/x";
    LastMatchWins(spec.registries, "a", 0);
    LastMatchWins(spec.registries, "b", 1);
    assert "b" + "/x" == "b/x" && "c" + "/x" == "c/x";
    assert HasHost("a/x") && HasHost("b/x") && EffectiveRegistries(spec) == spec.registries;
    assert Mirror("a/x", spec) == Some("b/x") && Mirror("b/x", spec) == Some("c/x");
    assert Lookup(c.vars) == map["image" := "a/x"];
    assert MistakenAt(c, managed, spec, "image");
    TwoRoundsConverge(c, managed, pass, pass, "ns/r", spec);
  }
}
