/**
 The two controllers that write one AddOnDeploymentConfig, taken together: joint convergence,
 idempotence, bookkeeping, exclusive ownership and reversibility over arbitrary runs.

 Every update carries the resourceVersion it was computed from, so an update that succeeds was computed
 from the stored config and one that fails leaves it alone: a controller's pass is one atomic step.
 */
module MirrorProtocol {
  import opened Options
  import opened ImageMirroring
  import opened AddOnConfigMerge

  // ---------------------------------------------------------------------------------------------
  // From lists and maps to one cell per variable
  // ---------------------------------------------------------------------------------------------

  function Contents(c: Config): Tracked {
    Tracked(c.vars, Parse(c.originals), Parse(c.lastMirrored))
  }

  function CellAt(t: Tracked, n: string): Cell
    requires n in Lookup(t.vars)
  {
    Cell(Lookup(t.vars)[n], Get(t.originals, n), Get(t.lastMirrored, n))
  }

  function Names(vars: seq<Variable>): seq<string> {
    seq(|vars|, i requires 0 <= i < |vars| => vars[i].name)
  }

  lemma {:induction false} SameNames(a: seq<Variable>, b: seq<Variable>)
    requires Names(a) == Names(b)
    ensures Lookup(a).Keys == Lookup(b).Keys && (Unique(a) <==> Unique(b))
  {
    assert |Names(a)| == |a| && |Names(b)| == |b|;
    if a != [] {
      var n := |a| - 1;
      assert Names(a)[..n] == Names(a[..n]) && Names(b)[..n] == Names(b[..n]);
      assert Names(a)[n] == a[n].name && Names(b)[n] == b[n].name;
      SameNames(a[..n], b[..n]);
    }
  }

  lemma SameVars(a: seq<Variable>, b: seq<Variable>)
    requires Names(a) == Names(b) && Unique(a) && Lookup(a) == Lookup(b)
    ensures a == b
  {
    SameNames(a, b);
    assert |Names(a)| == |a| && |Names(b)| == |b|;
    forall i | 0 <= i < |a| ensures a[i] == b[i] {
      LookupAt(a, i);
      LookupAt(b, i);
      assert Names(a)[i] == a[i].name && Names(b)[i] == b[i].name;
    }
  }

  lemma RecordedNames(t: Tracked, name: string, cell: Cell)
    ensures Names(Record(t, name, cell).vars) == Names(t.vars) + [name]
  {
    assert Names(t.vars + [Variable(name, cell.value)]) == Names(t.vars) + [name];
  }

  lemma RecordedKeys(t: Tracked, name: string, cell: Cell)
    requires t.originals.Keys == t.lastMirrored.Keys && cell.original.Some? == cell.lastMirrored.Some?
    ensures var u := Record(t, name, cell);
            u.originals.Keys == u.lastMirrored.Keys && u.originals.Keys <= t.originals.Keys + {name}
  {
  }

  lemma {:induction false} UpdatedNames(current: seq<Variable>, originals: map<string, string>,
                                        lastMirrored: map<string, string>, spec: RegistrySpec)
    ensures var t := Updated(current, originals, lastMirrored, spec);
            && Names(t.vars) == Names(current)
            && t.originals.Keys == t.lastMirrored.Keys
            && t.originals.Keys <= Lookup(current).Keys
  {
    if current != [] {
      var n := |current| - 1;
      UpdatedNames(current[..n], originals, lastMirrored, spec);
      var t := Updated(current[..n], originals, lastMirrored, spec);
      var cell := Remirror(CellOf(current[n], originals, lastMirrored), spec);
      RecordedNames(t, current[n].name, cell);
      RecordedKeys(t, current[n].name, cell);
      assert Names(current) == Names(current[..n]) + [current[n].name];
    }
  }

  /** Recording a new variable adds its cell and keeps all others. */
  lemma CellsRecorded(t: Tracked, name: string, cell: Cell, other: string)
    requires name !in Lookup(t.vars) && name !in t.originals && name !in t.lastMirrored
    ensures var u := Record(t, name, cell);
            && name in Lookup(u.vars) && CellAt(u, name) == cell
            && (other in Lookup(t.vars) ==> other in Lookup(u.vars) && CellAt(u, other) == CellAt(t, other))
  {
    LookupSnoc(t.vars, Variable(name, cell.value));
  }

  /** Each variable evolves on its own, from its own cell. */
  lemma {:induction false} UpdatedCells(current: seq<Variable>, originals: map<string, string>,
                                        lastMirrored: map<string, string>, spec: RegistrySpec, name: string)
    requires Unique(current) && name in Lookup(current)
    ensures name in Lookup(Updated(current, originals, lastMirrored, spec).vars)
    ensures CellAt(Updated(current, originals, lastMirrored, spec), name)
         == Remirror(CellAt(Tracked(current, originals, lastMirrored), name), spec)
  {
    var n := |current| - 1;
    var front, v := current[..n], current[n];
    var t := Updated(front, originals, lastMirrored, spec);
    UpdatedNames(front, originals, lastMirrored, spec);
    SameNames(front, t.vars);
    CellsRecorded(t, v.name, Remirror(CellOf(v, originals, lastMirrored), spec), name);
    if name != v.name {
      UpdatedCells(front, originals, lastMirrored, spec, name);
    }
  }

  /** Whether or not it writes, an apply that is not refused leaves the recomputed contents behind. */
  lemma ApplyContents(c: Config, owner: string, spec: RegistrySpec)
    requires !Apply(c, owner, spec).Refused?
    ensures Contents(After(c, Apply(c, owner, spec))) == Tracking(c, spec)
  {
    UpdatedNames(c.vars, Parse(c.originals), Parse(c.lastMirrored), spec);
    var t := Tracking(c, spec);
    if t.originals == map[] {
      assert t.lastMirrored.Keys == {};
      assert t.lastMirrored == map[];
    }
  }

  ghost predicate Free(c: Config, owner: string) {
    c.managedBy.None? || c.managedBy == Some(owner)
  }

  lemma ApplyCells(c: Config, owner: string, spec: RegistrySpec)
    requires Unique(c.vars) && Free(c, owner)
    ensures var c' := After(c, Apply(c, owner, spec));
            && Names(c'.vars) == Names(c.vars) && Unique(c'.vars) && Lookup(c'.vars).Keys == Lookup(c.vars).Keys
            && Free(c', owner) && c'.installNamespace == c.installNamespace
            && forall n :: n in Lookup(c.vars) ==> CellAt(Contents(c'), n) == Remirror(CellAt(Contents(c), n), spec)
  {
    var c' := After(c, Apply(c, owner, spec));
    ApplyContents(c, owner, spec);
    UpdatedNames(c.vars, Parse(c.originals), Parse(c.lastMirrored), spec);
    assert c'.vars == Tracking(c, spec).vars;
    SameNames(c.vars, c'.vars);
    forall n | n in Lookup(c.vars) ensures CellAt(Contents(c'), n) == Remirror(CellAt(Contents(c), n), spec) {
      UpdatedCells(c.vars, Parse(c.originals), Parse(c.lastMirrored), spec, n);
    }
  }

  // ---------------------------------------------------------------------------------------------
  // Idempotence
  // ---------------------------------------------------------------------------------------------

  lemma RemirrorTwice(cell: Cell, spec: RegistrySpec)
    ensures Remirror(Remirror(cell, spec), spec) == Remirror(cell, spec)
  {
  }

  /** A tracked state no cell of which would change is left exactly as it is. */
  lemma SettledStaysPut(t: Tracked, spec: RegistrySpec)
    requires Unique(t.vars) && t.originals.Keys <= Lookup(t.vars).Keys && t.lastMirrored.Keys <= Lookup(t.vars).Keys
    requires forall n :: n in Lookup(t.vars) ==> Remirror(CellAt(t, n), spec) == CellAt(t, n)
    ensures Updated(t.vars, t.originals, t.lastMirrored, spec) == t
  {
    var u := Updated(t.vars, t.originals, t.lastMirrored, spec);
    UpdatedNames(t.vars, t.originals, t.lastMirrored, spec);
    SameNames(t.vars, u.vars);
    forall n | n in Lookup(t.vars) ensures CellAt(u, n) == CellAt(t, n) {
      UpdatedCells(t.vars, t.originals, t.lastMirrored, spec, n);
    }
    assert Lookup(u.vars) == Lookup(t.vars) by {
      forall n | n in Lookup(t.vars) ensures Lookup(u.vars)[n] == Lookup(t.vars)[n] {
        assert CellAt(u, n) == CellAt(t, n);
      }
    }
    SameVars(u.vars, t.vars);
    assert u.originals == t.originals by { SameEntries(u.originals, t.originals, u, t, true); }
    assert u.lastMirrored == t.lastMirrored by { SameEntries(u.lastMirrored, t.lastMirrored, u, t, false); }
  }

  lemma SameEntries(a: map<string, string>, b: map<string, string>, u: Tracked, t: Tracked, originals: bool)
    requires Lookup(u.vars).Keys == Lookup(t.vars).Keys
    requires a.Keys <= Lookup(t.vars).Keys && b.Keys <= Lookup(t.vars).Keys
    requires if originals then a == u.originals && b == t.originals else a == u.lastMirrored && b == t.lastMirrored
    requires forall n :: n in Lookup(t.vars) ==> CellAt(u, n) == CellAt(t, n)
    ensures a == b
  {
    forall n | n in Lookup(t.vars) ensures Get(a, n) == Get(b, n) {
      assert CellAt(u, n) == CellAt(t, n);
    }
    assert forall n :: n in a ==> Get(a, n) == Some(a[n]);
    assert forall n :: n in b ==> Get(b, n) == Some(b[n]);
  }

  /** The annotations are the ones this owner would write for what they decode to. */
  predicate MarkedBy(c: Config, owner: string) {
    && (Parse(c.originals) != map[] ==> c.managedBy == Some(owner))
    && Text(c.originals) == Marshal(Parse(c.originals))
    && Text(c.lastMirrored) == Marshal(Parse(c.lastMirrored))
  }

  lemma ApplyMarks(c: Config, owner: string, spec: RegistrySpec)
    requires Free(c, owner)
    ensures MarkedBy(After(c, Apply(c, owner, spec)), owner)
  {
    ApplyContents(c, owner, spec);
  }

  /** An apply leaves a tracked state that is its own recomputation. */
  lemma ApplySettles(c: Config, owner: string, spec: RegistrySpec)
    requires Unique(c.vars) && Free(c, owner)
    ensures var c' := After(c, Apply(c, owner, spec));
            Tracking(c', spec) == Contents(c')
  {
    var c' := After(c, Apply(c, owner, spec));
    ApplyCells(c, owner, spec);
    ApplyContents(c, owner, spec);
    UpdatedNames(c.vars, Parse(c.originals), Parse(c.lastMirrored), spec);
    forall n | n in Lookup(c'.vars) ensures Remirror(CellAt(Contents(c'), n), spec) == CellAt(Contents(c'), n) {
      RemirrorTwice(CellAt(Contents(c), n), spec);
    }
    SettledStaysPut(Contents(c'), spec);
  }

  /** Applying twice with the same registries changes nothing the second time. */
  lemma ApplyIsIdempotent(c: Config, owner: string, spec: RegistrySpec)
    requires Unique(c.vars) && Free(c, owner)
    ensures Apply(After(c, Apply(c, owner, spec)), owner, spec) == UpToDate
  {
    ApplySettles(c, owner, spec);
    ApplyMarks(c, owner, spec);
  }

  // ---------------------------------------------------------------------------------------------
  // Joint convergence
  // ---------------------------------------------------------------------------------------------

  /** How one create pass goes about it: the merge mode and the order in which it visits the managed variables. */
  datatype Pass = Pass(override: bool, order: seq<string>)

  /** The value a create pass leaves on a managed variable whose desired value is `desired`. */
  function Written(live: Option<string>, original: Option<string>, desired: string): string {
    if original == Some(desired) then live.GetOr(desired) else desired
  }

  lemma CreateCells(c: Config, managed: map<string, string>, pass: Pass)
    requires Unique(c.vars) && Lists(pass.order, managed.Keys)
    ensures var c' := After(c, Create(Some(c), managed, pass.override, pass.order));
            && Unique(c'.vars) && Lookup(c'.vars).Keys == Lookup(c.vars).Keys + managed.Keys
            && c'.managedBy == c.managedBy && c'.originals == c.originals && c'.lastMirrored == c.lastMirrored
            && c'.installNamespace == ADDON_AGENT_NAMESPACE
            && (forall n :: n in managed ==>
                              Lookup(c'.vars)[n] == Written(Get(Lookup(c.vars), n), Get(Parse(c.originals), n),
                                                            managed[n]))
            && (forall n :: n in Lookup(c.vars) && n !in managed ==> Lookup(c'.vars)[n] == Lookup(c.vars)[n])
  {
    DesiredCells(c, managed, pass);
    EqualVarsIsMapEquality(Desired(c, managed, pass.override, pass.order), c.vars);
  }

  lemma DesiredCells(c: Config, managed: map<string, string>, pass: Pass)
    requires Unique(c.vars) && Lists(pass.order, managed.Keys)
    ensures var vars := Desired(c, managed, pass.override, pass.order);
            && Unique(vars) && Lookup(vars).Keys == Lookup(c.vars).Keys + managed.Keys
            && (forall n :: n in managed ==>
                              Lookup(vars)[n] == Written(Get(Lookup(c.vars), n), Get(Parse(c.originals), n),
                                                         managed[n]))
            && (forall n :: n in Lookup(c.vars) && n !in managed ==> Lookup(vars)[n] == Lookup(c.vars)[n])
  {
    var merged := Merged(c.vars, managed, pass.override, pass.order);
    MergeOverridesExisting(c.vars, managed, pass.override, pass.order);
    LookupPreserved(merged, Lookup(c.vars), Parse(c.originals));
    PreservedValues(Lookup(c.vars), managed, Parse(c.originals));
  }

  /** What preserving makes of the merged values. */
  lemma PreservedValues(live: map<string, string>, managed: map<string, string>, originals: map<string, string>)
    ensures forall n :: n in managed ==>
                          Preserved(Variable(n, (live + managed)[n]), live, originals).value ==
                              Written(Get(live, n), Get(originals, n), managed[n])
    ensures forall n :: n in live && n !in managed ==>
              Preserved(Variable(n, (live + managed)[n]), live, originals).value == live[n]
  {
  }

  /** Only what the merge computes matters to the write decision. */
  lemma CreateUpToDate(c: Config, managed: map<string, string>, pass: Pass)
    requires Unique(c.vars) && Lists(pass.order, managed.Keys)
    requires managed.Keys <= Lookup(c.vars).Keys && c.installNamespace == ADDON_AGENT_NAMESPACE
    requires forall n :: n in managed ==>
                           Written(Some(Lookup(c.vars)[n]), Get(Parse(c.originals), n), managed[n]) == Lookup(c.vars)[n]
    ensures Create(Some(c), managed, pass.override, pass.order) == UpToDate
  {
    var vars := Desired(c, managed, pass.override, pass.order);
    DesiredCells(c, managed, pass);
    forall n | n in Lookup(vars) ensures Lookup(vars)[n] == Lookup(c.vars)[n] {
      if n in managed {
        assert Written(Some(Lookup(c.vars)[n]), Get(Parse(c.originals), n), managed[n]) == Lookup(c.vars)[n];
      }
    }
    EqualVarsIsMapEquality(vars, c.vars);
  }

  /** The GitOpsCluster controller writes, then the image registry controller applies. */
  function Round(c: Config, managed: map<string, string>, pass: Pass, owner: string, spec: RegistrySpec): Config
    requires forall n :: n in pass.order ==> n in managed
  {
    var created := After(c, Create(Some(c), managed, pass.override, pass.order));
    After(created, Apply(created, owner, spec))
  }

  function CellRound(live: Option<string>, original: Option<string>, lastMirrored: Option<string>,
                     desired: string, spec: RegistrySpec): Cell
  {
    Remirror(Cell(Written(live, original, desired), original, lastMirrored), spec)
  }

  function RoundAt(c: Config, managed: map<string, string>, spec: RegistrySpec, n: string): Cell
    requires n in managed
  {
    CellRound(Get(Lookup(c.vars), n), Get(Parse(c.originals), n), Get(Parse(c.lastMirrored), n), managed[n], spec)
  }

  lemma RoundCells(c: Config, managed: map<string, string>, pass: Pass, owner: string, spec: RegistrySpec)
    requires Unique(c.vars) && Lists(pass.order, managed.Keys) && Free(c, owner)
    ensures var c' := Round(c, managed, pass, owner, spec);
            && Unique(c'.vars) && Free(c', owner) && c'.installNamespace == ADDON_AGENT_NAMESPACE
            && Lookup(c'.vars).Keys == Lookup(c.vars).Keys + managed.Keys
            && Apply(c', owner, spec) == UpToDate
            && forall n :: n in managed ==> CellAt(Contents(c'), n) == RoundAt(c, managed, spec, n)
  {
    var created := After(c, Create(Some(c), managed, pass.override, pass.order));
    CreateCells(c, managed, pass);
    ApplyCells(created, owner, spec);
    ApplyIsIdempotent(created, owner, spec);
  }

  /** What a managed variable should end up as. */
  function Target(desired: string, spec: RegistrySpec): string {
    Mirror(desired, spec).GetOr(desired)
  }

  /**
   The original value under which the first round may file the desired value away: an outside edit made
   while the record still named the desired value as original, or the original of a variable whose last
   mirrored value happens to be the desired value.
   */
  function Captured(live: Option<string>, original: Option<string>, lastMirrored: Option<string>,
                    desired: string): Option<string> {
    if original == Some(desired)
    then if live.Some? && live != Some(desired) && lastMirrored != live then live else None
    else if original.Some? && lastMirrored == Some(desired) then original else None
  }

  /**
   The desired value will be taken for a mirrored one: it is mirrorable and also the mirror of the captured original.
   */
  predicate Mistaken(live: Option<string>, original: Option<string>, lastMirrored: Option<string>,
                     desired: string, spec: RegistrySpec)
  {
    var captured := Captured(live, original, lastMirrored, desired);
    captured.Some? && Mirror(captured.value, spec) == Some(desired) && Mirror(desired, spec).Some?
  }

  lemma CellTwoRounds(live: Option<string>, original: Option<string>, lastMirrored: Option<string>,
                      desired: string, spec: RegistrySpec)
    ensures var c1 := CellRound(live, original, lastMirrored, desired, spec);
            var c2 := CellRound(Some(c1.value), c1.original, c1.lastMirrored, desired, spec);
            && (c2.value == Target(desired, spec) <==> !Mistaken(live, original, lastMirrored, desired, spec))
            && Written(Some(c2.value), c2.original, desired) == c2.value
  {
    MirrorReplacesHostOnly(desired, spec);
  }

  predicate MistakenAt(c: Config, managed: map<string, string>, spec: RegistrySpec, n: string)
    requires n in managed
  {
    Mistaken(Get(Lookup(c.vars), n), Get(Parse(c.originals), n), Get(Parse(c.lastMirrored), n), managed[n], spec)
  }

  /**
   From any variables and annotations, two rounds give a managed variable its target value exactly when it is not
   mistaken.
   */
  lemma TwoRoundsConverge(c: Config, managed: map<string, string>, first: Pass, second: Pass, owner: string,
                          spec: RegistrySpec)
    requires Unique(c.vars) && Free(c, owner) && Lists(first.order, managed.Keys) && Lists(second.order, managed.Keys)
    ensures var c2 := Round(Round(c, managed, first, owner, spec), managed, second, owner, spec);
            forall n :: n in managed ==>
                          && n in Lookup(c2.vars)
                          && (Lookup(c2.vars)[n] == Target(managed[n], spec) <==> !MistakenAt(c, managed, spec, n))
  {
    var c1 := Round(c, managed, first, owner, spec);
    var c2 := Round(c1, managed, second, owner, spec);
    RoundCells(c, managed, first, owner, spec);
    RoundCells(c1, managed, second, owner, spec);
    forall n | n in managed
      ensures n in Lookup(c2.vars)
              && (Lookup(c2.vars)[n] == Target(managed[n], spec) <==> !MistakenAt(c, managed, spec, n))
    {
      CellTwoRounds(Get(Lookup(c.vars), n), Get(Parse(c.originals), n), Get(Parse(c.lastMirrored), n), managed[n],
                    spec);
      assert CellAt(Contents(c1), n).value == Lookup(c1.vars)[n];
      assert CellAt(Contents(c2), n).value == Lookup(c2.vars)[n];
    }
  }

  /** After two rounds neither controller writes any more, whatever merge mode and order the next pass uses. */
  lemma TwoRoundsSettle(c: Config, managed: map<string, string>, first: Pass, second: Pass, next: Pass, owner: string,
                        spec: RegistrySpec)
    requires Unique(c.vars) && Free(c, owner)
    requires Lists(first.order, managed.Keys) && Lists(second.order, managed.Keys) && Lists(next.order, managed.Keys)
    ensures var c2 := Round(Round(c, managed, first, owner, spec), managed, second, owner, spec);
            Create(Some(c2), managed, next.override, next.order) == UpToDate && Apply(c2, owner, spec) == UpToDate
  {
    var c1 := Round(c, managed, first, owner, spec);
    var c2 := Round(c1, managed, second, owner, spec);
    RoundCells(c, managed, first, owner, spec);
    RoundCells(c1, managed, second, owner, spec);
    forall n | n in managed
      ensures Written(Some(Lookup(c2.vars)[n]), Get(Parse(c2.originals), n), managed[n]) == Lookup(c2.vars)[n]
    {
      CellTwoRounds(Get(Lookup(c.vars), n), Get(Parse(c.originals), n), Get(Parse(c.lastMirrored), n), managed[n],
                    spec);
      assert CellAt(Contents(c1), n) ==
             Cell(Lookup(c1.vars)[n], Get(Parse(c1.originals), n), Get(Parse(c1.lastMirrored), n));
      assert CellAt(Contents(c2), n) ==
             Cell(Lookup(c2.vars)[n], Get(Parse(c2.originals), n), Get(Parse(c2.lastMirrored), n));
    }
    CreateUpToDate(c2, managed, next);
  }

  // ---------------------------------------------------------------------------------------------
  // From no config at all
  // ---------------------------------------------------------------------------------------------

  /** The first round: the GitOpsCluster controller creates the config, then the image registry controller applies. */
  function FirstRound(managed: map<string, string>, pass: Pass, owner: string, spec: RegistrySpec): Config
    requires forall n :: n in pass.order ==> n in managed
  {
    var created := Create(None, managed, pass.override, pass.order).config;
    After(created, Apply(created, owner, spec))
  }

  lemma CreatedCells(managed: map<string, string>, pass: Pass)
    requires Lists(pass.order, managed.Keys)
    ensures Create(None, managed, pass.override, pass.order).Write?
    ensures var c := Create(None, managed, pass.override, pass.order).config;
            && Unique(c.vars) && Lookup(c.vars) == managed && c.installNamespace == ADDON_AGENT_NAMESPACE
            && c.managedBy.None? && c.originals == Missing && c.lastMirrored == Missing
  {
    LookupAllEntries(pass.order, managed, {});
    assert managed - {} == managed;
  }

  lemma FirstRoundCell(created: Config, c: Config, managed: map<string, string>, spec: RegistrySpec, n: string)
    requires n in managed && Lookup(created.vars) == managed && created.originals == Missing
    requires created.lastMirrored == Missing && n in Lookup(c.vars)
    requires CellAt(Contents(c), n) == Remirror(CellAt(Contents(created), n), spec)
    ensures Lookup(c.vars)[n] == Target(managed[n], spec)
    ensures Written(Some(Lookup(c.vars)[n]), Get(Parse(c.originals), n), managed[n]) == Lookup(c.vars)[n]
  {
    assert CellAt(Contents(created), n) == Cell(managed[n], None, None);
    assert CellAt(Contents(c), n) == Fresh(managed[n], spec);
  }

  /**
   One round is enough: every managed variable has its target value, there are no others, and neither controller writes
   again.
   */
  lemma FirstRoundConverges(managed: map<string, string>, first: Pass, next: Pass, owner: string, spec: RegistrySpec)
    requires Lists(first.order, managed.Keys) && Lists(next.order, managed.Keys)
    ensures var c := FirstRound(managed, first, owner, spec);
            && Unique(c.vars) && Lookup(c.vars) == (map n | n in managed :: Target(managed[n], spec))
            && Create(Some(c), managed, next.override, next.order) == UpToDate && Apply(c, owner, spec) == UpToDate
  {
    var created := Create(None, managed, first.override, first.order).config;
    var c := FirstRound(managed, first, owner, spec);
    CreatedCells(managed, first);
    ApplyCells(created, owner, spec);
    ApplyIsIdempotent(created, owner, spec);
    forall n | n in managed
      ensures Lookup(c.vars)[n] == Target(managed[n], spec)
      ensures Written(Some(Lookup(c.vars)[n]), Get(Parse(c.originals), n), managed[n]) == Lookup(c.vars)[n]
    {
      FirstRoundCell(created, c, managed, spec, n);
    }
    CreateUpToDate(c, managed, next);
  }

  /** No desired value that lies outside the image of the mirroring is ever mistaken. */
  lemma OutsideImageIsNeverMistaken(c: Config, managed: map<string, string>, spec: RegistrySpec)
    requires forall n, value :: n in managed ==> Mirror(value, spec) != Some(managed[n])
    ensures forall n :: n in managed ==> !MistakenAt(c, managed, spec, n)
  {
  }
}
