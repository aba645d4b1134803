/**
 Healing the agent configuration in an ArgoCD Policy: the fields the controller owns are brought to the
 wanted values in every ArgoCD template it manages, and nothing else is touched.
 */
module PolicyHealer {
  import opened Options
  import opened Trees

  datatype Key =
    | Spec | PolicyTemplates | ObjectDefinition | ObjectTemplates | Kind | Metadata | Name | Server | ArgoCDAgent
        | Agent | Image
    | Enabled | AllowedNamespaces | Client | PrincipalServerAddress | PrincipalServerPort | Mode
        | DestinationBasedMapping
    | Tls | SecretName | RootCASecretName | OtherKey(name: string)

  type Policy = Tree<Key>

  type KeyPath = Path<Key>

  const MANAGED_NAME := "acm-openshift-gitops"

  /** The agent's configuration; empty strings stand for what is not given. */
  datatype Config = Config(address: string, port: string, mode: string) {
    function Port(): string {
      if port == "" then "443" else port
    }

    function EffectiveMode(): string {
      if mode == "" then "managed" else mode
    }
  }

  // ---------------------------------------------------------------------------------------------
  // Controlled fields
  // ---------------------------------------------------------------------------------------------

  datatype Controlled = AgentEnabled | Namespaces | Address | ServerPort | ClientMode | Mapping | TlsSecret | TlsRootCA

  const ALL_CONTROLLED: seq<Controlled> := [AgentEnabled, Namespaces, Address, ServerPort, ClientMode, Mapping,
                                            TlsSecret, TlsRootCA]

  function AgentPath(): KeyPath {
    [Field(Spec), Field(ArgoCDAgent), Field(Agent)]
  }

  function Below(f: Controlled): KeyPath {
    match f
    case AgentEnabled => [Field(Enabled)]
    case Namespaces => [Field(AllowedNamespaces)]
    case Address => [Field(Client), Field(PrincipalServerAddress)]
    case ServerPort => [Field(Client), Field(PrincipalServerPort)]
    case ClientMode => [Field(Client), Field(Mode)]
    case Mapping => [Field(DestinationBasedMapping), Field(Enabled)]
    case TlsSecret => [Field(Tls), Field(SecretName)]
    case TlsRootCA => [Field(Tls), Field(RootCASecretName)]
  }

  /** Where the field is, inside a template. */
  function PathOf(f: Controlled): KeyPath {
    AgentPath() + Below(f)
  }

  /** Any list of namespaces that starts with the wildcard will do. */
  function Wanted(f: Controlled, config: Config, now: Option<Policy>): Policy {
    match f
    case AgentEnabled => Flag(true)
    case Namespaces => if now.Some? && now.value.List? && |now.value.items| > 0 && now.value.items[0] == Text("*")
        then now.value else List([Text("*")])
    case Address => Text(config.address)
    case ServerPort => Text(config.Port())
    case ClientMode => Text(config.EffectiveMode())
    case Mapping => Flag(config.EffectiveMode() != "autonomous")
    case TlsSecret => Text("argocd-agent-client-tls")
    case TlsRootCA => Text("argocd-agent-ca")
  }

  /** What is wanted stays wanted. */
  lemma WantedIsStable(f: Controlled, config: Config, now: Option<Policy>)
    ensures Wanted(f, config, Some(Wanted(f, config, now))) == Wanted(f, config, now)
  {
  }

  // ---------------------------------------------------------------------------------------------
  // Templates
  // ---------------------------------------------------------------------------------------------

  /** The object of the j-th object template of the i-th policy template. */
  function Base(i: nat, j: nat): KeyPath {
    [Field(Spec), Field(PolicyTemplates), Item(i), Field(ObjectDefinition), Field(Spec), Field(ObjectTemplates),
     Item(j), Field(ObjectDefinition)]
  }

  predicate Managed(t: Policy, i: nat, j: nat) {
    && At(t, Base(i, j) + [Field(Kind)]) == Some(Text("ArgoCD"))
    && At(t, Base(i, j) + [Field(Metadata), Field(Name)]) == Some(Text(MANAGED_NAME))
  }

  /** The field of the template at `base` is as wanted. */
  predicate IsWanted(t: Policy, base: KeyPath, f: Controlled, config: Config) {
    var now := At(t, base + PathOf(f));
    now == Some(Wanted(f, config, now))
  }

  /** Nothing to heal. */
  ghost predicate Healthy(t: Policy, config: Config) {
    forall i: nat, j: nat, f :: Managed(t, i, j) ==> IsWanted(t, Base(i, j), f, config)
  }

  /** The path has nothing to do with any controlled field of the templates managed in `t`. */
  ghost predicate Foreign(t: Policy, q: KeyPath) {
    forall i: nat, j: nat, f :: Managed(t, i, j) ==> Apart(Base(i, j) + PathOf(f), q)
  }

  /** `u` is `t` healed: the controlled fields as wanted, and the same at every foreign path. */
  ghost predicate IsHealed(t: Policy, u: Policy, config: Config) {
    && (forall i: nat, j: nat, f :: Managed(t, i, j) ==>
          At(u, Base(i, j) + PathOf(f)) == Some(Wanted(f, config, At(t, Base(i, j) + PathOf(f)))))
    && (forall q :: Foreign(t, q) ==> At(u, q) == At(t, q))
  }

  lemma FieldsApart(f: Controlled, g: Controlled)
    requires f != g
    ensures Apart(PathOf(f), PathOf(g))
  {
    BelowApart(f, g);
    ApartAppend(AgentPath(), Below(f), Below(g));
  }

  lemma BelowApart(f: Controlled, g: Controlled)
    requires f != g
    ensures Apart(Below(f), Below(g))
  {
    match f {
      case _ =>
        match g {
          case _ =>
        }
    }
  }

  lemma BasesApart(i: nat, j: nat, i': nat, j': nat)
    requires i != i' || j != j'
    ensures Apart(Base(i, j), Base(i', j'))
  {
    var head: KeyPath := [Field(Spec), Field(PolicyTemplates)];
    var middle: KeyPath := [Field(ObjectDefinition), Field(Spec), Field(ObjectTemplates)];
    var p, q: KeyPath := [Item(i)] + middle + [Item(j), Field(ObjectDefinition)],
    [Item(i')] + middle + [Item(j'), Field(ObjectDefinition)];
    assert Base(i, j) == head + p && Base(i', j') == head + q;
    ApartAppend(head, p, q);
    if i == i' {
      assert p == ([Item(i)] + middle) + [Item(j), Field(ObjectDefinition)]
             && q == ([Item(i)] + middle) + [Item(j'), Field(ObjectDefinition)];
      ApartAppend([Item(i)] + middle, [Item(j), Field(ObjectDefinition)], [Item(j'), Field(ObjectDefinition)]);
    }
  }

  /** No controlled field lies on the way to what makes a template managed, in the same template or another. */
  lemma ControlledApart(i: nat, j: nat, f: Controlled, i': nat, j': nat, rest: KeyPath)
    requires i != i' || j != j' || Apart(PathOf(f), rest)
    ensures Apart(Base(i, j) + PathOf(f), Base(i', j') + rest)
  {
    if i != i' || j != j' {
      BasesApart(i, j, i', j');
      ApartExtends(Base(i, j), Base(i', j'), PathOf(f), rest);
    } else {
      ApartAppend(Base(i, j), PathOf(f), rest);
    }
  }

  lemma KindAndNameApart(f: Controlled)
    ensures Apart(PathOf(f), [Field(Kind)]) && Apart(PathOf(f), [Field(Metadata), Field(Name)])
  {
  }

  lemma KindAndNameForeign(t: Policy, i: nat, j: nat)
    ensures Foreign(t, Base(i, j) + [Field(Kind)]) && Foreign(t, Base(i, j) + [Field(Metadata), Field(Name)])
  {
    forall i': nat, j': nat, f | Managed(t, i', j')
      ensures Apart(Base(i', j') + PathOf(f), Base(i, j) + [Field(Kind)])
      ensures Apart(Base(i', j') + PathOf(f), Base(i, j) + [Field(Metadata), Field(Name)])
    {
      KindAndNameApart(f);
      ControlledApart(i', j', f, i, j, [Field(Kind)]);
      ControlledApart(i', j', f, i, j, [Field(Metadata), Field(Name)]);
    }
  }

  /** Healing manages the same templates as before. */
  lemma HealedManagesSame(t: Policy, u: Policy, config: Config, i: nat, j: nat)
    requires IsHealed(t, u, config)
    ensures Managed(u, i, j) <==> Managed(t, i, j)
  {
    KindAndNameForeign(t, i, j);
  }

  /** A healed policy needs no healing, so a second pass finds nothing to do. */
  lemma HealedIsHealthy(t: Policy, u: Policy, config: Config)
    requires IsHealed(t, u, config)
    ensures Healthy(u, config)
  {
    forall i: nat, j: nat, f | Managed(u, i, j) ensures IsWanted(u, Base(i, j), f, config) {
      HealedManagesSame(t, u, config, i, j);
      WantedIsStable(f, config, At(t, Base(i, j) + PathOf(f)));
    }
  }

  /** The agent's image, in any template, is never written. */
  lemma ImageIsForeign(t: Policy, i: nat, j: nat, rest: KeyPath)
    ensures Foreign(t, Base(i, j) + (AgentPath() + [Field(Image)] + rest))
  {
    forall i': nat, j': nat, f | Managed(t, i', j')
      ensures Apart(Base(i', j') + PathOf(f), Base(i, j) + (AgentPath() + [Field(Image)] + rest))
    {
      ImageApart(f, rest);
      ControlledApart(i', j', f, i, j, AgentPath() + [Field(Image)] + rest);
    }
  }

  lemma ImageApart(f: Controlled, rest: KeyPath)
    ensures Apart(PathOf(f), AgentPath() + [Field(Image)] + rest)
  {
    assert AgentPath() + [Field(Image)] + rest == AgentPath() + ([Field(Image)] + rest);
    ApartAppend(AgentPath(), Below(f), [Field(Image)] + rest);
  }

  /** Templates that are not managed are left alone as a whole. */
  lemma UnmanagedIsForeign(t: Policy, i: nat, j: nat, rest: KeyPath)
    requires !Managed(t, i, j)
    ensures Foreign(t, Base(i, j) + rest)
  {
    forall i': nat, j': nat, f | Managed(t, i', j') ensures Apart(Base(i', j') + PathOf(f), Base(i, j) + rest) {
      ControlledApart(i', j', f, i, j, rest);
    }
  }

  // ---------------------------------------------------------------------------------------------
  // The generator
  // ---------------------------------------------------------------------------------------------

  /** The spec of the ArgoCD resource a new policy gets. */
  function GenerateArgoCDSpec(config: Config): Policy {
    var client: Policy := Object(map[PrincipalServerAddress := Text(config.address),
                                     PrincipalServerPort := Text(config.Port()), Mode := Text(config.EffectiveMode())]);
    var mapping: Policy := Object(map[Enabled := Flag(config.EffectiveMode() != "autonomous")]);
    var tls: Policy := Object(map[SecretName := Text("argocd-agent-client-tls"),
                                  RootCASecretName := Text("argocd-agent-ca")]);
    var agent: Policy := Object(map[Enabled := Flag(true), AllowedNamespaces := List([Text("*")]), Client := client,
                                    DestinationBasedMapping := mapping, Tls := tls]);
    Object(map[Server := Object(map[Enabled := Flag(false)]), ArgoCDAgent := Object(map[Agent := agent])])
  }

  lemma GeneratedFields(config: Config, f: Controlled)
    ensures At(GenerateArgoCDSpec(config), PathOf(f)[1..]) == Some(Wanted(f, config, None))
  {
    var spec := GenerateArgoCDSpec(config);
    assert PathOf(f)[1..] == [Field(ArgoCDAgent), Field(Agent)] + Below(f);
    AtAppend(spec, [Field(ArgoCDAgent), Field(Agent)], Below(f));
    var agent := spec.fields[ArgoCDAgent].fields[Agent];
    AtTwo(spec, Field(ArgoCDAgent), Field(Agent));
    AtTwo(agent, Below(f)[0], if |Below(f)| == 2 then Below(f)[1] else Field(Enabled));
    match f {
      case _ =>
    }
  }

  /** A policy whose managed templates have the generated spec needs no healing. */
  lemma GeneratedIsHealthy(t: Policy, config: Config)
    requires forall i: nat, j: nat :: Managed(t, i, j) ==>
               At(t, Base(i, j) + [Field(Spec)]) == Some(GenerateArgoCDSpec(config))
    ensures Healthy(t, config)
  {
    forall i: nat, j: nat, f | Managed(t, i, j) ensures IsWanted(t, Base(i, j), f, config) {
      GeneratedIsWanted(t, Base(i, j), config, f);
    }
  }

  lemma GeneratedIsWanted(t: Policy, base: KeyPath, config: Config, f: Controlled)
    requires At(t, base + [Field(Spec)]) == Some(GenerateArgoCDSpec(config))
    ensures IsWanted(t, base, f, config)
  {
    var below := PathOf(f)[1..];
    assert base + PathOf(f) == (base + [Field(Spec)]) + below;
    AtAppend(t, base + [Field(Spec)], below);
    GeneratedFields(config, f);
    WantedIsStable(f, config, None);
  }

  // ---------------------------------------------------------------------------------------------
  // The pass
  // ---------------------------------------------------------------------------------------------

  function TemplatesPath(): KeyPath {
    [Field(Spec), Field(PolicyTemplates)]
  }

  function ObjectsPath(i: nat): KeyPath {
    TemplatesPath() + [Item(i), Field(ObjectDefinition), Field(Spec), Field(ObjectTemplates)]
  }

  /** The length of the list at a path; 0 when there is none. */
  function CountAt(t: Policy, path: KeyPath): nat {
    var list := At(t, path);
    if list.Some? && list.value.List? then |list.value.items| else 0
  }

  lemma ManagedInRange(t: Policy, i: nat, j: nat)
    requires Managed(t, i, j)
    ensures At(t, Base(i, j)).Some? && i < CountAt(t, TemplatesPath()) && j < CountAt(t, ObjectsPath(i))
  {
    AtAppend(t, Base(i, j), [Field(Kind)]);
    var rest: KeyPath := [Item(i), Field(ObjectDefinition), Field(Spec), Field(ObjectTemplates), Item(j),
                          Field(ObjectDefinition)];
    assert Base(i, j) == TemplatesPath() + rest;
    AtAppend(t, TemplatesPath(), rest);
    assert Base(i, j) == ObjectsPath(i) + [Item(j), Field(ObjectDefinition)];
    AtAppend(t, ObjectsPath(i), [Item(j), Field(ObjectDefinition)]);
  }

  /** Sets one controlled field, making the objects on the way where there are none, unless it is as wanted. */
  method HealField(t: Policy, base: KeyPath, f: Controlled, config: Config) returns (u: Policy, changed: bool)
    requires At(t, base).Some?
    ensures At(u, base + PathOf(f)) == Some(Wanted(f, config, At(t, base + PathOf(f))))
    ensures forall q :: Apart(base + PathOf(f), q) ==> At(u, q) == At(t, q)
    ensures changed <==> !IsWanted(t, base, f, config)
    ensures !changed ==> u == t
  {
    var path := base + PathOf(f);
    var now := At(t, path);
    var wanted := Wanted(f, config, now);
    u, changed := t, false;
    if now != Some(wanted) {
      u, changed := SetAt(t, path, wanted), true;
      ReachesAppend(t, base, PathOf(f));
      AtSet(t, path, wanted);
      forall q | Apart(path, q) ensures At(u, q) == At(t, q) {
        SetFrame(t, path, wanted, q);
      }
    }
  }

  /** Where the controlled fields of a template are. */
  function Spots(base: KeyPath): (spots: seq<KeyPath>)
    ensures |spots| == |ALL_CONTROLLED| && forall k :: 0 <= k < |ALL_CONTROLLED| ==>
              spots[k] == base + PathOf(ALL_CONTROLLED[k])
  {
    seq(|ALL_CONTROLLED|, k requires 0 <= k < |ALL_CONTROLLED| => base + PathOf(ALL_CONTROLLED[k]))
  }

  ghost predicate PairwiseApart(spots: seq<KeyPath>) {
    forall k, m :: 0 <= k < |spots| && 0 <= m < |spots| && k != m ==> Apart(spots[k], spots[m])
  }

  lemma SpotsApart(base: KeyPath)
    ensures PairwiseApart(Spots(base))
  {
    forall k, m | 0 <= k < |ALL_CONTROLLED| && 0 <= m < |ALL_CONTROLLED| && k != m
      ensures Apart(Spots(base)[k], Spots(base)[m])
    {
      FieldsApart(ALL_CONTROLLED[k], ALL_CONTROLLED[m]);
      ApartAppend(base, PathOf(ALL_CONTROLLED[k]), PathOf(ALL_CONTROLLED[m]));
    }
  }

  ghost predicate ApartFromFirst(n: nat, spots: seq<KeyPath>, q: KeyPath) {
    forall k :: 0 <= k < n <= |spots| ==> Apart(spots[k], q)
  }

  /** What is wanted at a spot, given what is there. */
  function WantedAt(t: Policy, spot: KeyPath, f: Controlled, config: Config): Policy {
    Wanted(f, config, At(t, spot))
  }

  /** The first `n` controlled fields are as wanted in `u`. */
  ghost predicate ValuesDone(t: Policy, u: Policy, spots: seq<KeyPath>, config: Config, n: nat)
    requires n <= |ALL_CONTROLLED| == |spots|
  {
    forall k :: 0 <= k < n ==> At(u, spots[k]) == Some(WantedAt(t, spots[k], ALL_CONTROLLED[k], config))
  }

  /** Nothing else has changed. */
  ghost predicate RestSame(t: Policy, u: Policy, spots: seq<KeyPath>, n: nat) {
    forall q :: ApartFromFirst(n, spots, q) ==> At(u, q) == At(t, q)
  }

  /** Some of the first `n` controlled fields was not as wanted. */
  ghost predicate SomeUnwanted(t: Policy, spots: seq<KeyPath>, config: Config, n: nat)
    requires n <= |ALL_CONTROLLED| == |spots|
  {
    exists k :: 0 <= k < n && At(t, spots[k]) != Some(WantedAt(t, spots[k], ALL_CONTROLLED[k], config))
  }

  /** Progress within a template: the first `n` controlled fields are done. */
  ghost predicate FieldsDone(t: Policy, u: Policy, spots: seq<KeyPath>, config: Config, n: nat, changed: bool) {
    && n <= |ALL_CONTROLLED| == |spots|
    && ValuesDone(t, u, spots, config, n) && RestSame(t, u, spots, n)
    && (changed <==> SomeUnwanted(t, spots, config, n)) && (!changed ==> u == t)
  }

  lemma FieldStep(t: Policy, u: Policy, v: Policy, spots: seq<KeyPath>, config: Config, n: nat, changed: bool,
                  more: bool)
    requires FieldsDone(t, u, spots, config, n, changed) && n < |spots| && PairwiseApart(spots)
    requires At(v, spots[n]) == Some(WantedAt(u, spots[n], ALL_CONTROLLED[n], config))
    requires RestSame(u, v, [spots[n]], 1)
    requires (more <==> At(u, spots[n]) != Some(WantedAt(u, spots[n], ALL_CONTROLLED[n], config))) && (!more ==> v == u)
    ensures FieldsDone(t, v, spots, config, n + 1, changed || more)
  {
    SpotSame(t, u, spots, n);
    ValuesNext(t, u, v, spots, config, n);
    RestNext(t, u, v, spots, n);
    UnwantedNext(t, spots, config, n);
  }

  lemma SpotSame(t: Policy, u: Policy, spots: seq<KeyPath>, n: nat)
    requires n < |spots| && PairwiseApart(spots) && RestSame(t, u, spots, n)
    ensures At(u, spots[n]) == At(t, spots[n])
  {
    assert ApartFromFirst(n, spots, spots[n]);
  }

  lemma ValuesNext(t: Policy, u: Policy, v: Policy, spots: seq<KeyPath>, config: Config, n: nat)
    requires n < |ALL_CONTROLLED| == |spots| && PairwiseApart(spots)
    requires ValuesDone(t, u, spots, config, n) && RestSame(u, v, [spots[n]], 1)
    requires At(v, spots[n]) == Some(WantedAt(t, spots[n], ALL_CONTROLLED[n], config))
    ensures ValuesDone(t, v, spots, config, n + 1)
  {
    forall k | 0 <= k < n ensures At(v, spots[k]) == At(u, spots[k]) {
      assert ApartFromFirst(1, [spots[n]], spots[k]);
    }
  }

  lemma RestNext(t: Policy, u: Policy, v: Policy, spots: seq<KeyPath>, n: nat)
    requires n < |spots| && RestSame(t, u, spots, n) && RestSame(u, v, [spots[n]], 1)
    ensures RestSame(t, v, spots, n + 1)
  {
    forall q | ApartFromFirst(n + 1, spots, q) ensures At(v, q) == At(t, q) {
      assert ApartFromFirst(n, spots, q) && ApartFromFirst(1, [spots[n]], q);
    }
  }

  lemma UnwantedNext(t: Policy, spots: seq<KeyPath>, config: Config, n: nat)
    requires n < |ALL_CONTROLLED| == |spots|
    ensures SomeUnwanted(t, spots, config, n + 1) <==>
              || SomeUnwanted(t, spots, config, n)
              || At(t, spots[n]) != Some(WantedAt(t, spots[n], ALL_CONTROLLED[n], config))
  {
  }

  lemma BaseStays(t: Policy, u: Policy, base: KeyPath, config: Config, n: nat, changed: bool)
    requires FieldsDone(t, u, Spots(base), config, n, changed) && At(t, base + [Field(Kind)]).Some?
    ensures At(u, base).Some?
  {
    forall k | 0 <= k < n ensures Apart(Spots(base)[k], base + [Field(Kind)]) {
      KindAndNameApart(ALL_CONTROLLED[k]);
      ApartAppend(base, PathOf(ALL_CONTROLLED[k]), [Field(Kind)]);
    }
    assert ApartFromFirst(n, Spots(base), base + [Field(Kind)]);
    AtAppend(u, base, [Field(Kind)]);
  }

  /** The next controlled field of the template. */
  method HealNext(ghost t: Policy, u: Policy, base: KeyPath, config: Config, n: nat, changed: bool)
    returns (v: Policy, changedNow: bool)
    requires n < |ALL_CONTROLLED| && FieldsDone(t, u, Spots(base), config, n, changed)
    requires At(t, base + [Field(Kind)]).Some?
    ensures FieldsDone(t, v, Spots(base), config, n + 1, changedNow)
  {
    SpotsApart(base);
    BaseStays(t, u, base, config, n, changed);
    var more;
    v, more := HealField(u, base, ALL_CONTROLLED[n], config);
    forall q | ApartFromFirst(1, [Spots(base)[n]], q) ensures At(v, q) == At(u, q) {
      assert Apart([Spots(base)[n]][0], q);
    }
    FieldStep(t, u, v, Spots(base), config, n, changed, more);
    changedNow := changed || more;
  }

  /** Checks the controlled fields of one template, one after the other. */
  method HealTemplate(t: Policy, base: KeyPath, config: Config) returns (u: Policy, changed: bool)
    requires At(t, base + [Field(Kind)]).Some?
    ensures TemplateDone(t, u, base, config, changed)
  {
    u, changed := t, false;
    for n := 0 to |ALL_CONTROLLED|
      invariant FieldsDone(t, u, Spots(base), config, n, changed)
    {
      u, changed := HealNext(t, u, base, config, n, changed);
    }
    EveryField(t, u, base, config, changed);
  }

  ghost predicate ApartFromTemplate(base: KeyPath, q: KeyPath) {
    forall f :: Apart(base + PathOf(f), q)
  }

  /** The template at `base` is healed, and nothing else has changed. */
  ghost predicate TemplateDone(t: Policy, u: Policy, base: KeyPath, config: Config, changed: bool) {
    && (forall f :: At(u, base + PathOf(f)) == Some(WantedAt(t, base + PathOf(f), f, config)))
    && (forall q :: ApartFromTemplate(base, q) ==> At(u, q) == At(t, q))
    && (changed <==> exists f :: !IsWanted(t, base, f, config))
    && (!changed ==> u == t)
  }

  lemma Position(f: Controlled) returns (k: nat)
    ensures k < |ALL_CONTROLLED| && ALL_CONTROLLED[k] == f
  {
    k := match f
      case AgentEnabled => 0
      case Namespaces => 1
      case Address => 2
      case ServerPort => 3
      case ClientMode => 4
      case Mapping => 5
      case TlsSecret => 6
      case TlsRootCA => 7;
  }

  lemma EveryField(t: Policy, u: Policy, base: KeyPath, config: Config, changed: bool)
    requires FieldsDone(t, u, Spots(base), config, |ALL_CONTROLLED|, changed)
    ensures TemplateDone(t, u, base, config, changed)
  {
    forall f ensures At(u, base + PathOf(f)) == Some(WantedAt(t, base + PathOf(f), f, config)) {
      var k := Position(f);
      assert Spots(base)[k] == base + PathOf(f);
    }
    forall q | ApartFromTemplate(base, q) ensures At(u, q) == At(t, q) {
      assert ApartFromFirst(|ALL_CONTROLLED|, Spots(base), q);
    }
    if f :| !IsWanted(t, base, f, config) {
      var k := Position(f);
      assert Spots(base)[k] == base + PathOf(f);
    }
    if changed {
      var k :| 0 <= k < |ALL_CONTROLLED|
          && At(t, Spots(base)[k]) != Some(WantedAt(t, Spots(base)[k], ALL_CONTROLLED[k], config));
      assert !IsWanted(t, base, ALL_CONTROLLED[k], config);
    }
  }

  /** Progress within the policy: the templates at `bases` are healed, and nothing else has changed. */
  ghost predicate TemplatesDone(t: Policy, u: Policy, bases: seq<KeyPath>, config: Config, needsUpdate: bool) {
    && (forall b, f :: b in bases ==> At(u, b + PathOf(f)) == Some(WantedAt(t, b + PathOf(f), f, config)))
    && (forall q :: (forall b :: b in bases ==> ApartFromTemplate(b, q)) ==> At(u, q) == At(t, q))
    && (needsUpdate <==> exists b, f :: b in bases && !IsWanted(t, b, f, config))
    && (!needsUpdate ==> u == t)
  }

  lemma TemplateStep(t: Policy, u: Policy, v: Policy, bases: seq<KeyPath>, base: KeyPath, config: Config,
                     needsUpdate: bool, changed: bool)
    requires TemplatesDone(t, u, bases, config, needsUpdate) && TemplateDone(u, v, base, config, changed)
    requires forall b :: b in bases ==> Apart(b, base)
    ensures TemplatesDone(t, v, bases + [base], config, needsUpdate || changed)
  {
    AllWanted(t, u, v, bases, base, config);
    OthersSame(t, u, v, bases, base);
    SomeWanted(t, u, bases, base, config);
  }

  lemma AllWanted(t: Policy, u: Policy, v: Policy, bases: seq<KeyPath>, base: KeyPath, config: Config)
    requires forall b :: b in bases ==> Apart(b, base)
    requires forall b, f :: b in bases ==> At(u, b + PathOf(f)) == Some(WantedAt(t, b + PathOf(f), f, config))
    requires forall q :: (forall b :: b in bases ==> ApartFromTemplate(b, q)) ==> At(u, q) == At(t, q)
    requires forall f :: At(v, base + PathOf(f)) == Some(WantedAt(u, base + PathOf(f), f, config))
    requires forall q :: ApartFromTemplate(base, q) ==> At(v, q) == At(u, q)
    ensures forall f :: At(u, base + PathOf(f)) == At(t, base + PathOf(f))
    ensures forall b, f :: b in bases + [base] ==> At(v, b + PathOf(f)) == Some(WantedAt(t, b + PathOf(f), f, config))
  {
    forall f ensures At(u, base + PathOf(f)) == At(t, base + PathOf(f)) {
      OtherTemplates(bases, base, PathOf(f));
    }
    assert forall b :: b in bases + [base] <==> b in bases || b == base;
    forall b, f | b in bases + [base] ensures At(v, b + PathOf(f)) == Some(WantedAt(t, b + PathOf(f), f, config)) {
      if b in bases {
        TemplateApart(base, b, PathOf(f));
      }
    }
  }

  lemma OthersSame(t: Policy, u: Policy, v: Policy, bases: seq<KeyPath>, base: KeyPath)
    requires forall q :: (forall b :: b in bases ==> ApartFromTemplate(b, q)) ==> At(u, q) == At(t, q)
    requires forall q :: ApartFromTemplate(base, q) ==> At(v, q) == At(u, q)
    ensures forall q :: (forall b :: b in bases + [base] ==> ApartFromTemplate(b, q)) ==> At(v, q) == At(t, q)
  {
    assert forall b :: b in bases + [base] <==> b in bases || b == base;
  }

  /** The new template needs healing now exactly if it needed healing at the start. */
  lemma SomeWanted(t: Policy, u: Policy, bases: seq<KeyPath>, base: KeyPath, config: Config)
    requires forall f :: At(u, base + PathOf(f)) == At(t, base + PathOf(f))
    ensures (exists b, f :: b in bases + [base] && !IsWanted(t, b, f, config)) <==>
              (exists b, f :: b in bases && !IsWanted(t, b, f, config)) || exists f :: !IsWanted(u, base, f, config)
  {
    assert forall b :: b in bases + [base] <==> b in bases || b == base;
    assert forall f :: IsWanted(u, base, f, config) <==> IsWanted(t, base, f, config);
  }

  lemma TemplateApart(base: KeyPath, b: KeyPath, rest: KeyPath)
    requires Apart(b, base)
    ensures ApartFromTemplate(base, b + rest)
  {
    forall f ensures Apart(base + PathOf(f), b + rest) {
      ApartSymmetric(b, base);
      ApartExtends(base, b, PathOf(f), rest);
    }
  }

  lemma OtherTemplates(bases: seq<KeyPath>, base: KeyPath, rest: KeyPath)
    requires forall b :: b in bases ==> Apart(b, base)
    ensures forall b :: b in bases ==> ApartFromTemplate(b, base + rest)
  {
    forall b | b in bases ensures ApartFromTemplate(b, base + rest) {
      ApartSymmetric(b, base);
      TemplateApart(b, base, rest);
    }
  }

  predicate Before(i': nat, j': nat, i: nat, j: nat) {
    i' < i || (i' == i && j' < j)
  }

  /** The bases of the managed templates before the j-th of the i-th list. */
  ghost predicate Found(t: Policy, bases: seq<KeyPath>, i: nat, j: nat) {
    && (forall i': nat, j': nat :: Managed(t, i', j') && Before(i', j', i, j) ==> Base(i', j') in bases)
    && (forall b :: b in bases ==> IsBase(t, b, i, j))
  }

  ghost predicate IsBase(t: Policy, b: KeyPath, i: nat, j: nat) {
    exists i': nat, j': nat :: Managed(t, i', j') && Before(i', j', i, j) && b == Base(i', j')
  }

  lemma FoundNext(t: Policy, bases: seq<KeyPath>, i: nat, j: nat)
    requires Found(t, bases, i, j)
    ensures Managed(t, i, j) ==> Found(t, bases + [Base(i, j)], i, j + 1)
    ensures !Managed(t, i, j) ==> Found(t, bases, i, j + 1)
    ensures j >= CountAt(t, ObjectsPath(i)) ==> Found(t, bases, i + 1, 0)
    ensures forall b :: b in bases ==> Apart(b, Base(i, j))
  {
    var more := if Managed(t, i, j) then bases + [Base(i, j)] else bases;
    forall b | b in bases ensures IsBase(t, b, i, j + 1) && IsBase(t, b, i + 1, 0) && Apart(b, Base(i, j)) {
      var i': nat, j': nat :| Managed(t, i', j') && Before(i', j', i, j) && b == Base(i', j');
      BasesApart(i', j', i, j);
    }
    if Managed(t, i, j) {
      assert Before(i, j, i, j + 1) && IsBase(t, Base(i, j), i, j + 1);
    }
    forall i': nat, j': nat | Managed(t, i', j') && Before(i', j', i, j + 1) ensures Base(i', j') in more {
      if i' == i && j' == j {
        assert more[|bases|] == Base(i, j);
      } else {
        assert Base(i', j') in bases;
      }
    }
    forall i': nat, j': nat | Managed(t, i', j') && Before(i', j', i + 1, 0) && j >= CountAt(t, ObjectsPath(i))
      ensures Base(i', j') in bases
    {
      ManagedInRange(t, i', j');
    }
  }

  lemma ManagedStays(t: Policy, u: Policy, bases: seq<KeyPath>, config: Config, needsUpdate: bool, i: nat, j: nat,
                     i': nat, j': nat)
    requires TemplatesDone(t, u, bases, config, needsUpdate) && Found(t, bases, i', j')
    ensures Managed(u, i, j) <==> Managed(t, i, j)
    ensures Managed(u, i, j) ==> At(u, Base(i, j) + [Field(Kind)]).Some?
  {
    KindAndNameForeign(t, i, j);
    SameAtForeign(t, u, bases, config, needsUpdate, i', j', Base(i, j) + [Field(Kind)]);
    SameAtForeign(t, u, bases, config, needsUpdate, i', j', Base(i, j) + [Field(Metadata), Field(Name)]);
  }

  lemma SameAtForeign(t: Policy, u: Policy, bases: seq<KeyPath>, config: Config, needsUpdate: bool, i: nat, j: nat,
                      q: KeyPath)
    requires TemplatesDone(t, u, bases, config, needsUpdate) && Found(t, bases, i, j) && Foreign(t, q)
    ensures At(u, q) == At(t, q)
  {
    ForeignToFound(t, bases, i, j, q);
  }

  lemma ForeignToFound(t: Policy, bases: seq<KeyPath>, i: nat, j: nat, q: KeyPath)
    requires Found(t, bases, i, j) && Foreign(t, q)
    ensures forall b :: b in bases ==> ApartFromTemplate(b, q)
  {
    forall b | b in bases ensures ApartFromTemplate(b, q) {
      var m: nat, n: nat :| Managed(t, m, n) && Before(m, n, i, j) && b == Base(m, n);
    }
  }

  lemma AllFound(t: Policy, u: Policy, bases: seq<KeyPath>, config: Config, needsUpdate: bool, i: nat)
    requires TemplatesDone(t, u, bases, config, needsUpdate) && Found(t, bases, i, 0)
             && i >= CountAt(t, TemplatesPath())
    ensures IsHealed(t, u, config) && (needsUpdate <==> !Healthy(t, config))
  {
    forall i': nat, j': nat | Managed(t, i', j') ensures Base(i', j') in bases {
      ManagedInRange(t, i', j');
      assert Before(i', j', i, 0);
    }
    forall q | Foreign(t, q) ensures At(u, q) == At(t, q) {
      ForeignToFound(t, bases, i, 0, q);
    }
    if needsUpdate {
      var b, f :| b in bases && !IsWanted(t, b, f, config);
      var m: nat, n: nat :| Managed(t, m, n) && Before(m, n, i, 0) && b == Base(m, n);
      assert !IsWanted(t, Base(m, n), f, config);
    }
  }

  /** Heals the managed templates of every policy template. */
  method HealPolicy(t: Policy, config: Config) returns (u: Policy, needsUpdate: bool)
    ensures IsHealed(t, u, config)
    ensures needsUpdate <==> !Healthy(t, config)
    ensures !needsUpdate ==> u == t
  {
    u, needsUpdate := t, false;
    ghost var bases: seq<KeyPath> := [];
    for i := 0 to CountAt(t, TemplatesPath())
      invariant TemplatesDone(t, u, bases, config, needsUpdate) && Found(t, bases, i, 0)
    {
      for j := 0 to CountAt(t, ObjectsPath(i))
        invariant TemplatesDone(t, u, bases, config, needsUpdate) && Found(t, bases, i, j)
      {
        ManagedStays(t, u, bases, config, needsUpdate, i, j, i, j);
        FoundNext(t, bases, i, j);
        if !Managed(u, i, j) {
          continue;
        }
        ghost var before := u;
        var changed;
        u, changed := HealTemplate(u, Base(i, j), config);
        TemplateStep(t, before, u, bases, Base(i, j), config, needsUpdate, changed);
        bases, needsUpdate := bases + [Base(i, j)], needsUpdate || changed;
      }
      FoundNext(t, bases, i, CountAt(t, ObjectsPath(i)));
    }
    AllFound(t, u, bases, config, needsUpdate, CountAt(t, TemplatesPath()));
  }

  datatype Outcome = Updated | UpToDate | NoPolicy | Unreadable | Malformed | UpdateFailed

  /** Whether a read succeeds, and how an update is answered. */
  datatype Reply = Fine | Conflict | Broken

  const ATTEMPTS := 5

  /** The policy as the API server has it; others write it just before an update of it conflicts. */
  class PolicyStore {
    var policy: Option<Policy>
    var updates: nat
    const readable: nat -> bool
    const onUpdate: nat -> Reply
    const others: nat -> Option<Policy>

    constructor (policy: Option<Policy>, readable: nat -> bool, onUpdate: nat -> Reply, others: nat -> Option<Policy>)
      ensures this.policy == policy && updates == 0
      ensures this.readable == readable && this.onUpdate == onUpdate && this.others == others
    {
      this.policy, updates, this.readable, this.onUpdate, this.others := policy, 0, readable, onUpdate, others;
    }

    /** The policy after `n` conflicts. */
    function Version(start: Option<Policy>, n: nat): Option<Policy> {
      if n == 0 then start else others(n - 1)
    }

    /** One attempt on a policy: its outcome, or None after a conflict. */
    ghost function OutcomeOf(version: Option<Policy>, n: nat, config: Config): Option<Outcome> {
      if !readable(n) then Some(Unreadable)
      else if version.None? then Some(NoPolicy)
      else if CountAt(version.value, TemplatesPath()) == 0 then Some(Malformed)
      else if Healthy(version.value, config) then Some(UpToDate)
      else match onUpdate(n)
        case Fine => Some(Updated)
        case Conflict => None
        case Broken => Some(UpdateFailed)
    }

    /** Reads and heals the policy, and writes it if there was something to heal; None after a conflict. */
    method Attempt(config: Config, n: nat) returns (outcome: Option<Outcome>)
      modifies this
      ensures outcome == OutcomeOf(old(policy), n, config)
      ensures outcome == Some(Updated) ==>
                && policy.Some? && IsHealed(old(policy).value, policy.value, config) && Healthy(policy.value, config)
                && updates == old(updates) + 1
      ensures outcome != Some(Updated) ==> updates == old(updates)
      ensures outcome.Some? && outcome != Some(Updated) ==> policy == old(policy)
      ensures outcome.None? ==> policy == others(n)
    {
      if !readable(n) {
        return Some(Unreadable);
      }
      if policy.None? {
        return Some(NoPolicy);
      }
      if CountAt(policy.value, TemplatesPath()) == 0 {
        return Some(Malformed);
      }
      var healed, needsUpdate := HealPolicy(policy.value, config);
      if !needsUpdate {
        return Some(UpToDate);
      }
      var reply := onUpdate(n);
      if reply == Broken {
        return Some(UpdateFailed);
      }
      if reply == Conflict {
        policy := others(n);
        return None;
      }
      HealedIsHealthy(policy.value, healed, config);
      policy := Some(healed);
      updates := updates + 1;
      return Some(Updated);
    }

    /**
     Tries again after a conflict, on what is there by then, and gives up after the last attempt. The policy is
     written exactly when some version met was not healthy and the update went through, and then it is healed.
     */
    method ReconcileArgoCDPolicyAgentSpec(config: Config) returns (outcome: Outcome, ghost n: nat)
      modifies this
      ensures n <= ATTEMPTS && forall m: nat :: m < n ==> OutcomeOf(Version(old(policy), m), m, config).None?
      ensures if n < ATTEMPTS then Some(outcome) == OutcomeOf(Version(old(policy), n), n, config)
              else outcome == UpdateFailed
      ensures outcome == Updated ==>
                && Version(old(policy), n).Some? && policy.Some? && updates == old(updates) + 1
                && IsHealed(Version(old(policy), n).value, policy.value, config) && Healthy(policy.value, config)
      ensures outcome != Updated ==> policy == Version(old(policy), n) && updates == old(updates)
    {
      n := 0;
      for i := 0 to ATTEMPTS
        invariant n == i && policy == Version(old(policy), n) && updates == old(updates)
        invariant forall m: nat :: m < n ==> OutcomeOf(Version(old(policy), m), m, config).None?
      {
        var attempt := Attempt(config, i);
        if attempt.Some? {
          return attempt.value, n;
        }
        n := n + 1;
      }
      return UpdateFailed, n;
    }
  }
}
