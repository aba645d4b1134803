# A verified model of the multicluster GitOps controllers

This Dafny project models the controllers that connect Open Cluster Management with Argo CD, as state
machines over an API server whose calls may fail, and proves what they keep and what they reach. The
algorithms that work by loops and updates are methods and classes; each is proved against a function or
a predicate about which the laws are then proved.

- **Image mirroring** (`ImageMirroring`, `AddOnConfigMerge`, `MirrorProtocol`, `MirrorRuns`, `MirrorHub`).
  Two controllers share the variables of an AddOnDeploymentConfig: one writes source values, the other
  mirrors them and records originals and last-mirrored values in annotations. Two rounds always bring
  both to rest. They bring a variable to the mirror of its desired value exactly when it is not
  *mistaken*: the desired value is mirrorable, and it is also the mirror of an original that the first
  round records. Applying is idempotent and reversible over arbitrary runs, and ownership is exclusive.
- **GitOpsCluster conditions and reconcile** (`GitOpsClusterConditions`, `GitOpsClusterReconcile`). Ready is
  a summary of the other conditions, whatever order these are updated in. A reconcile is followed from
  any earlier conditions through all its exits. With the agent on and the addon off, four conditions are
  not written by a successful reconcile, and a False left there keeps Ready False; in every other setup
  nothing stale survives, unless the status is read back after its writes were lost.
- **OLM on the spoke** (`Olm`, `OlmLog`, `OlmAgent`, `OlmCleanup`, `CleanupLoops`). One pass gets the
  operator's subscription out of every stuck state; a log of all reads and writes shows that only the
  addon's own objects are touched and that no change goes unlogged; the two waiting loops of the removal
  are characterized exactly. The code's comment says that a missing InstallPlan is skipped when a ghost
  install is removed; the model follows the code, which tries to delete an object without a name then,
  to no effect.
- **Pull model** (`ManifestWorks`, `PropagationHistory`, `Propagation`, `StatusHandback`). Others edit the
  Application and write works between any two calls of its reconcile, and all that happens is kept as a
  history. No sync or refresh request gets lost, the finalizer outlives the work, and the sweep freezes
  exactly the works the controller generates, until a propagation thaws them. A reported status comes
  back with the last health reported.
- **Reports** (`Sorting`, `Aggregation`, `Reports`). Paging does not matter, figures add up, lists are
  sorted and unique, and comparison is comparison up to order exactly when entries that sort alike are alike.
- **Cluster secrets** (`ClusterSecrets`). Replacing secrets is safe at every step under any failures.
  A secret is stranded without its label exactly when its deletion and the restoring patch are both
  refused, and then no later pass finds it.
- **Policy healing** (`Trees`, `PolicyHealer`). Healing a JSON tree is idempotent, with a frame over all paths.

`Options` holds the optional value and map lookup. `dafny verify dfyconfig.toml` checks everything.

## Model

| member | source | states |
|---|---|---|
| `ImageMirroring.ComputeMirroredValue` | pkg/controller/gitopscluster/imageregistry_controller.go:619-656 | succeeds exactly when the host has a last matching registry entry other than itself; no host, no registries or an identical host give the value back |
| `ImageMirroring.LastMatchWins` | pkg/controller/gitopscluster/imageregistry_controller.go:637-648 | an entry decides exactly when it matches and no later entry does |
| `ImageMirroring.NoMatchNoMirror` | pkg/controller/gitopscluster/imageregistry_controller.go:637-651 | there is no mirror exactly when no entry matches |
| `ImageMirroring.MirrorReplacesHostOnly` | pkg/controller/gitopscluster/imageregistry_controller.go:650-655 | a mirrored value ends in the source's text from the first slash on and is never the source itself |
| `ImageMirroring.UpdateVariable` | pkg/controller/gitopscluster/imageregistry_controller.go:561-603 | one variable: recompute from the recorded original while the last mirrored value is still in place, otherwise start from the live value; `changed` exactly when the value differs |
| `ImageMirroring.ComputeUpdatedVariables` | pkg/controller/gitopscluster/imageregistry_controller.go:547-608 | the loop gives every variable its new value and both records theirs, and reports a change exactly when the list differs |
| `ImageMirroring.AddOnDeploymentConfig.ApplyImageMirroring` | pkg/controller/gitopscluster/imageregistry_controller.go:475-527 | refuses a config of another owner; otherwise edits variables and all three annotations together, and asks for an update exactly when something differs |
| `ImageMirroring.AddOnDeploymentConfig.RevertAddOnDeploymentConfig` | pkg/controller/gitopscluster/imageregistry_controller.go:769-808 | puts every recorded original back and drops all three annotations, asking for an update exactly when something differs |
| `AddOnConfigMerge.MergeVariables` | pkg/controller/gitopscluster/addon_management.go:111-155 | both merge modes of the variable list, entry by entry and in order |
| `AddOnConfigMerge.PreserveMirroredImageValues` | pkg/controller/gitopscluster/addon_management.go:597-628 | a live value is kept exactly where the recorded original is still the desired value |
| `AddOnConfigMerge.CustomizedVariablesEqual` | pkg/controller/gitopscluster/addon_management.go:573-587 | the comparison that decides whether to write |
| `AddOnConfigMerge.CreateAddOnDeploymentConfig` | pkg/controller/gitopscluster/addon_management.go:63-188 | the write decision: create, leave alone, or write merged and preserved variables with the agent namespace |
| `AddOnConfigMerge.MergeOverridesExisting` | pkg/controller/gitopscluster/addon_management.go:111-155 | both modes and every map iteration order compute the same map: existing overridden by managed; unique names stay unique |
| `AddOnConfigMerge.LookupPreserved` | pkg/controller/gitopscluster/addon_management.go:597-628 | preserving changes values only, and keeps names unique |
| `AddOnConfigMerge.EqualVarsIsMapEquality` | pkg/controller/gitopscluster/addon_management.go:573-587 | on unique names the comparison is equality of the name-to-value maps |
| `MirrorProtocol.ApplyCells` | pkg/controller/gitopscluster/imageregistry_controller.go:547-608 | an apply by the owner (or on an unowned config) does to each variable with its records what one iteration does, and to nothing else |
| `MirrorProtocol.ApplySettles` | pkg/controller/gitopscluster/imageregistry_controller.go:561-603 | after an apply, recomputing from variables and annotations gives the same variables and annotations |
| `MirrorProtocol.ApplyIsIdempotent` | pkg/controller/gitopscluster/imageregistry_controller.go:462-528 | a second apply with the same registries writes nothing, so no value is mirrored twice |
| `MirrorProtocol.CreateCells` | pkg/controller/gitopscluster/addon_management.go:107-188 | what a create pass leaves on every variable, managed or not, for both modes and all orders, and that it keeps the annotations |
| `MirrorProtocol.RoundCells` | pkg/controller/gitopscluster/addon_management.go:107-188 | one create-then-apply round, variable by variable; the apply then has nothing left to do |
| `MirrorProtocol.CellTwoRounds` | pkg/controller/gitopscluster/imageregistry_controller.go:561-603 | for one variable from any value and records: two rounds reach mirror(desired) exactly when the desired value is not mistaken for a mirrored one, and a third changes nothing |
| `MirrorProtocol.TwoRoundsConverge` | pkg/controller/gitopscluster/imageregistry_controller.go:547-608 | joint convergence: from any variables and annotations without a foreign owner, two rounds give every managed variable its target exactly when it is not mistaken |
| `MirrorProtocol.TwoRoundsSettle` | pkg/controller/gitopscluster/addon_management.go:159-188 | after two rounds neither controller writes again, mistaken variables included |
| `MirrorProtocol.CreatedCells` | pkg/controller/gitopscluster/addon_management.go:63-106 | a config created from nothing holds exactly the managed values, without annotations |
| `MirrorProtocol.FirstRoundConverges` | pkg/controller/gitopscluster/addon_management.go:63-188 | without a config at first, one round gives every managed variable its target, and neither controller writes again |
| `MirrorProtocol.OutsideImageIsNeverMistaken` | pkg/controller/gitopscluster/imageregistry_controller.go:547-608 | a desired value outside the image of the mirroring is never mistaken, so it always converges |
| `MirrorRuns.StepKeepsBooks` | pkg/controller/gitopscluster/imageregistry_controller.go:505-521 | every apply, revert, failed update or outside write keeps owner mark, originals and last-mirrored values together, over the same variables |
| `MirrorRuns.BookkeepingOverRuns` | pkg/controller/gitopscluster/imageregistry_controller.go:505-521 | in every reachable state the owner mark is there exactly when an original is recorded, and both records have the same keys |
| `MirrorRuns.ForeignEventsAreInvisible` | pkg/controller/gitopscluster/imageregistry_controller.go:475-487 | while one registry owns the config, whatever other registries attempt leaves the whole run as if it had not happened |
| `MirrorRuns.OthersCannotEvict` | pkg/controller/gitopscluster/imageregistry_controller.go:475-487 | other registries and outside writes never change the owner or its records |
| `MirrorRuns.RunsAreFaithful` | pkg/controller/gitopscluster/imageregistry_controller.go:547-608 | over applies and reverts of any registries each variable is its starting value or has it on record |
| `MirrorRuns.MirroringIsReversible` | pkg/controller/gitopscluster/imageregistry_controller.go:769-808 | from an unmarked config, any applies and reverts under changing registries with failing updates, then one revert by the owner, restore exactly the starting config |
| `MirrorRuns.CreateIsAnOutsideWrite` | pkg/controller/gitopscluster/addon_management.go:107-188 | the create pass only changes variables and the install namespace, so it is covered by the runs |
| `MirrorRuns.ChainedRegistriesSwallowTheDesiredValue` | pkg/controller/gitopscluster/imageregistry_controller.go:561-603 | a concrete mistaken variable: with registries a to b and b to c it settles on a value that is not the target |
| `MirrorHub.Hub.FindGitOpsAddonDeploymentConfig` | pkg/controller/gitopscluster/imageregistry_controller.go:661-687 | the config of a cluster's addon: its first reference of the right kind, with the cluster as default namespace |
| `MirrorHub.Hub.ApplyImageMirroring` | pkg/controller/gitopscluster/imageregistry_controller.go:462-528 | one cluster: changes the found config only, as an apply does, and nothing when a call fails; succeeds exactly when no call fails and no other registry owns the config |
| `MirrorHub.ApplyRespectsOwners` | pkg/controller/gitopscluster/imageregistry_controller.go:475-487 | over all clusters, a config stamped by another registry is never touched and the only stamp set is one's own |
| `MirrorHub.Hub.RevertImageMirroring` | pkg/controller/gitopscluster/imageregistry_controller.go:702-749 | exactly the stamped configs reached through a placed cluster's addon or, outside placed namespaces, by the cluster-wide list are reverted; success exactly when no call it depends on failed |
| `MirrorHub.Hub.RevertPlaced` | pkg/controller/gitopscluster/imageregistry_controller.go:704-722 | the placed clusters' part of the revert |
| `MirrorHub.RevertCoverage` | pkg/controller/gitopscluster/imageregistry_controller.go:702-749 | after an error-free revert a stamp remains exactly on stamped configs in a placed namespace that no placed addon leads to; all unstamped configs are untouched |
| `MirrorHub.RevertLeavesNoStamp` | pkg/controller/gitopscluster/imageregistry_controller.go:702-749 | when every stamped config in a placed namespace is the one that cluster's addon references, no stamp of the owner is left anywhere |
| `MirrorHub.RepointedAddonKeepsItsStamp` | pkg/controller/gitopscluster/imageregistry_controller.go:724-731 | a concrete case in which an error-free revert leaves a stamp: the addon was pointed elsewhere |
| `MirrorHub.ManagedClusterImageRegistry.ReconcileDelete` | pkg/controller/gitopscluster/imageregistry_controller.go:386-404 | the finalizer goes exactly when the revert was error-free and the update succeeded, which is when the pass succeeds; other finalizers stay |
| `MirrorHub.ManagedClusterImageRegistry.Reconcile` | pkg/controller/gitopscluster/imageregistry_controller.go:316-381 | configs are written only with the finalizer in place; it is dropped only in a pass whose revert reached everything; applying leaves exactly the applied configs; and exactly when the pass succeeds |
| `GitOpsClusterConditions.Replaced` | pkg/apis/apps/v1beta1/gitopscluster_types.go:297-303 | overwriting a condition keeps one condition per type and changes that type only |
| `GitOpsClusterConditions.Appended` | pkg/apis/apps/v1beta1/gitopscluster_types.go:307-314 | appending a condition of a new type keeps one per type and adds that type only |
| `GitOpsClusterConditions.GitOpsClusterStatus.SetCondition` | pkg/apis/apps/v1beta1/gitopscluster_types.go:289-315 | sets one type, keeps one condition per type, and keeps the transition time unless the status changes |
| `GitOpsClusterConditions.GitOpsClusterStatus.GetCondition` | pkg/apis/apps/v1beta1/gitopscluster_types.go:318-325 | finds the status of a type, or that there is none |
| `GitOpsClusterConditions.GitOpsClusterStatus.HasError` | pkg/controller/gitopscluster/gitopscluster_controller.go:1742-1768 | true exactly when some condition other than Ready is False |
| `GitOpsClusterConditions.GitOpsClusterStatus.CriticalConditions` | pkg/controller/gitopscluster/gitopscluster_controller.go:1771-1816 | exactly the types that the spec makes critical |
| `GitOpsClusterConditions.GitOpsClusterStatus.UpdateReadyCondition` | pkg/controller/gitopscluster/gitopscluster_controller.go:1738-1840 | Ready becomes False, True or Unknown as the summary of all other conditions says, and no other condition changes |
| `GitOpsClusterConditions.SummaryIgnoresReady` | pkg/controller/gitopscluster/gitopscluster_controller.go:1738-1840 | the summary depends on the other statuses only, not on the old Ready or any reason |
| `GitOpsClusterConditions.ReadyMeans` | pkg/controller/gitopscluster/gitopscluster_controller.go:1742-1838 | Ready is False exactly when another condition is, True exactly when none is and all critical ones are True, and Unknown otherwise |
| `GitOpsClusterConditions.UpdatesAddUp` | pkg/controller/gitopscluster/gitopscluster_controller.go:1710-1728 | after any sequence of updates the conditions are those of a single update with them all, so no intermediate Ready shows |
| `GitOpsClusterConditions.GitOpsClusterStatus.UpdateConditions` | pkg/controller/gitopscluster/gitopscluster_controller.go:1710-1728 | whatever order the updates are made in, the conditions by type end as the old ones overridden by the updates, with Ready as their summary and times moved only by status changes |
| `GitOpsClusterConditions.ProgressStep` | pkg/controller/gitopscluster/gitopscluster_controller.go:1718-1724 | one update more, whichever comes next, keeps the state determined by the set of updates made |
| `GitOpsClusterReconcile.SummaryOnBoard` | pkg/controller/gitopscluster/gitopscluster_controller.go:1738-1840 | Ready written out over the fourteen statuses is the summary over the condition list |
| `GitOpsClusterReconcile.Reconciliation.InitializeConditions` | pkg/controller/gitopscluster/gitopscluster_controller.go:480-526 | adds exactly the missing conditions that the spec asks for, as Unknown |
| `GitOpsClusterReconcile.Reconciliation.UpdateAll` | pkg/controller/gitopscluster/gitopscluster_controller.go:1710-1728 | after an update Ready is the summary of the resulting statuses |
| `GitOpsClusterReconcile.Reconciliation.Fail` | pkg/controller/gitopscluster/gitopscluster_controller.go:567-583 | a failed step leaves Ready False, in the store too when the write succeeds |
| `GitOpsClusterReconcile.Reconciliation.Prepare` | pkg/controller/gitopscluster/gitopscluster_controller.go:550-805 | validation, policy template, Argo server, ApplicationSet resources and placement: which exits there are, and otherwise the statuses in memory and, for any outcome of the four writes, in the store |
| `GitOpsClusterReconcile.Reconciliation.PrepareAgent` | pkg/controller/gitopscluster/gitopscluster_controller.go:810-1016 | secrets, certificates and endpoint; when the endpoint is discovered the status in memory becomes the stored one, whatever that is |
| `GitOpsClusterReconcile.Reconciliation.DeployAddon` | pkg/controller/gitopscluster/gitopscluster_controller.go:1018-1355 | template, policy, configs and addons: which exits there are, and which statuses are True otherwise |
| `GitOpsClusterReconcile.Reconciliation.RegisterClusters` | pkg/controller/gitopscluster/gitopscluster_controller.go:1357-1499 | CA, registration and CA propagation |
| `GitOpsClusterReconcile.Reconciliation.FinalUpdates` | pkg/controller/gitopscluster/gitopscluster_controller.go:1514-1617 | the last update makes True exactly the statuses the spec leaves to it |
| `GitOpsClusterReconcile.ReadyAtEnd` | pkg/controller/gitopscluster/gitopscluster_controller.go:1514-1630 | what was reached after the preparation determines Ready at the end, in closed form |
| `GitOpsClusterReconcile.ReadyFromStart` | pkg/controller/gitopscluster/gitopscluster_controller.go:955-1016 | unless the status is read back with the fourth write lost, Ready at the end follows from the start in closed form |
| `GitOpsClusterReconcile.LostWritesBringTheStoreBack` | pkg/controller/gitopscluster/gitopscluster_controller.go:955-1016 | with all four writes lost and the status read back, the run ends as from the stored conditions: a server once recorded as missing keeps Ready False |
| `GitOpsClusterReconcile.NothingStaleSurvives` | pkg/controller/gitopscluster/gitopscluster_controller.go:1603-1616 | Ready at the end ignores every earlier condition exactly when the addon is on, the agent is off, or an optional step failed |
| `GitOpsClusterReconcile.Reconciliation.ReconcileGitOpsCluster` | pkg/controller/gitopscluster/gitopscluster_controller.go:543-1630 | from any earlier conditions, one per type, in memory and in the store, for any outcome of each write: an error exit leaves Ready False, in the store too if the last write succeeded; the end is reached only if all mandatory steps succeed, and always then if all writes do, and Ready is then the closed form of what was reached |
| `Olm.PassSettles` | gitopsaddon/gitopsaddon_install.go:138-165 | one failure-free pass ends with a labelled subscription of the desired settings, no InstallPlanMissing and no ghost install, exactly when the subscription was absent or labelled; an unlabelled one is left alone, as are other subscriptions and all CSVs |
| `Olm.SettledStays` | gitopsaddon/gitopsaddon_install.go:480-634 | on a settled state a pass writes no subscription |
| `Olm.PassIsIdempotent` | gitopsaddon/gitopsaddon_install.go:138-165 | a second pass changes nothing at all |
| `Olm.CleanupIsExact` | gitopsaddon/gitopsaddon_cleanup.go:242-338 | failure-free cleaning removes every subscription of the addon in the swept namespaces, keeps all others and each CSV they name unless the addon installed it |
| `OlmAgent.Spoke.RecoverFromFailedWebhookInstallPlan` | gitopsaddon/gitopsaddon_install.go:310-364 | deletes at most the referenced InstallPlan, only when a webhook failure is reported, and then always if no call fails |
| `OlmAgent.Spoke.RecoverFromGhostCompleteInstallPlan` | gitopsaddon/gitopsaddon_install.go:390-474 | acts only on a labelled subscription that expects a CSV and has it installed or its plan complete; without failures it deletes subscription and plan exactly in the ghost states |
| `OlmAgent.Spoke.OlmSubscriptionNeedsUpdate` | gitopsaddon/gitopsaddon_install.go:480-516 | without failures true exactly when create-or-update would write; never false when it would |
| `OlmAgent.Spoke.CreateOrUpdateOLMSubscription` | gitopsaddon/gitopsaddon_install.go:521-634 | ensures the namespace first; without failures writes the subscription exactly when needed and ends in the specified state; with failures it still touches only an own target |
| `OlmAgent.Spoke.AwaitDeletion` | gitopsaddon/gitopsaddon_install.go:588-603 | success means that the subscription was seen gone |
| `OlmAgent.Spoke.EnsureNamespace` | gitopsaddon/gitopsaddon_install.go:561-573 | succeeds exactly when the namespace is there or can be created, and creates no other |
| `OlmCleanup.IsCsvReferencedByAnySubscription` | gitopsaddon/gitopsaddon_cleanup.go:500-522 | unreferenced only if the listing just made shows no claim or the kind is unknown; exact when nothing fails |
| `OlmCleanup.DeleteRemainingGitOpsCSVs` | gitopsaddon/gitopsaddon_cleanup.go:458-493 | without failures deletes exactly the operator's unclaimed CSVs of the namespace |
| `OlmCleanup.MigrateSubscriptionFromNamespace` | gitopsaddon/gitopsaddon_install.go:689-753 | without failures the state is exactly the migrated one; an unlabelled subscription stops it, sweep included |
| `OlmCleanup.GetInstalledCSVsFromLabeledSubscriptions` | gitopsaddon/gitopsaddon_cleanup.go:526-551 | every CSV returned was seen installed by a labelled subscription of the namespace; without failures all of them are |
| `OlmCleanup.DeleteSubscriptionsInNamespace` | gitopsaddon/gitopsaddon_cleanup.go:555-580 | deletes labelled subscriptions only, without failures all of them |
| `OlmCleanup.DeleteOLMResources` | gitopsaddon/gitopsaddon_cleanup.go:242-338 | without failures exactly the cleaned-up state, `found` exactly when the addon had a subscription there, and the conversion webhook patched away |
| `OlmCleanup.InstallViaOLMSubscription` | gitopsaddon/gitopsaddon_install.go:95-165 | migration, recovery and installation in order; without failures the exact end state, settled exactly when the target was absent or the addon's own; on a settled target with nothing to migrate no subscription is written and the webhook is left alone |
| `OlmCleanup.InstallAfterMigration` | gitopsaddon/gitopsaddon_install.go:138-167 | without failures exactly one pass, with the service webhook patched away exactly when the subscription is going to be written |
| `OlmCleanup.SettledThroughMigrations` | gitopsaddon/gitopsaddon_install.go:120-127 | migrating from other namespaces leaves a settled target settled |
| `OlmCleanup.PatchConversionWebhook` | gitopsaddon/gitopsaddon_cleanup.go:344-431 | without failures a webhook is patched away; before an installation only one that names a service |
| `OlmCleanup.Run` | gitopsaddon/gitopsaddon_cleanup.go:458-580 | over any run of installs, clean-ups and changes by others, with any calls failing: every operation leaves the subscriptions of others alone, only labelled ones were ever updated or deleted, each deleted CSV was seen installed by one or was the operator's and found unclaimed by the call just before, and whatever an operation changed in the state it has logged |
| `CleanupLoops.DeleteArgoCDCR` | gitopsaddon/gitopsaddon_cleanup.go:584-648 | stops at the first poll at which the kind is unknown or nothing has been there, without a failed poll, for 15 seconds; deletes whatever it sees before |
| `CleanupLoops.SinceIsEarliest` | gitopsaddon/gitopsaddon_cleanup.go:610-624 | measuring from the start of the current run of empty polls finds stability exactly when there is any |
| `CleanupLoops.SuccessIsStable` | gitopsaddon/gitopsaddon_cleanup.go:584-648 | on success all polls of the last 15 seconds succeeded and saw nothing |
| `CleanupLoops.DeleteResourcesByType` | gitopsaddon/gitopsaddon_cleanup.go:747-804 | deletes exactly the non-terminating foreign items; clean exactly when every kind was listed and showed only the removal's own, non-terminating roles |
| `CleanupLoops.DeleteResourcesWithRetry` | gitopsaddon/gitopsaddon_cleanup.go:692-735 | at most ceil(maxWait / 5 s) sweeps, which delete exactly what each is to delete; succeeds in the loop exactly at the first clean sweep in time, and after it exactly when the final look finds nothing |
| `CleanupLoops.UnlistableCountsAsGone` | gitopsaddon/gitopsaddon_cleanup.go:807-849 | when nothing can be listed the loop never succeeds but the timeout path reports success |
| `ManifestWorks.WorkNamesAreDistinct` | propagation-controller/application/helper.go:101-103 | two Applications share a work name exactly when name and the first five characters of the UID agree |
| `ManifestWorks.LocalizingIsIdempotent` | propagation-controller/application/helper.go:154-170 | rewriting the destination in place does not change what is generated next time |
| `ManifestWorks.WorkDeliversOneApplication` | propagation-controller/application/application_controller.go:300-403 | every manifest but the Application is orphaned on deletion, the feedback entry names that Application, and its destination is in-cluster |
| `ManifestWorks.GeneratedIsRecognised` | propagation-controller/application/pull_model_disable.go:141-155 | every generated work is recognised by the sweep and still enforces its payload |
| `ManifestWorks.FreezingSettles` | propagation-controller/application/pull_model_disable.go:111-137 | freezing is needed exactly when it changes something, and a frozen work needs none |
| `ManifestWorks.SweepingIsIdempotent` | propagation-controller/application/pull_model_disable.go:54-107 | a second sweep changes nothing |
| `ManifestWorks.SetReadOnly` | propagation-controller/application/pull_model_disable.go:128-137 | in place: exactly the applications entries become read-only |
| `ManifestWorks.CheckNeedsReadOnly` | propagation-controller/application/pull_model_disable.go:111-124 | true exactly when some applications entry is not read-only |
| `ManifestWorks.WorkStore.Patch` | propagation-controller/application/pull_model_disable.go:75-92 | re-reads before each of at most four attempts; succeeds exactly when some attempt finds the work frozen or freezes it after nothing but conflicts, and then it is frozen as others had left it by then |
| `ManifestWorks.WorkStore.SweepManifestWorksToReadOnly` | propagation-controller/application/pull_model_disable.go:54-107 | a work not recognised stays; a recognised one ends as some version of it, frozen if it could be patched; without conflicts and failures exactly the recognised works are frozen and nothing else changes, and something is written exactly when something changes |
| `PropagationHistory.DeliveredOrUnsendable` | propagation-controller/application/helper.go:149-152 | the generated work carries exactly the pending requests except operations that are not objects, which clearing drops all the same |
| `PropagationHistory.RemoveFinalizer` | propagation-controller/application/application_controller.go:445-455 | the in-place removal loop is filtering |
| `PropagationHistory.WithoutIsGone` | propagation-controller/application/application_controller.go:445-455 | filtering removes the finalizer and keeps every other |
| `Propagation.Hub.UpdateApplication` | propagation-controller/application/application_controller.go:553-568 | written exactly if the call succeeds and the Application is still the one read, others' edits up to the call included |
| `Propagation.Hub.EnsureWorkDeleted` | propagation-controller/application/application_controller.go:459-491 | the work was found absent or its deletion accepted; nothing else is written |
| `Propagation.Hub.WriteOwnWork` | propagation-controller/application/application_controller.go:525-545 | the generated work is created or replaces the one there; nothing else is written |
| `Propagation.Hub.Release` | propagation-controller/application/application_controller.go:443-499 | exactly what it writes: a deletion of the work unless it is absent, and then, if all went well, the Application without the finalizer |
| `Propagation.Hub.Propagate` | propagation-controller/application/application_controller.go:525-568 | exactly what it writes: the generated work, and then, if there are any, the Application without its requests |
| `Propagation.Hub.Reconcile` | propagation-controller/application/application_controller.go:407-573 | exactly what a reconcile writes, by what it has read, flag and authorization, and that the history in between is the given edits of others; with the flag set nothing happens at all |
| `Propagation.Hub.Run` | propagation-controller/application/application_controller.go:407-573 | over any run with others editing between any two calls, pending requests and all: the world is what the history makes of its start, in which others do what is given and each reconcile writes as it may; in it every request is pending, carried by a work that was written, taken back by a user, or no object; with nobody else about none is taken back |
| `Propagation.Hub.Sweep` | propagation-controller/application/pull_model_disable.go:54-107 | the sweep as one moment of the history: recognised works are frozen without failures, and without conflicts nothing else changes |
| `Propagation.Hub.Disable` | propagation-controller/application/pull_model_disable.go:30-53 | after a sweep without failures, recognised works are frozen and stay so through any reconciles that read the flag |
| `Propagation.ReconcileKeepsOtherWorks` | propagation-controller/application/application_controller.go:438-492 | a reconcile deletes and writes no work but the one under the key of the Application it has read |
| `PropagationHistory.HistoryLosesNothing` | propagation-controller/application/application_controller.go:407-573 | in every lawful history each request issued is pending, sent, withdrawn or unsendable |
| `PropagationHistory.WithdrawnIsHistory` | propagation-controller/application/application_controller.go:547-568 | a request counts as withdrawn exactly if some user's edit replaced or cleared it while it was pending |
| `PropagationHistory.SentIsHistory` | propagation-controller/application/application_controller.go:525-545 | a request counts as sent exactly if some work was written that carries it |
| `PropagationHistory.UnsendableIsHistory` | propagation-controller/application/helper.go:149-152 | a request counts as unsendable exactly if a user issued it as an operation that is not an object |
| `PropagationHistory.EveryRequestIsAccountedFor` | propagation-controller/application/application_controller.go:525-568 | without any ledger: each request is pending, carried by a work written, taken back by a user, or was no object |
| `PropagationHistory.OnlyUsersWithdraw` | propagation-controller/application/application_controller.go:525-568 | the controller issues and withdraws no request: where others do nothing, those withdrawn or never sendable are the ones of the start |
| `PropagationHistory.WorkStays` | propagation-controller/application/pull_model_disable.go:30-53 | a work nobody rewrites stays frozen, or enforcing, through any history |
| `PropagationHistory.PropagationThaws` | propagation-controller/application/application_controller.go:419-424 | a reconcile that goes on, such as one that cannot read the flag, makes the work enforce again, until somebody rewrites it |
| `PropagationHistory.WorkStaysBehind` | propagation-controller/application/application_controller.go:438-441 | a work is only removed under its own key: that of a retargeted Application's earlier target stays behind |
| `Propagation.IsClusterBoundToNamespace` | propagation-controller/application/application_controller.go:112-127 | true exactly when some placement decision of the namespace selects the cluster |
| `Sorting.BelowTotal` | pkg/controller/multiclusterstatusaggregation/multiclusterStatusAggregation_controller.go:79-92 | string order compares any two different strings, one way only |
| `Sorting.BelowTransitive` | pkg/controller/multiclusterstatusaggregation/multiclusterStatusAggregation_controller.go:79-92 | string order is transitive |
| `Sorting.SortIsUnique` | pkg/controller/multiclusterstatusaggregation/multiclusterStatusAggregation_controller.go:482-532 | without conflicting ties there is only one sorted permutation |
| `Sorting.SortingDecides` | pkg/controller/multiclusterstatusaggregation/multiclusterStatusAggregation_controller.go:499-527 | whatever sorting does with ties: two lists always come out equal exactly when one permutes the other and tied entries are the same entry; they can come out equal exactly when one permutes the other |
| `Aggregation.ParseInvertsFormat` | pkg/controller/multiclusterstatusaggregation/multiclusterStatusAggregation_controller.go:692-701 | a namespaced name is read back exactly when it was written without slashes in its parts |
| `Aggregation.ReadStatus` | pkg/controller/multiclusterstatusaggregation/multiclusterStatusAggregation_controller.go:222-242 | the last feedback value of each kind wins, with the defaults for what is not reported |
| `Aggregation.FoldIsLastWrite` | pkg/controller/multiclusterstatusaggregation/multiclusterStatusAggregation_controller.go:244-252 | under each ApplicationSet and cluster the map holds the status of the last work about them, and nothing else |
| `Aggregation.FoldKeys` | pkg/controller/multiclusterstatusaggregation/multiclusterStatusAggregation_controller.go:199-212 | the ApplicationSets of the map are exactly those of the works |
| `Aggregation.AddPage` | pkg/controller/multiclusterstatusaggregation/multiclusterStatusAggregation_controller.go:199-253 | one page extends the fold of the pages before by the fold of its works |
| `Aggregation.GenerateAggregation` | pkg/controller/multiclusterstatusaggregation/multiclusterStatusAggregation_controller.go:174-264 | however the works are paged the map is the fold of the whole list, and a failed listing gives none |
| `Reports.ConditionsAreOrdered` | pkg/controller/multiclusterstatusaggregation/multiclusterStatusAggregation_controller.go:92-92 | the cluster sorter is a strict weak order |
| `Reports.ResourcesAreOrdered` | pkg/controller/multiclusterstatusaggregation/multiclusterStatusAggregation_controller.go:79-85 | the resource sorter, by name and then kind, is a strict weak order |
| `Reports.Summarize` | pkg/controller/multiclusterstatusaggregation/multiclusterStatusAggregation_controller.go:388-421 | in any iteration order the figures count the clusters by health and sync |
| `Reports.CountsAddUp` | pkg/controller/multiclusterstatusaggregation/multiclusterStatusAggregation_controller.go:423-433 | synced and not synced, healthy and not healthy, and the clusters add up, and those in progress are among the unhealthy |
| `Reports.CombinedCovers` | pkg/controller/multiclusterstatusaggregation/multiclusterStatusAggregation_controller.go:436-445 | the combined conditions cover exactly the clusters of works and file, and keep the works' statuses |
| `Reports.GenerateSummary` | pkg/controller/multiclusterstatusaggregation/multiclusterStatusAggregation_controller.go:376-455 | figures as counted; conditions strictly sorted by cluster and exactly the combined ones |
| `Reports.ListIsUnique` | pkg/controller/multiclusterstatusaggregation/multiclusterStatusAggregation_controller.go:447-452 | there is one such list, so the iteration order does not show |
| `Reports.CompareAppSetReports` | pkg/controller/multiclusterstatusaggregation/multiclusterStatusAggregation_controller.go:482-532 | same implies equal labels and figures and permuted lists; the converse holds whenever entries of one name and kind, or of one cluster, are repetitions of the same entry; the lists are only reordered |
| `Reports.SortsAgree` | pkg/controller/multiclusterstatusaggregation/multiclusterStatusAggregation_controller.go:499-511 | equality after any sorting is equality up to order, when tied entries are the same entry |
| `Reports.ComparisonDecides` | pkg/controller/multiclusterstatusaggregation/multiclusterStatusAggregation_controller.go:494-527 | exactly when the comparison is right whatever the sorting does: the lists are permutations of each other and entries of one name and kind, or of one cluster, are the same entry |
| `Reports.ConflictsCanHideEquality` | pkg/controller/multiclusterstatusaggregation/multiclusterStatusAggregation_controller.go:499-511 | two resources of one name and kind that differ otherwise: equal lists whose sorted forms may differ |
| `ClusterSecrets.SafeKeeps` | pkg/controller/gitopscluster/import_clusters.go:620-727 | at any moment of a replacement the new secret, agent-mode secrets and those whose differing server is in use are untouched |
| `ClusterSecrets.ReplacementKeeps` | pkg/controller/gitopscluster/import_clusters.go:648-678 | without failures exactly the new, the agent-mode and the still referenced secrets of the cluster remain |
| `ClusterSecrets.ReplacementIsIdempotent` | pkg/controller/gitopscluster/import_clusters.go:620-727 | a second replacement does nothing |
| `ClusterSecrets.StrandedStays` | pkg/controller/gitopscluster/import_clusters.go:704-721 | a secret left without its label stays over any number of passes in which no call fails, unless a new secret takes its name: it is never retried |
| `ClusterSecrets.Store.ReplaceOne` | pkg/controller/gitopscluster/import_clusters.go:687-725 | at every moment the secret is as it was, without its label, or gone; it is deleted only without its label; it is left without its label exactly when the deletion and the restoring patch are both refused; it counts as deleted by others only if a call found it so |
| `ClusterSecrets.Store.IsOldSecretReferencedByArgoApps` | pkg/controller/gitopscluster/import_clusters.go:741-766 | never false while an Application names the server; exact without failures |
| `ClusterSecrets.Store.CleanupOldArgoClusterSecrets` | pkg/controller/gitopscluster/import_clusters.go:620-727 | every state on the way is safe and every deletion proper, whatever fails; without failures the exact result |
| `ClusterSecrets.Store.AddManagedClustersToArgo` | pkg/controller/gitopscluster/import_clusters.go:167-318 | if the foreign secrets can be listed, every placed cluster's new secret, or its standard names when that failed, leave the orphans; whatever fails, only old secrets of built clusters with the new server or one not in use are deleted, and every spared secret is untouched at every step; without failures the exact secrets and orphans left |
| `ClusterSecrets.Store.AddManagedCluster` | pkg/controller/gitopscluster/import_clusters.go:208-311 | one placed cluster: its claim on the orphans, and every state on the way keeping the spared secrets |
| `ClusterSecrets.Store.CleanupOrphanSecrets` | pkg/controller/gitopscluster/gitopscluster_controller.go:430-478 | deletes only given orphans of clusters known to be gone, without failures all of them |
| `ClusterSecrets.Store.Reconcile` | pkg/controller/gitopscluster/gitopscluster_controller.go:353-428 | whatever fails, every secret deleted in a pass was an old one replaced, with the new server or one not in use, or a listed orphan nobody claimed whose cluster is gone; secrets that are spared, such as those still in use, are untouched at every step; without failures the exact secrets at the end |
| `ClusterSecrets.Store.Run` | pkg/controller/gitopscluster/gitopscluster_controller.go:353-428 | over any number of passes with any failures, spared secrets, and those left without their label whose name is not taken, are untouched unless a call found them deleted by others, one secret by one such call; when none did they are all still there |
| `Trees.AtSet` | pkg/controller/gitopscluster/agent_version_heal.go:338-345 | what is written at a path is read there, missing and non-object ancestors making way |
| `Trees.SetFrame` | pkg/controller/gitopscluster/agent_version_heal.go:338-345 | a write is not seen at any path that parts from it |
| `PolicyHealer.HealTemplate` | pkg/controller/gitopscluster/agent_version_heal.go:250-311 | one template: every controlled field as wanted, nothing else changed, changed exactly when one was not |
| `PolicyHealer.HealPolicy` | pkg/controller/gitopscluster/agent_version_heal.go:205-313 | all policy templates and object templates: healed, with an update exactly when something was not healthy, and otherwise the identical tree |
| `PolicyHealer.HealedIsHealthy` | pkg/controller/gitopscluster/agent_version_heal.go:205-318 | a second pass needs no update |
| `PolicyHealer.ImageIsForeign` | pkg/controller/gitopscluster/agent_version_heal.go:156-162 | the agent's image is never written |
| `PolicyHealer.UnmanagedIsForeign` | pkg/controller/gitopscluster/agent_version_heal.go:233-245 | templates of other kinds or names keep everything |
| `PolicyHealer.HealedManagesSame` | pkg/controller/gitopscluster/agent_version_heal.go:233-245 | healing changes no kind or name, so the same templates are managed afterwards |
| `PolicyHealer.GeneratedFields` | pkg/controller/gitopscluster/argocd_policy.go:329-358 | the generated spec has the wanted value at every controlled field |
| `PolicyHealer.GeneratedIsHealthy` | pkg/controller/gitopscluster/argocd_policy.go:329-358 | a policy with the generated spec needs no healing |
| `PolicyHealer.PolicyStore.ReconcileArgoCDPolicyAgentSpec` | pkg/controller/gitopscluster/agent_version_heal.go:151-334 | at most five attempts, each on the policy as others have left it by then; it is written exactly when a version met was not healthy and the update went through, and then it is healed; every other outcome leaves it as others left it |
| `Trees.SetNestedSets` | propagation-controller/application/application_status_controller.go:132-182 | a nested write that succeeds is the write at that path |
| `StatusHandback.UndrivenKept` | propagation-controller/application/application_status_controller.go:102-216 | fields a report does not drive keep their values |
| `StatusHandback.HealthArrives` | propagation-controller/application/application_status_controller.go:126-154 | the reported health ends in the new status, and without one the old health stays |
| `StatusHandback.HealthyIsWrittenTwice` | propagation-controller/application/application_status_controller.go:127-154 | a Healthy report writes Progressing and then Healthy |
| `StatusHandback.AggregatedNameLeadsBack` | propagation-controller/application/application_status_controller.go:84-89 | the name the aggregation gives a work leads back to the hub Application |
| `StatusHandback.PassHandsBack` | propagation-controller/application/application_status_controller.go:58-262 | after a pass each Application's health is the last non-empty one reported, never the simulated one, and undriven fields are as before |
| `StatusHandback.Hub.BuildStatus` | propagation-controller/application/application_status_controller.go:156-216 | the new status, or none when something is in the way of a field |
| `StatusHandback.Hub.HandBack` | propagation-controller/application/application_status_controller.go:92-259 | one report: exactly its writes, in order; the last is the final status |
| `StatusHandback.Hub.Reconcile` | propagation-controller/application/application_status_controller.go:58-262 | success means that every report was handed back in order, with exactly these writes; without failed calls it fails only when a field cannot be set |

## Left out

- Kubernetes machinery: clients, caches, watches, leader election and requeue intervals. What remains is get, list, create, update and delete, with failures, and conflicts where the argument needs them.
- JSON and YAML text: annotations are maps that may be absent, blank, malformed or encoded; policies and statuses are trees. Messages of conditions are not modelled, reasons are.
- Go's map iteration order is an arbitrary order; the library's sort is represented by a sort with the same contract.
- Strings are compared by character, which for UTF-8 text is the order of its bytes.
- In-place nested maps of the policy healer and the status hand-back are values that are replaced; aliasing between them is not modelled.
- Propagation.Hub.Run: an Application that is gone takes its pending requests with it; for a retargeted Application the release concerns the work of the target it was read with; others rewrite works that are there, but create none under the Application's own work name.
- PropagationHistory.DeliveredOrUnsendable: an operation that is not an object is cleared without having been copied; the Application CRD (hack/crds/application-crd.yaml:57) admits objects only, so this takes a CRD without validation.
- Propagation.Hub.Reconcile: whether the project of the Application can be found and what is in it, and the digest of the ApplicationSet's name, are inputs.
- OlmCleanup.Run: others act between the addon's operations, not in the middle of one; a subscription swapped between a read and the deletion by name is not covered.
- OlmCleanup.InstallViaOLMSubscription: namespace labels, OperatorGroup creation and the wait for the operator's deployment are not modelled.
- OlmAgent.Spoke.CreateOrUpdateOLMSubscription: of the spec the four compared settings are modelled, of the labels the addon's own.
- ClusterSecrets.Store.AddManagedClustersToArgo: how a secret is built from proxy, service account, legacy or blank data, and which clusters have foreign secrets, are inputs; clean-up in the managed cluster's namespace is left out.
- ClusterSecrets.Store.Run: the servers Applications name and the managed clusters stay the same over a run.
- ClusterSecrets.Store.Reconcile: creation of agent-mode secrets, which also claims orphans, is not modelled.
- GitOpsClusterReconcile.Reconciliation.ReconcileGitOpsCluster: the work of each step is reduced to whether it succeeds; the early certificate attempt, which has no effect on conditions, is dropped.
- MirrorHub.Hub.RevertImageMirroring: which calls fail is fixed by object for a whole pass, and nobody else writes configs during one.
- MirrorHub.RevertCoverage: placement resolution is an input, None when it fails, which the revert treats as no cluster.
- CleanupLoops.DeleteArgoCDCR: the polls are a given finite sequence with non-decreasing times; the loop itself has no deadline.
- Addon creation and config references of ManagedClusterAddOns, certificates, keys and tokens, Helm rendering, RBAC and manifest builders, the search client, report files and their clean-up: data and plumbing.
- The Maestro variant of the propagation controller: a weaker twin of the one modelled.
