# Verification of mksrv

mksrv reads a workspace of stacks, tenants and hosts, checks it, and drives remote systems towards it: hosts over SSH,
Keycloak, Postgres, the mesh ACL, DNS. This project models the parts of it that carry state, order or arithmetic, and
proves what they promise. `dafny verify dfyconfig.toml` checks all of it.

- **Dependency graph.** `CatalogCycles` is the three-colour search that reports cycles, `StackOrder` the walk that orders
  a host's stacks. The two are written apart and meet in one result: the order is topological exactly when no cycle runs
  inside the assigned stacks.
- **Reconcilers that fail.** `EnsureRealm` runs against a Keycloak server that may stop answering at any request, and
  `RealmContent` says field by field what a finished run leaves there;
  `FragmentRuns` against an edge whose commands may fail; `DeployRun` against hosts whose writes may or may not have
  happened; both count the commands that fail, so that a run without a failure is known to succeed; `EngineCache` lets the
  process die at every step; `KeyCache` and `Secrets` interleave any number of callers.
- **Grants.** `Grants` gives the provisioning scripts a meaning on a cluster's state, `Isolation` and `Reprovision` say
  who can connect where after any run, `Rights` what a request may become and what else the roles may do, `Success` when
  the runs go through. `MeshPolicy` gives the ACL a meaning on packets.
  `TokenBroker` follows a token from `Verify` to the issued configuration, `TokenKeys` ties its key to the key cache.
- **Printers against parsers.** `Shell` reads quotes, parameters, command substitutions and assignments, and `Commands`
  reads the quoted commands and the `WriteFileSudo` script back with it; `AtomicWrite` runs that script on a disk, to its
  end or to any point before it; `TxtRecord` reads the TXT records and
  `Pointer` the JSON pointers.
- **Allocation.** `Sampler` with `Entropy`, `Ports`, `Capacity`, `Storage`.

Loops and closures that update variables are methods with invariants, proved against a specification function or a
stated property; the properties of the specification are lemmas. Objects whose state changes in place (the search, the
walk, the Keycloak server, the edge, a host) are classes.

## Where the code differs from what is said of it

- An hour is not the bound on a cached key: the duration of the fetch comes on top (`KeyCache.HourAloneIsNoBound`).
- `Extract`: the blank version shares the directory of `dev`, and a marker check that fails for any reason counts as "no
  marker"; in both cases a killed refresh can leave a marked directory that is not whole. A directory is always whole
  exactly when it is not that of `dev` (`EngineCache.AlwaysWholeIff`), given that no check fails where the marker is; if
  one may fail there, none is (`EngineCache.NeverWholeWithFailedChecks`).
- The tenant script leaves the new database open to every role between `CREATE DATABASE` and the `REVOKE`
  (`Isolation.StoppedScript`).
- The comment above `Policy` says tenants cannot reach each other. A route is matched by address alone, so they can
  exactly where a tenant's own route covers the address (`MeshPolicy.TenantsAreApartIff`).
- The port announced in the roster counts all tenants, the container's only the consumers (`Ports.RosterAgreesIff`).
- Two hostnames of a tenant share a fragment path exactly when they have the same runs of letters and digits
  (`FragmentRuns.SharePathIff`), as two do of which one has a dash for a dot of the other
  (`FragmentRuns.SlugsCollide`); all are served exactly when those that share a slug share their fragment
  (`FragmentRuns.AllServedIff`). The globs of two tenants meet when one id followed by a dash begins the other
  (`Fragments.GlobsMeetIffClash`).
- A listing of fragments that fails reads as empty: stray fragments stay, and the run still succeeds. Such a run
  reconciles exactly when every selected tenant was listed in some turn or had no stray (`Fragments.RunReconcilesIff`).
- A run that dies between its writes and the reload leaves Caddy, or systemd, on the old files. The next run writes only
  what differs, finds nothing, and does not reload: a view is right at the end exactly when it was right before or a file
  it reads differed (`DeployRun.DeployStack`, `FragmentRuns.Edge.ProvisionMTASTS`), and the failing runs are
  `DeployRun.DeployAfterCut` and `FragmentRuns.Edge.ProvisionMTASTSAfterCut`. The web run rewrites every wanted fragment,
  so only one that wants nothing, sweeps nothing and changes no gate is left stale (`FragmentRuns.Edge.ProvisionWeb`).
- `EnsureRandom` promises at least nbytes of entropy. It takes as many of 62 letters as it would take of 64, so there are
  fewer texts than values of the bytes, but for a few sizes (`Entropy.EntropyIff`): 32 bytes are among them, the 24 of the
  database passwords are not.
- `WriteFileSudo` promises an atomic write. A run of its script that stops leaves the old file or the whole new one
  (`AtomicWrite.StoppedWriteIsAllOrNothing`), but whole means all that reached `cat`: if the connection is lost on the
  way, `cat` ends well on a part, and the script goes on and renames it into place
  (`AtomicWrite.CompleteWriteReplaces` with that part as the input).
- `pointerToPath` trims the pointer first, so a pointer that ends in white space, and the pointer `/`, get the path of
  another token list (`Pointer.NormalIffUntrimmed`).
- Stacks are ordered by direct dependencies among the assigned ones only (`StackOrder.UnassignedLinkIsNotFollowed`); a
  longer dependency is ordered where its path stays inside the assigned stacks (`StackOrder.PathsWithinAreOrdered`).

## Model

| member | source | states |
|---|---|---|
| CatalogCycles.CheckCatalogCycles | internal/workspace/semantic.go:427-451 | For every catalog and every map order: a cycle is reported exactly when the graph of known dependencies has one, every reported chain is a real path that ends where it has been, every cycle is broken by taking away the last edge of each reported chain (every edge back is reported, not the first alone), and each unknown dependency is reported as often as it is listed |
| CatalogCycles.CycleSearch.constructor | internal/workspace/semantic.go:428-429 | The search starts with an empty state map and its invariant |
| CatalogCycles.CycleSearch.Visit | internal/workspace/semantic.go:430-448 | One call of the recursive closure keeps the search invariant (grey names are the recursion chain), never takes a mark or an issue back, and, while no cycle is reported, leaves the name in the finish order; terminates on every catalog |
| CatalogCycles.CycleSearch.VisitDependencies | internal/workspace/semantic.go:438-446 | The dependency loop reports exactly the unknown dependencies of the stack, and without a cycle issue leaves every known one finished before it |
| CatalogCycles.CycleSearch.VisitDependency | internal/workspace/semantic.go:438-446 | One turn of that loop: an unknown dependency adds its one issue, a known one is visited |
| Catalog.RankedIsAcyclic | internal/workspace/semantic.go:427-451 | A finish order that covers the catalog rules out every cycle |
| Catalog.RevisitIsCycle | internal/workspace/semantic.go:431-434 | A dependency path that meets one of its own names holds a cycle |
| StackOrder.OrderedStacks | internal/cli/hosts.go:770-795 | The recursive walk computes the specification function Ordered on every catalog, cyclic or not |
| StackOrder.OrderWalk.Visit | internal/cli/hosts.go:776-790 | One call of the closure takes the seen set and the order exactly where the specification takes them |
| StackOrder.OrderedListsEachOnce | internal/cli/hosts.go:770-795 | Every assigned stack is listed exactly once and nothing else is |
| StackOrder.OrderedIgnoresArrangement | internal/cli/hosts.go:770-795 | The arrangement of the assigned list does not matter |
| StackOrder.AheadOnlyIfNeeded | internal/cli/hosts.go:770-795 | Apart from that the order is the alphabet's: a stack stands ahead of another only if that one, or one that sorts before it, needs it through assigned stacks, or is it |
| Text.LessEqIff | internal/cli/hosts.go:790 | The order the names are sorted in: one text begins the other, or has the lesser character at the first place where they differ |
| StackOrder.OrderedIsTopologicalIff | internal/cli/hosts.go:770-795 | Every assigned direct dependency precedes its dependent exactly when no cycle of known dependencies runs inside the assigned stacks |
| StackOrder.OrderedIsTopological | internal/cli/hosts.go:770-795 | So a catalog without a cycle, which is what a clean CheckCatalogCycles means, is ordered |
| StackOrder.PathsWithinAreOrdered | internal/cli/hosts.go:770-795 | A longer dependency is ordered too where its path lies inside the assigned stacks: the last stack precedes the first |
| StackOrder.UnassignedLinkIsNotFollowed | internal/cli/hosts.go:781-787 | Outside them it need not be: with a -> b -> c and b unassigned, a is deployed before c |
| Keycloak.ApplyByName | internal/keycloak/reconcile.go:92-197 | Ids only route requests: on names, an accepted request has the same effect whatever ids the server chose |
| RealmGoal.GoalIsStable | internal/keycloak/reconcile.go:79-331 | Whatever part of the work is done, the realm has the same goal left as before |
| RealmGoal.GoalIsFixed | internal/keycloak/reconcile.go:79-331 | A realm at its goal cannot change on the way to it |
| RealmGoal.GoalIsIdempotent | internal/keycloak/reconcile.go:79-331 | The goal of the goal is the goal |
| RealmGoal.HardcodedMapperIsWanted | internal/keycloak/reconcile.go:234-253 | What the goal says of a hardcoded claim, read off it: the claim has its mapper under its own name, unless the groups mapper takes the name |
| RealmContent.GoalDelivers | internal/keycloak/reconcile.go:79-331 | Field by field and in Keycloak's own names: every client of the spec is public or a service account as it asks, with its redirect URIs and its origins or `+`; theme, mail settings, groups, the four roles of the admin group and the mappers are the wanted ones; and nothing else is there that was not before |
| EnsureRealm.Server.EnsureSettings | internal/keycloak/reconcile.go:79-139 | The realm, its theme and its mail settings: cut off anywhere, the realm is on the way to its goal; finished, the settings are the goal's |
| EnsureRealm.Server.EnsureGroups | internal/keycloak/reconcile.go:141-153 | Posts exactly the wanted groups that are missing, in the spec's order, and every wanted group exists at the end |
| EnsureRealm.Server.GrantTeamManagement | internal/keycloak/reconcile.go:277-331 | Maps onto the admin group exactly the existing management roles it lacks; fails exactly when the group or the realm-management client is missing |
| EnsureRealm.Server.EnsureClients | internal/keycloak/reconcile.go:161-192 | Listed clients are rewritten, exactly the missing ones created, with the settings RealmContent.GoalDelivers spells out, and mappers stay |
| EnsureRealm.Server.ApplyClaimMappers | internal/keycloak/reconcile.go:204-272 | Posts the wanted mappers a client lacks by name; a mapper already there keeps its configuration; ends at the goal |
| EnsureRealm.Server.EnsureRealm | internal/keycloak/reconcile.go:79-198 | However a run ends, the goal is where it was and the realm lies between start and goal (nothing removed); a run that is not cut off leaves on the server what the spec asks for, field by field, and its result lists exactly what the spec names and was missing; one that starts at the goal changes nothing and lists nothing as created |
| EnsureRealm.Server.Run | internal/keycloak/reconcile.go:79-198 | The steps in order, with the number of requests a run can need and what the result lists |
| EnsureRealm.Server.RunRepeatedly | internal/keycloak/reconcile.go:79-331 | Convergence: runs cut off at arbitrary requests and then a finished one leave on the server, field by field, what the spec asks for over the realm the first of them found |
| Fragments.GlobsMeetIffClash | internal/cli/web.go:29-32 | The globs of two tenants share a path exactly when one id followed by a dash begins the other |
| Fragments.KindsAreApart | internal/cli/mail_hosting.go:455-457 | No path is listed both as a web and as an MTA-STS fragment |
| Fragments.RunSettlesSelected | internal/cli/web.go:255-279 | Without such ids, any run leaves each selected tenant exactly the fragments it wants |
| Fragments.RunLeavesOthers | internal/cli/web.go:255-279 | ... and the fragments of every other tenant and of the other kind as they were |
| Fragments.RunIgnoresOrder | internal/cli/web.go:255-279 | ... in whatever order the tenants are taken |
| Fragments.SecondRunIsIdle | internal/cli/mail_hosting.go:491-538 | ... and a second run over the same selection finds nothing to change |
| FragmentRuns.RunIsIdleIff | internal/cli/mail_hosting.go:491-538 | ... and a run leaves the files alone exactly when reconciling any selected tenant would |
| Fragments.RunReconcilesIff | internal/cli/web.go:255-279 | Without such ids, a run of which some listings failed leaves the reconciled files exactly when each selected tenant was listed in some turn or had no stray fragment |
| Fragments.RunsTogetherIffNoClash | internal/cli/web.go:255-279 | Two tenants can be reconciled side by side for all files and all wants exactly when their ids do not clash |
| FragmentRuns.WebPathIsListed | internal/cli/web.go:29-32 | The path of a web fragment is listed by its own tenant's glob, whatever the hostname |
| FragmentRuns.CollectWebWants | internal/cli/web.go:255-262 | The loop over the endpoints collects the edge endpoints' fragments, later ones winning |
| FragmentRuns.WebPlanQualifies | internal/cli/web.go:255-262 | What the loop collects lies in the tenant's own glob and in one field of a listing, whatever the hostnames |
| FragmentRuns.CollectMtaWants | internal/cli/mail_hosting.go:500-504 | The loop over the mail domains collects the policy fragments FragmentRuns.PlanIsPublished reads back: those of a tenant whose mail is hosted and that publishes them |
| FragmentRuns.MtaPlanQualifies | internal/cli/mail_hosting.go:500-504 | ... each in the tenant's own glob, in one field of a listing, and not empty |
| FragmentRuns.PlanIsPublished | internal/cli/mail_hosting.go:495-530 | Read off the files a run leaves: a selected tenant whose mail is hosted and that publishes MTA-STS has the policy of each of its domains and no other, and one that does not has none |
| FragmentRuns.ServedIff | internal/cli/web.go:255-262 | An edge endpoint is served exactly when the last edge endpoint of its slug has the same fragment |
| FragmentRuns.AllServedIff | internal/cli/web.go:255-262 | Every edge endpoint of a tenant is served exactly when edge endpoints that share a slug share their fragment |
| FragmentRuns.SlugsCollide | internal/cli/web.go:29-32 | Every hostname with a dot shares its path with the one that has a dash there, and then the earlier of the two sites is not written |
| FragmentRuns.SharePathIff | internal/cli/web.go:29-32 | Two hostnames of a tenant share a fragment path exactly when they have the same runs of letters and digits |
| FragmentRuns.SlugOfLabels | internal/cli/web.go:29-32 | A hostname of lower-case labels gets them with dashes for the dots |
| FragmentRuns.SlugFoldsCase | internal/cli/web.go:29-32 | Capital letters make no difference to the path, nor do the two letters beyond ASCII that Go folds into it |
| FragmentRuns.WebPlanIsPublished | internal/cli/web.go:255-279 | Read off the files a run leaves: a selected tenant has a site for each row of letter-and-digit runs that an edge endpoint asks for and no other, and it is that of the last endpoint that asks for it |
| FragmentRuns.FieldsOfLines | internal/cli/web.go:263-272 | Reading the listing back by fields gives exactly the names listed |
| FragmentRuns.Edge.RemoveStrays | internal/cli/web.go:263-272 | The deletion loop removes exactly the listed fragments that are not wanted; a failed listing removes none |
| FragmentRuns.Edge.WriteChanged | internal/cli/mail_hosting.go:515-529 | Writes only fragments whose content differs; with nothing to change nothing is written |
| FragmentRuns.Edge.WriteAll | internal/cli/web.go:273-279 | Writes every wanted fragment |
| FragmentRuns.Edge.ReconcileMTASTS | internal/cli/mail_hosting.go:496-530 | One tenant: a successful pass leaves the reconciled files, or, after a failed listing, the old files with the wanted ones over them; no pass, failed or not, touches another tenant's fragments |
| FragmentRuns.Edge.PassMTASTS | internal/cli/mail_hosting.go:495-533 | One turn of the loop, the wants of the tenant collected in it |
| FragmentRuns.Edge.PassAllMTASTS | internal/cli/mail_hosting.go:495-533 | The loop; an id the workspace does not have is skipped |
| FragmentRuns.Edge.ProvisionMTASTS | internal/cli/mail_hosting.go:491-538 | The whole run: without a failed command it succeeds, reads every listing and fragment, and leaves every selected tenant with exactly the policies of its domains, or none where it does not publish; it refines HandleAll over the listings that came back; something changes exactly when some selected tenant was not at rest, and then there is one reload; Caddy's view matches the files at a successful end exactly when something changed or it matched before |
| FragmentRuns.Edge.ProvisionMTASTSTwice | internal/cli/mail_hosting.go:491-538 | Two runs without a failed command and without clashing ids: both succeed, the files are the reconciled ones, and the second changes nothing and does not reload |
| FragmentRuns.Edge.ProvisionMTASTSAfterCut | internal/cli/mail_hosting.go:530-538 | A run that dies before its reload, then a whole one that succeeds: it reloads nothing, and Caddy's view, had it matched at first, is left stale exactly when some tenant was not at rest |
| FragmentRuns.Edge.ReconcileWeb | internal/cli/web.go:255-279 | One tenant of the web loop: a successful pass leaves the reconciled files, or, after a failed listing, the old files with the wanted ones over them; it counts a change exactly when something is wanted or a stray was listed; no pass touches another tenant's fragments |
| FragmentRuns.Edge.PassWeb | internal/cli/web.go:201-282 | One turn of the loop: the gate, then the fragments |
| FragmentRuns.Edge.PassAllWeb | internal/cli/web.go:201-282 | The loop over the selected tenants |
| FragmentRuns.Edge.ProvisionWeb | internal/cli/web.go:255-303 | The whole web run, wants collected in it: without a failed command it succeeds, reads every listing, and leaves every selected tenant with exactly the sites its edge endpoints ask for; it refines HandleAll; something changes exactly when a selected tenant wants a fragment or has a listed stray; it reloads exactly then or when a gate unit changed, and Caddy's view matches the files exactly then or when it matched before |
| Deploy.DropEmpty | internal/deploy/stack.go:250-256 | Deletes from the map exactly the blank files |
| Deploy.QuadletUnits | internal/deploy/stack.go:258-268 | Lists, sorted and once each, exactly the units name.service of which some path is dir/name.container |
| Deploy.UnitIff | internal/deploy/stack.go:258-268 | A path stands for a unit exactly when its last component is a name and `.container`, and then for that name and `.service` |
| Deploy.RenderedSurviveIff | internal/deploy/stack.go:76-175 | Read off the final files: every rendered file of the host is there with its content after a deploy exactly when no hook script and not the marker overwrites it with something else |
| Deploy.DeployedIsLaidOut | internal/deploy/stack.go:76-175 | The final files by their paths: the marker, the last hook of each script name, and every rendered file that is not blank, on the edge where it is a Caddy fragment and on the host otherwise |
| Deploy.DeployedIsFixed | internal/deploy/stack.go:76-175 | A consequence of that: the state a deploy leaves is one the same deploy does not change |
| Deploy.Host.SendFile | internal/deploy/stack.go:111-118 | A file is skipped exactly when its checksum was read and its content is already there, and written otherwise; skipped or written, the content is on the host |
| Deploy.Host.ApplyUnits | internal/deploy/stack.go:133-155 | With a Quadlet changed systemd rereads the disk and every unit restarts; without, nothing restarts; it fails exactly when a command does |
| Deploy.Host.RunHooks | internal/deploy/stack.go:195-221 | The scripts run are those of the hooks in their order up to the first failure; each is written below the state directory before it runs |
| Deploy.Host.RunHealthChecks | internal/deploy/stack.go:277-295 | The checks up to the first failure; all pass exactly when each is of a known type and every http and tcp probe answered |
| DeployRun.AnyQuadletMeans | internal/deploy/stack.go:119-124 | The flag is set exactly when some written path is a Quadlet |
| DeployRun.AnyFragmentMeans | internal/deploy/stack.go:119-124 | The other flag is set exactly when some written path is a Caddy fragment sent to the edge |
| DeployRun.WriteLoop | internal/deploy/stack.go:104-125 | After i files, exactly those are on the host each belongs on (edge for Caddy fragments), changed plus unchanged counts them, and the changed ones are those that differed; it ends early only at a file that differed or whose checksum was not read |
| DeployRun.WriteFiles | internal/deploy/stack.go:102-125 | All files are on their hosts and counted; the list of changed files holds every file that differed on its host, once, and nothing else when every checksum was read |
| DeployRun.FlagsTell | internal/deploy/stack.go:119-124 | So the two flags say whether a rendered Quadlet, or a fragment for the edge, differed before the run |
| DeployRun.HooksAndChecks | internal/deploy/stack.go:157-168 | Success is every hook run and every check passed, and the result lists exactly these |
| DeployRun.Push | internal/deploy/stack.go:102-131 | The writes, and one Caddy reload on the edge exactly when a fragment was written there; Caddy's view matches its files exactly then or when it matched before |
| DeployRun.Settle | internal/deploy/stack.go:133-175 | Units, hooks, checks and marker; systemd's view matches the disk when a Quadlet was written; a marker entry that changed, or success, means every hook ran and every check passed |
| DeployRun.Finish | internal/deploy/stack.go:157-175 | If the run succeeds or the marker's entry changes, every hook script ran in order and every check passed, on the host's own logs |
| DeployRun.DeployStack | internal/deploy/stack.go:76-175 | The whole deploy: without a failed command it reads every checksum and succeeds exactly when every check is of a known type; final files on both hosts; the changed files are those that differed; systemd's and Caddy's views match the files at the end exactly when a file of theirs was written, with every checksum read one that differed before, or they matched before; then exactly the units name.service of the rendered dir/name.container restart; the marker only behind all hooks and checks |
| DeployRun.DeployInPlace | internal/deploy/stack.go:76-175 | A deploy with every rendered file already in place writes, restarts and reloads nothing, so a stale view stays stale |
| DeployRun.DeployTwice | internal/deploy/stack.go:76-175 | Two equal deploys without a failed command succeed exactly when every check is known; the second changes no file on either host, restarts nothing and reloads nothing, and both views end as the first deploy leaves them |
| DeployRun.DeployAfterCut | internal/deploy/stack.go:119-136 | A deploy that dies right behind its writes, then a whole one that succeeds: each view that matched at first is left stale exactly when a rendered file it reads differed |
| EngineCache.ReleaseCacheIsWhole | internal/engine/engine.go:112-181 | In every state a directory can reach whose versions carry one tree, crashes at any step included, the marker means exactly the embedded tree, and so does a successful return, as long as no marker check fails while the marker is there |
| EngineCache.PlainVersionsAreApart | internal/engine/engine.go:104-107 | Versions that are not blank and hold no slash have the same directory exactly when they are the same |
| EngineCache.VersionsAreKeptApart | internal/engine/engine.go:104-181 | So, whatever trees different versions carry: in every state the directory of such a version can reach, the marker means the tree of that version, and a process that returns returns for that version and with that tree |
| EngineCache.AlwaysWholeIff | internal/engine/engine.go:112-181 | Over those runs a directory is always whole exactly when it is not the directory of dev |
| EngineCache.NeverWholeWithFailedChecks | internal/engine/engine.go:117-122 | Once such a check may fail, no directory that any version uses is |
| EngineCache.PublishedIsWhole | internal/engine/engine.go:135-150 | Whatever is renamed into place is the whole tree |
| EngineCache.AbortedCopyLeavesDestination | internal/engine/engine.go:130-150 | Only a process whose own copy is complete and marked touches the destination |
| EngineCache.SharedDevDirectoryIsPartial | internal/engine/engine.go:112-122 | A version that shares the directory of dev, as the blank one does, can return a partial tree that a killed dev refresh left |
| EngineCache.FailedStatBreaksRelease | internal/engine/engine.go:117-122 | Any failure of the marker check counts as no marker, and a refresh killed halfway then leaves a marked partial release |
| KeyCache.ReturnedKeyIsRecent | internal/configd/oidc.go:135-156 | Under every interleaving a returned key was served by that issuer less than an hour plus the duration of its fetch ago, also when an older fetch overwrites a newer one |
| KeyCache.NotFoundIsFresh | internal/configd/oidc.go:146-155 | A kid is called missing only on a document fetched during this very call |
| KeyCache.HourAloneIsNoBound | internal/configd/oidc.go:135-156 | The fetch duration is needed: for every duration there is a run that returns a key an hour plus that duration old |
| TokenBroker.VerifyExactly | internal/configd/oidc.go:86-133 | Verify accepts exactly the unexpired RS256 tokens of allowed issuers whose signature holds under that issuer's key |
| TokenKeys.AcceptedIsSignedByIssuer | internal/configd/oidc.go:86-156 | Over the key cache, in any interleaving: the key is one the token's issuer itself served under that kid, less than an hour plus the duration of the fetch before it was returned |
| TokenBroker.NewServer | internal/configd/server.go:51-62 | The loop fills the issuer table with the trimmed issuers, later entries winning |
| TokenBroker.ByIssuerIsTrimmed | internal/configd/server.go:51-62 | Every key of the table is trimmed and leads to an entry of that issuer |
| TokenBroker.ByIssuerIsLast | internal/configd/server.go:51-62 | The table leads from each issuer of the roster, trimmed, to its last entry, and from nothing else |
| TokenBroker.BearerReads | internal/configd/server.go:86-90 | The header `Bearer ` and a token carries that token, and no header without the prefix does |
| Text.TrimSpaceTakes | internal/configd/server.go:86 | Trimming takes white space off both ends and nothing else |
| Text.TrimSpaceEnds | internal/configd/server.go:86 | ... and leaves none at either end |
| TokenBroker.VPNEntitled | internal/configd/oidc.go:36-46 | Entitled exactly when some group is one of the VPN groups |
| TokenBroker.ClientConfig | internal/configd/server.go:82-147 | A configuration is issued exactly when every check passes, for the table entry of the verified issuer; each refusal has its own reason; a mesh key is asked for only for a verified and entitled caller |
| TokenBroker.Serve | internal/configd/server.go:51-147 | On any roster the unknown-realm branch is never taken, the entry used is the last of the issuer that signed the token, and a mesh key is asked for only in the name of that tenant and for a user of it in a VPN group; the header `Bearer ` and an unexpired token signed by an issuer of the roster, for a user in a VPN group, is issued a configuration |
| Grants.TenantDatabaseSQL | internal/cli/database.go:310-387 | The statements are appended in the order the specification script has, each with its privileges, roles and owner |
| Isolation.TenantsAreIsolated | internal/cli/database.go:282-387 | In a cluster kept apart, a tenant's two roles connect to no other tenant's database, transitive membership and PUBLIC included |
| Isolation.JobsKeepApart | internal/cli/database.go:282-387 | Any sequence of complete scripts keeps every tenant apart |
| Isolation.StoppedScript | internal/cli/database.go:338-345 | A script stopped after k statements keeps the tenants apart unless it stopped right after creating the database |
| Isolation.WindowAdmitsEveryone | internal/cli/database.go:338-345 | What the window means: in it every role can connect to the new database |
| Reprovision.RerunChangesNothing | internal/cli/database.go:282-387 | Re-running any script of a run succeeds and leaves the cluster exactly as it is |
| Reprovision.RequestRolesAreReachable | internal/cli/database.go:264-304 | Whatever role the pre-request function selects, the authenticator can become it, and mksrv_app is reachable from the login; which role it selects is Rights.RequestBecomes |
| Rights.MembershipsAre | internal/cli/database.go:282-387 | The memberships after any run are exactly those before and the ones of its jobs, named: the five of the cluster-wide roles, each login in mksrv_owner, each authenticator in mksrv_web |
| Rights.RequestBecomes | internal/cli/database.go:264-304 | After any run, on a cluster where the application's roles are members of nothing else: a login reaches mksrv_owner; a request runs as a role that reaches mksrv_owner exactly for the groups admin and dev, and mksrv_app exactly for those and apps; without claims none is selected |
| Rights.JobsKeepMemberships | internal/cli/database.go:282-387 | No run makes the application's lower roles members of anything, or the owner a member of more than those two |
| Rights.BucketsStayBarred | internal/cli/database.go:282-387 | No run lets one of the four cluster-wide roles log in, or mksrv_web inherit |
| Rights.RolesAreReady | internal/cli/database.go:322-336 | After a run a tenant's login has its password and limit and starts as mksrv_owner, and its authenticator has its password and inherits nothing, whatever the roles were before |
| Rights.DatabasesAre | internal/cli/database.go:338-363 | What any run makes of each database, field by field: a tenant's new one is owned by its own login, PUBLIC is out, exactly its two roles come to those who may connect, its login to those who may create schemas, mksrv_owner to those who may create in public exactly where asked, its extensions are there and its schema leads the search path; a database of no tenant of the run is as it was |
| Reprovision.ConnectExactlyHome | internal/cli/database.go:310-387 | After a run, a tenant role connects to a tenant database exactly when both are the same tenant's |
| Reprovision.AnonIsHealed | internal/cli/database.go:365-387 | After a run no SELECT of mksrv_anon's own, direct or by default, is left in the tenant's schema, whatever was granted before, and mksrv_app has both |
| Reprovision.RoutineIsReady | internal/cli/database.go:364-384 | After a run the schema is mksrv_owner's, with rights on future tables, the other three roles can use it, and it leads the search path; the pre-request function exists under mksrv_owner, and both PostgREST roles may call it |
| Success.JobsSucceedIff | internal/cli/database.go:163-195 | A list of scripts runs through on any cluster exactly when it is empty, begins with the global script, or finds the four cluster-wide roles there |
| MeshPolicy.Policy | internal/headscale/headscale.go:218-242 | The nested loops append the rules of the specification, tenant by tenant |
| MeshPolicy.AppendTenant | internal/headscale/headscale.go:223-240 | One tenant's rules |
| MeshPolicy.TenantReaches | internal/headscale/headscale.go:218-242 | A tenant reaches exactly its own nodes, the fleet on the listed ports, and its own routes |
| MeshPolicy.FleetReaches | internal/headscale/headscale.go:218-242 | The fleet reaches exactly the fleet and each tenant's nodes on that tenant's web ports |
| MeshPolicy.StrangerReachesNothing | internal/headscale/headscale.go:218-242 | A user outside the roster reaches nothing |
| MeshPolicy.TenantsAreApartIff | internal/headscale/headscale.go:214-242 | A tenant reaches another tenant's node exactly when one of its own routes covers the node's address |
| MeshPolicy.FleetPorts | internal/headscale/headscale.go:219 | Which port numbers the port list opens |
| MeshPolicy.PortOfIff | internal/cli/tenant.go:613 | SplitHostPort finds a port exactly when the target spells a host, in brackets or without a colon, and that port |
| MeshPolicy.DecimalReads | internal/cli/tenant.go:608-623 | A printed port reads as the number printed |
| MeshPolicy.WebOriginPorts | internal/cli/tenant.go:608-623 | Sorted, without repetition, exactly the ports the targets name |
| MeshPolicy.PolicyTenants | internal/cli/tenant.go:596-606 | Every tenant once, in sorted order, with its routes and its origin ports |
| MeshPolicy.PolicyRosterIsRoster | internal/cli/tenant.go:596-606 | The rosters built so are ones the reachability results hold for exactly when no tenant is called mksrv-fleet |
| MeshPolicy.FleetNameGivesAllPorts | internal/headscale/headscale.go:218-224 | A tenant of that name would reach every port of the fleet |
| Shell.LexQuoted | internal/cli/tenant.go:648-650 | Quoted text adds exactly itself to the word being read, whatever it holds (section 2.2.2 of the Shell Command Language) |
| Shell.CommandRoundTrip | internal/cli/tenant.go:648-650 | A command of bare and quoted pieces is split into exactly the words it was built from |
| Commands.ArgumentsArrive | internal/cli/openbao.go:102-115 | Quoted arguments behind any words arrive as they are, in any environment, empty ones and none at all included |
| Commands.JoinedArgumentsArrive | internal/headscale/headscale.go:34-40 | ... also where they are joined by spaces, so that none at all leaves a trailing space |
| Commands.HeadscaleCommand | internal/headscale/headscale.go:34-45 | The command splits into the five fixed words and exactly the arguments |
| Commands.QuoteEach | internal/cli/openbao.go:111-113 | The loop appends one quoted argument at a time |
| Commands.BaoExec | internal/cli/openbao.go:102-115 | The command splits into the fixed words, the token's environment entry where there is a token, and exactly the arguments |
| Commands.ScriptArrives | internal/ssh/ssh.go:295 | The outer layer hands the script to the inner shell as its one argument, whatever it holds |
| Commands.PathArrives | internal/ssh/ssh.go:290-293 | In any shell, and with nothing assumed of its parameters: the whole script, from set -e to mv, splits into nine commands, and read in turn, each with the parameters the ones before it assigned, they have the path, its temporary name and the mode as one word each, whatever the path holds |
| Shell.ReadAlong | internal/ssh/ssh.go:290-293 | Commands read in turn give the tokens each has in the shell the earlier ones leave |
| Commands.WriteFileCommand | internal/ssh/ssh.go:290-295 | The script built from the format string is the one read back above, and the command hands it to the remote shell as one word |
| Commands.DirnameArrives | internal/ssh/ssh.go:290-293 | dirname, run once the script has assigned p and m, gets the path as its one argument |
| AtomicWrite.ScriptWritesTo | internal/ssh/ssh.go:290-293 | The words any shell reads in the script name the temporary file, the four octal digits of the mode and the path, in the commands that fill, set the mode and rename |
| AtomicWrite.CompleteWriteReplaces | internal/ssh/ssh.go:276-306 | A write whose every command succeeds leaves the input under the name, with its mode, frees the temporary name and touches no other file; inside the name where it is a directory |
| AtomicWrite.StoppedWriteIsAllOrNothing | internal/ssh/ssh.go:276-306 | Wherever a write stops, failed or killed inside any command, every file but the temporary one is as it was, or the whole write has happened |
| AtomicWrite.TriesAreWhole | internal/ssh/ssh.go:276-306 | However many writes of a file stop one after the other, it is the old one or one of the new ones, whole, and no other file is touched |
| AtomicWrite.RetryHeals | internal/ssh/ssh.go:276-306 | A write that completes after them leaves no trace of them |
| AtomicWrite.WriteCompletesIff | internal/ssh/ssh.go:276-306 | A write can complete exactly when the path can be a file's name and the temporary name is no directory's |
| TxtRecord.QuoteTXT | internal/aws/route53.go:64-76 | The record is the quoted segments of the value, one space apart, or one empty quoted string |
| TxtRecord.SegmentationIff | internal/aws/route53.go:53-76 | The segments are the one list of non-empty strings of at most 255 octets, all but the last full, that make up the value |
| TxtRecord.MatchesAreOddParts | internal/cli/mail_hosting.go:438-442 | The matches are the texts between the first and second quote, the third and fourth, and so on |
| TxtRecord.ParseDKIMRecord | internal/cli/mail_hosting.go:437-449 | The builder holds the matches in order; without the DKIM marker the result is empty |
| TxtRecord.ContainsIff | internal/cli/mail_hosting.go:445-447 | The marker is looked for anywhere in the value |
| TxtRecord.ReadBackIff | internal/aws/route53.go:64-76 | Reading a rendered value back gives the value exactly when it holds no quote |
| TxtRecord.ParseUndoesQuoteIff | internal/cli/mail_hosting.go:437-449 | parseDKIMRecord undoes quoteTXT exactly on the empty value and on quote-free values with the DKIM marker |
| TxtRecord.PublishedValueSurvives | internal/cli/mail_hosting.go:437-449 | What parseDKIMRecord returns always survives being published and parsed again |
| Pointer.UnescapeEscape | internal/schema/schema.go:146-147 | Unescaping undoes the escaping of section 4 of RFC 6901 on every token |
| Pointer.PointerToPath | internal/schema/schema.go:138-158 | The loop builds the path of the specification |
| Pointer.PathInjective | internal/schema/schema.go:148-156 | Different token lists never render to the same path |
| Pointer.PathGrows | internal/schema/schema.go:148-156 | What one more token adds: digits in brackets, a name behind a dot, any other printable text in brackets and quotes |
| Pointer.PathOfPointer | internal/schema/schema.go:138-158 | The path of any pointer is the rendering of its tokens after trimming |
| Pointer.SamePathIffSameNormal | internal/schema/schema.go:138-158 | Two token lists get the same path exactly when they are the same after trimming |
| Pointer.NormalIffUntrimmed | internal/schema/schema.go:139-143 | Trimming changes a token list exactly when it is the lone empty token or its pointer ends in white space |
| Sampler.RandomAlphanumeric | internal/secrets/secrets.go:144-163 | The text is the first n accepted bytes of the random source through the alphabet, and no more is read than that takes; a failed read ends it |
| Sampler.TakeLetters | internal/secrets/secrets.go:152-160 | One pass over a buffer |
| Sampler.FourPreimages | internal/secrets/secrets.go:153-156 | The base of the count below: each of the 62 letters has exactly four accepted bytes |
| Sampler.IsLetterIff | internal/secrets/secrets.go:145 | The alphabet is the letters of either case and the digits |
| Sampler.RunsAre | internal/secrets/secrets.go:144-163 | The runs counted below are exactly the accepted byte runs that give the text |
| Sampler.RunsCount | internal/secrets/secrets.go:144-163 | Every text of n letters is given by exactly 4^n runs of n accepted bytes: all texts are equally likely |
| Secrets.AllCallersAgree | internal/secrets/secrets.go:110-137 | Over every interleaving and failure, all successful calls for a name return the stored value: the one it began with, or letters and digits, the fewest that six bits each make up the bytes (at least sixteen) some call for the name asked |
| Secrets.StoredValueStays | internal/secrets/secrets.go:128-136 | A stored value never changes |
| Secrets.FailedCallMayHaveStored | internal/secrets/secrets.go:128-136 | A failed call may have stored its value, and then the next call returns it |
| Entropy.EntropyIff | internal/secrets/secrets.go:107-124 | "At least nbytes of entropy": there are as many such texts as values of the bytes exactly for 16, 19, ... 64 bytes and for 17, 20, ... 32 |
| Entropy.DatabasePasswordFallsShort | internal/cli/database.go:183-187 | The 24 bytes of the database passwords are not among them |
| Ports.PostgrestConsumerIDs | internal/cli/postgrest.go:42-51 | Sorted, each once, exactly the tenants that get a container |
| Ports.PortIsRank | internal/cli/postgrest.go:55-61 | A port is 3010 plus the number of listed ids before the tenant's; an unlisted tenant has none |
| Ports.PortsAreConsecutive | internal/cli/postgrest.go:23-61 | Consumers get each port from 3010 on, one apiece, none left out |
| Ports.OthersMoveNoPort | internal/cli/postgrest.go:28-41 | Workspaces with the same consumers give every tenant the same port |
| Ports.TenantMovesNoPortIff | internal/cli/postgrest.go:28-41 | A new tenant moves no port exactly when it is no consumer or sorts behind every consumer |
| Ports.AclCoversPortsIff | internal/cli/postgrest.go:23-26 | The mesh rules open every consumer's port exactly when there are at most ten consumers |
| Ports.RosterPorts | internal/cli/tenant.go:306-314 | The roster announces to each tenant with the database stack its place among all tenants |
| Ports.RosterPortIsOff | internal/cli/tenant.go:308-314 | The announced port exceeds the container's by the number of tenants before it that have no container |
| Ports.RosterAgreesIff | internal/cli/tenant.go:308-314 | Exactly when the announced port and the container's agree |
| Capacity.InstanceRAMMB | internal/model/capacity.go:24-45 | A known type's memory is a positive whole number of half gibibytes |
| Capacity.RAMIsPerCpu | internal/model/capacity.go:24-45 | The memory table as a rule: 4 GiB a vCPU for m and for t from large on, 2 for c, 8 for r, four smaller sizes of t, and which sizes are known |
| Capacity.NoFamilyNoRAM | internal/model/capacity.go:24-45 | ... and a type without a dot, or with nothing before it, is not known |
| Capacity.SwapForStacks | internal/model/capacity.go:54-81 | No swap without a deficit, otherwise the least multiple of 512 that covers it, capped at min(RAM, 4096); 2048 or 0 where the type is unknown |
| Capacity.SwapIsDetermined | internal/model/capacity.go:54-81 | Read off that promise: it leaves one value |
| Capacity.NoSwapIff | internal/model/capacity.go:54-81 | ... and, where the type is known, no swap exactly when the hints and the headroom fit the memory |
| Capacity.AddingStackNeverLowers | internal/model/capacity.go:54-81 | One more stack anywhere in the list never lowers the swap |
| Capacity.CheckHostCapacity | internal/workspace/semantic.go:502-530 | Warns exactly about overcommitted hosts, and the swap it announces is positive |
| Storage.CheckHostStorage | internal/workspace/semantic.go:534-555 | The report is exact: each volume whose name was asked for before is reported once, in order, against the first stack that asked, then the count above ten |
| Storage.NothingReportedIff | internal/workspace/semantic.go:534-555 | Nothing is reported exactly on an existing host, or where volume names are distinct and at most ten |
| Storage.CollisionsCount | internal/workspace/semantic.go:541-549 | As many collisions as volumes beyond the first of their name |
| Storage.CollisionIff | internal/workspace/semantic.go:541-549 | Read off by places: what is reported is each request whose name was asked for before, with the first stack that asked |
| Storage.CheckRequest | internal/workspace/semantic.go:541-549 | One turn of the inner loop keeps the first owners and the collisions exact |
| Storage.HostVolumes | internal/cli/infra.go:280-309 | An entry for each created host with volumes, devices counted up from /dev/sdg as a byte |
| Storage.DevicesFitIff | internal/cli/infra.go:287-304 | Every device lies in /dev/sdg to /dev/sdp exactly when there are at most ten volumes |
| Storage.CheckedVolumesAreApart | internal/cli/infra.go:280-309 | Where the check reports nothing, volumes have distinct names and distinct devices in that range |

## Left out

- SSH, SFTP, HTTP, AWS and Terraform calls, and what `podman`, `systemctl`, `curl` and Caddy do: state and steps that may
  fail stand for them.
- Cryptography, JSON, base64 and template rendering: function parameters or inputs; `DeployStack` takes a digest without
  collisions.
- Keycloak: other realms (every request names the realm of the spec), listings beyond one page, ids of mappers and roles,
  and a lost answer, which for the realm's state is a run cut off at the next request. `EnsureRealm` takes specs with
  distinct group, client and mapper names.
- `EnsureClient`, `EnsureUsers`, `ensureAudienceMapper` and the re-login of `do`: they repeat the list-then-post steps of
  `EnsureRealm` on other paths.
- `EnsureString`: it overwrites on any read error and keeps nothing.
- FragmentRuns.Edge.ProvisionWeb: of the oauth2-proxy units only the number that changes is modelled, a parameter, which
  decides the reload; the units, their Keycloak clients and their secrets are written one at a time, with no rule across
  tenants.
- Fragment names with white space, and MTA-STS fragments with an empty body: `FragmentRuns` takes neither, as the names
  and bodies the source writes have neither; `ToLower` outside ASCII beyond the two letters that fold into it.
- `DeployStack`: secrets, image pulls, file modes, what a hook script does to the host, and hooks of scope per_tenant in a
  deploy without a tenant: its list holds the hooks that run.
- What Caddy reads when there is no edge client.
- `Extract`: collisions of temporary names, version strings that name other directories, and power loss.
- Reprovision.AnonIsHealed: a SELECT granted to PUBLIC, or to a role mksrv_anon is a member of, is not in the model; the
  scripts grant none. Nor is the EXECUTE that Postgres gives PUBLIC on a new function.
- Postgres: the passwords' hashes, tablespaces, and the objects a tenant creates, but for tables and who selects from them.
- Mesh: parsing of CIDRs (a parameter says what they cover), the printed form of the rules.
- The shell: backslashes in double quotes, globs, pipes, comments and parameters outside quotes and assignments are
  refused by the model's reader.
- The disk of `AtomicWrite` knows files by the names the script uses: links, mount points, two spellings of one name and
  owners are not modelled, and what `dirname` prints is a parameter of the shell.
- Sizes, IOPS and throughput of volumes: sizes are rounded floating point.
- Per-field checks of `semanticChecks`, the order in which the report sorts its issues, and their wording.
- Sampler.RandomAlphanumeric: its random source is a finite list of reads, and running out of it is a result of its own.
- `baseFirst`, `wireBastion`, command-line handling, printing, prompts, polling and timeouts: each settled by one branch or
  by the clock.
