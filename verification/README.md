# Blizzard: verified models

Dafny models of the parts of Blizzard where correctness spans many calls, threads or files, and proofs of what those
parts promise. `dafny verify dfyconfig.toml` checks the whole project.

**The tenant lifecycle of a hub process.** `TenantProtocol` is a step relation over any number of threads: request
threads open a tenant's stores through the cache, deletions close a tenant in the store, evict its cache entry, drop its
broker, close its built objects and read the open set again, and lookups read the copy held in memory. Each thread has a
program counter; the two locks, the cache's map and entries, the brokers, the held copy and the store's versions are
shared. The close commits outside the cache's lock, so it can fall between another thread's open check and its insert.
`TenantInvariants` proves, by rely and guarantee, the invariant that every interleaving keeps; `TenantTheorems` draws the
promises over whole runs from it, `TenantServing` who is handed a tenant's services, and `TenantCloses` what is closed and
what a close answers. `TenantObjects` has the cache, brokers and open-tenant copy as mutable objects, each
method proved to leave what the protocol's functions say; `TenantAlone` proves that a thread's own steps, taken alone,
end in the same state, so the objects refine the protocol call by call. `HubCore` opens every open tenant in turn.

**The lock order of hub transactions.** `LockOrder` is what a write unit declares and the order it takes locks in;
`LockProtocol` runs any number of transactions over any lock sets, with their tenant's row or without, and proves they
never deadlock and all end; `LockContention` proves that writers wait for one another at the first lock both declare and
nowhere else, and that taken as declared, mirrored sets would deadlock.

**The package-layer gate.** `LayerCycle` is the three-colour search for a cycle in a project's table, exact in both
directions; `PackageLayers` is every violation the gate reports, and the theorem that a clean report means the real
imports between a project's units have a topological order; `PackagePaths` says where a relative import points, and what
line an import between two units gives rise to.

**Scanners and folders.** `SwitchSweep` and `SwitchTemplates` are the template scan for `@switch` blocks without a
`@default` of their own; `LiteralBlanker` blanks TypeScript literals in place, proved equal to an automaton that reads
one character at a time; `LiteralPrograms` reads every source as code, comments and literals, and proves that just the
literals are blanked; `TranscriptFold` folds late results and late subagent conversations onto their calls,
`TranscriptFates` reads each turn's fate off the transcript as it came, `TranscriptTheorems`, `TranscriptWeights` and
`TranscriptAgain` say what folding keeps and loses, `TranscriptRender` renders what results, and `TranscriptOutline` says
in what order.

**Graph searches.** `EagerFiles` (a bundle's eager files and their importers), `TestSelection` (test modules reaching a
package through helpers), `ContainersCompose` (query-bearing helpers) and `DerivingKinds` (what a `computed()` callback
derives) are proved equal to reachability, stated once in `Reach`.

**Identities.** `SpanIdentity` is what span ids are hashed from, `Traceparent` the W3C header (section 3.2 of W3C Trace
Context), `Ids` the prefixed ULIDs, `SiteCensus` the registry of sites that restate an invariant.

`Prelude`, `Ordering`, `Texts` and `Totals` hold stock definitions.

Where the code and its own documentation differ, the models follow the code:

- `_folded` is documented to drop nothing. Some turn is lost exactly when one goes onto a call that itself goes onto a call
  (`NothingIsDropped`, for any transcript, by kinds, ids, parents and agents as they came): a sidechain call whose own
  conversation names it (`CallNamingItselfIsLost`) and one that takes the first late conversation naming it
  (`CallTakingItsNameIsLost`) fold onto themselves. A late result's own conversation is lost with it; `TalkConserved`
  says exactly when no conversation is. No late turn the runner synthesizes has any of these shapes.
- `_ts_blank_literals` is documented to preserve the line count. On source that ends inside an escape in an unclosed
  template it raises `IndexError` instead; `BlankLiterals` says exactly when.
- `apply_write_sites` is documented never to touch or remove an owner site. Where a later site has the same key, and the
  key is still matched, the owner's is removed and the census is not clean after the write (`OverriddenOwnerIsRemoved`;
  `OwnerOverridden` is an owner's site and an allowed one after it); `WriteThenCheck` and `WriteAgain` give the exact
  condition under which a write settles the census.
- A plain sort of ULIDs is documented to be chronological. Every id minted before the epoch sorts after every one minted
  from it on, and reading its instant back raises; `IdsSortExactly` and `MintParseRead` are exact over all a `datetime`
  holds. An instant 32^10 milliseconds away, where ten digits would wrap, lies past what it holds.
- The derivation of span ids does not itself keep a gate's span under a key that names no decision from spelling out
  another span's preimage; `SpanTextsDiffer` says exactly when it does. No gate's span is minted under such a key.

## Model

| member | source | states |
|---|---|---|
| TenantInvariants.TakeKeeps | src/blizzard/hub/composition.py:719-769 | Every step of every thread — opening, closing, evicting, dropping, reading, wiring, shutting down — keeps the invariant and guarantees the other threads what they rely on |
| TenantTheorems.RunGoesForward | src/blizzard/hub/composition.py:690-702 | Over any stretch of any run nothing is taken back: no cell changes hands or is served twice, no broker is made for an evicted tenant, closed stays closed, the held copy never gets older |
| TenantTheorems.ForgottenLeavesNothing | src/blizzard/hub/composition.py:1727-1731 | Once `forget_closed(t)` came back, ever after nothing is cached for `t`, no thread is past the open check for it inside the cache's lock, only a call already under way by then has its entry in hand, its broker is dropped and closed, what serving it built is closed, and neither bundle nor broker is made for it again |
| TenantTheorems.ForgottenIsRefused | src/blizzard/hub/composition.py:758-769 | Every open of a forgotten tenant begun after that is refused as closed, even when its close committed between another opener's check and its insert |
| TenantTheorems.RefusedOnlyTruly | src/blizzard/hub/store/internal/hub_scoped_reads.py:52-67 | No open of a tenant that was open when the call began and is not closed is ever refused |
| TenantTheorems.OneBundlePerTenant | src/blizzard/hub/composition.py:694-702 | However many threads open a tenant, at whatever moments, all that succeed are handed the one entry, so the one cycle-check lock |
| TenantTheorems.BuiltAtMostOnce | src/blizzard/hub/composition.py:624-631 | At most one stores bundle, one broker and one set of served objects is ever built for a tenant in a whole run |
| TenantTheorems.HeldNeverGoesBack | src/blizzard/hub/open_tenants.py:38-47 | The held copy's store version never decreases, and it is always what the store held open at that version |
| TenantTheorems.RefreshSeesEarlierCommits | src/blizzard/hub/open_tenants.py:38-47 | A refresh begun after a commit returns the open set as of that commit or later, and no older load replaces it afterwards |
| TenantTheorems.ForgottenIsNeverReported | src/blizzard/hub/open_tenants.py:24-36 | No `name`, `only` or `every` begun after `forget_closed(t)` came back names `t` |
| TenantTheorems.NameFindsOpenTenants | src/blizzard/hub/open_tenants.py:24-29 | A name lookup never misses a tenant open when it began and not closed since, however old the held copy was |
| TenantTheorems.NeverStuck | src/blizzard/hub/composition.py:758-769 | The cache's lock and the loading lock never hold each other up: while a thread is inside a call, some thread can step |
| TenantTheorems.CallsComeBack | src/blizzard/hub/composition.py:719-769 | Once no new call begins, every call comes back within a number of steps known beforehand |
| TenantServing.ServedIsHanded | src/blizzard/hub/composition.py:726-769 | Every open begun once the cache is wired, unless the store refuses the tenant, is handed the tenant's own entry, served, with the tenant's own broker |
| TenantServing.OpensAnswer | src/blizzard/hub/composition.py:724-738 | At all times what an open hands out is the tenant's entry, served if services or sweeps were asked for, and only such an open goes without for want of serving |
| TenantServing.UnwiredOnlyBefore | src/blizzard/hub/composition.py:724-738 | No open goes without services but one that asked for them and began before the cache was wired |
| TenantServing.ServeWires | src/blizzard/hub/composition.py:714-717 | Once a `serve` has come back the cache is wired for good |
| TenantCloses.ShutdownCloses | src/blizzard/hub/composition.py:750-756 | When `close_served` comes back, whatever was served when it was called and is still cached is closed |
| TenantCloses.OpenTenantStaysServed | src/blizzard/hub/composition.py:740-748 | A tenant that is not closed keeps its broker open at all times, and the objects that serve it until a shutdown |
| TenantCloses.OneTenantStays | src/blizzard/hub/store/internal/tenant_teardown_store.py:82-106 | Whoever closes what at once, a hub with an open tenant always has one |
| TenantCloses.ClosesAnswerTruly | src/blizzard/hub/store/internal/tenant_teardown_store.py:82-106 | Each outcome of a close is true of the store: closed by this call and since forgotten, closed before, not there, or the only one open at some moment of the call |
| TenantCloses.ClosedOnce | src/blizzard/hub/domain/tenancy/teardown.py:175-185 | However many calls close a tenant at once, one alone is answered that it closed it |
| TenantObjects.TenantBrokers.ForTenant | src/blizzard/hub/events/brokers.py:21-27 | The tenant's one live broker, made on first use; the whole new state |
| TenantObjects.TenantBrokers.Drop | src/blizzard/hub/events/brokers.py:37-43 | The broker is forgotten and closed, every other one left as it was |
| TenantObjects.TenantCache.Serve | src/blizzard/hub/composition.py:714-717 | Wires serving and changes nothing else |
| TenantObjects.TenantCache.Entry | src/blizzard/hub/composition.py:758-769 | The entry found or built and served in place: the cache and brokers are left as the protocol's steps leave them, and the object returned is the one cached |
| TenantObjects.TenantCache.Open | src/blizzard/hub/composition.py:719-738 | The three opens: stores, or services and sweeps refused while none are wired; the answer is the protocol's, and what is handed out for services or sweeps, or by a wired cache, is served |
| TenantObjects.TenantCache.Evict | src/blizzard/hub/composition.py:740-748 | The entry is popped, the broker dropped and closed, and the popped entry's objects closed, nothing else |
| TenantObjects.TenantCache.CloseServed | src/blizzard/hub/composition.py:750-756 | Exactly the objects of the served entries held are closed, and the entries kept |
| TenantObjects.OpenTenants.Refresh | src/blizzard/hub/open_tenants.py:38-47 | Holds and returns the store's open set as of now |
| TenantObjects.OpenTenants.Name | src/blizzard/hub/open_tenants.py:24-29 | The name in the held copy, or in a fresh one when the held copy misses the tenant |
| TenantObjects.OpenTenants.Only | src/blizzard/hub/open_tenants.py:31-34 | The one open tenant exactly when the copy holds one |
| TenantObjects.ForgetClosed | src/blizzard/hub/composition.py:1727-1731 | Eviction first, then the refresh: the whole state it leaves |
| TenantAlone.OpenAlone | src/blizzard/hub/composition.py:758-769 | The protocol's steps of one open, nothing beside them, end in the state and answer `TenantCache.Open` is proved to leave |
| TenantAlone.ForgetAlone | src/blizzard/hub/composition.py:1727-1731 | The protocol's steps of an eviction and refresh, nothing beside them, end in the state `ForgetClosed` is proved to leave |
| HubCore.EveryOpen | src/blizzard/hub/composition.py:859-870 | The loop opens the tenants read, sorted by id, each in the store of its moment, and keeps the entries handed out, one by one |
| HubCore.EveryOpenExact | src/blizzard/hub/composition.py:859-870 | Whatever other threads evict or open in between, it hands out, in id order, the entries of exactly the tenants that are cached, or that the store still confirms, when their turn comes |
| HubCore.LeftOutMeansClosed | src/blizzard/hub/composition.py:859-863 | Of the tenants open when the set was read, those left out are exactly those closed by the time their turn comes and no longer cached then |
| LockOrder.PlanAscends | src/blizzard/hub/store/transactions.py:47-60 | A unit, with its tenant's row or without, takes exactly the locks it declared, each once, in the one global order |
| LockOrder.PlanOrder | src/blizzard/hub/store/transactions.py:57-60 | That order is the tenant's row, then chunks by id, then keyed rows by namespace and key, as Python sorts them; a close's rows by tenant |
| LockOrder.PlanIgnoresDeclarationOrder | scripts/check_hub_uow_postgres.py:61-63 | Two units that declare the same locks take them in the same order, however the declarations are ordered or repeated |
| LockProtocol.TakeKeeps | scripts/check_hub_uow_postgres.py:119-131 | Every step keeps: each locked row is held by a running transaction that took it in plan order, and each running transaction holds all it took |
| LockProtocol.CommitsHoldingAll | src/blizzard/hub/store/transactions.py:47-60 | Whoever may commit holds every lock its unit declared |
| LockProtocol.WaitingAscends | scripts/check_hub_uow_postgres.py:176-178 | A transaction that waits for another waits for a lock beyond every lock it holds itself |
| LockProtocol.NoWaitCycle | scripts/check_hub_uow_postgres.py:170-176 | No chain of transactions, each waiting for the next, ever closes |
| LockProtocol.NeverDeadlocked | scripts/check_hub_uow_postgres.py:119-131 | In every state of every run with a transaction unended, some transaction can take its next step without rolling back |
| LockProtocol.AllFinish | scripts/check_hub_uow_postgres.py:168-171 | Once none begins, every transaction ends within a number of steps known beforehand |
| LockProtocol.SecondTakesAfterFirstEnded | scripts/check_hub_uow_postgres.py:104-117 | Two transactions that take one lock take it one after the other: the first has ended before the second has it |
| LockContention.WaitAtFirstShared | scripts/check_hub_uow_postgres.py:139-163 | In every state of every run, whoever waits for another waits at the first lock that both declare |
| LockContention.WritersContend | scripts/check_hub_uow_postgres.py:104-163 | And there they do wait: for any two units with a lock in common, guarded or not, once the first took that far or any farther, the second takes all it declared before their first common lock and waits for it |
| LockContention.GuardedMeetAtTenant | scripts/check_hub_uow_postgres.py:139-159 | Under the production guard a writer that waits for another of its tenant waits at the tenant's row with nothing taken: it reaches no decision row while the other runs |
| LockContention.MirroredWritersContend | scripts/check_hub_uow_postgres.py:119-129 | Writers of one lock set, each declaring it in its own order, wait at its first row: under the compatible guard a chunk's if they declare chunks, else a key's |
| LockContention.MintAndPromoteContend | scripts/check_hub_uow_postgres.py:49-58 | A cadence mint and a promote, either first and holding all it declares, wait at the backlog's ranking lock |
| LockContention.DeclaredOrderDeadlocks | scripts/check_hub_uow_postgres.py:119-131 | Taken as declared, two mirrored sets of rows would leave both writers waiting for each other for good |
| LayerCycle.OrderedMeansAcyclic | web/scripts/structural-gate.js:1067-1095 | A table whose keys stand in topological order has no closed walk, not even through undeclared units or the implicit kernel edges |
| LayerCycle.KernelFirst | web/scripts/structural-gate.js:1068-1071 | The kernel's implicit edges add no cycle: a table in order, its kernel first, stays in order with them |
| LayerCycle.Search.Visit | web/scripts/structural-gate.js:1077-1089 | The inner visit over its shared colours and stack: a genuine closed walk, or every unit reached is done and the stack is as it was |
| LayerCycle.FindCycle | web/scripts/structural-gate.js:1067-1095 | A closed walk along the table's edges, or none exactly when the table has none |
| PackageLayers.LayerUnitOf | web/scripts/structural-gate.js:1049-1059 | The unit of a path: the longest declared prefix, owned unless it has child keys and the path goes deeper |
| PackageLayers.PackageLayerViolations | web/scripts/structural-gate.js:1105-1168 | The lines, in order and as often as each comes up: table by table — keys with what they name, kernel and spec-support, a closed walk exactly where the table has one — and then file by file, specifier by specifier |
| PackageLayers.ReportExact | web/scripts/structural-gate.js:1105-1168 | Those lines are exactly the violations of the tables and of every file's imports |
| PackageLayers.CleanImport | web/scripts/structural-gate.js:1148-1165 | With no violation, a relative import between two of a project's non-spec files stays in its unit, goes to the kernel, or goes to a unit its table lists |
| PackageLayers.CleanMeansLayered | web/scripts/structural-gate.js:1105-1168 | With no violation, some order of the units puts every imported unit before the unit that imports it: the import graph, contracted to units, has a topological rank |
| PackagePaths.NormalIsNormal | web/scripts/structural-gate.js:1148-1149 | The normal form of a path is some ways up and then plain segments |
| PackagePaths.NormalStays | web/scripts/structural-gate.js:1148-1149 | Such a path is its own normal form |
| PackagePaths.NormalDrops | web/scripts/structural-gate.js:1148-1149 | An empty or `.` segment goes, wherever it stands |
| PackagePaths.NormalTakesBack | web/scripts/structural-gate.js:1148-1149 | A plain segment and the `..` after it go, wherever they stand |
| PackagePaths.ResolveClimbs | web/scripts/structural-gate.js:1148-1149 | From a file, so many ways up and then a plain path point to just that path below the folder climbed to, or above the tree by the ways left |
| PackagePaths.TargetIsFirst | web/scripts/structural-gate.js:1157-1158 | A specifier means the first of the path itself, `.ts`, `/index.ts` and `.css` that is a file |
| PackagePaths.UnitExactly | web/scripts/structural-gate.js:1049-1059 | A path is in the unit whose key is the deepest of its folders that are keys, unless a key lies deeper in that folder and the path is not directly in it |
| PackagePaths.ClimbingImport | web/scripts/structural-gate.js:1148-1165 | An import that climbs and comes down in its project makes a line exactly when its unit and the one it comes to differ and that is not the kernel, not listed, and not a spec's support |
| PackagePaths.ClimbingImportReported | web/scripts/structural-gate.js:1129-1165 | So of a whole tree: the gate prints that line exactly then |
| PackagePaths.ImportAcross | web/scripts/structural-gate.js:1149-1154 | An import that climbs out into another project is reported as that, and out to no project not at all |
| PackagePaths.ImportByName | web/scripts/structural-gate.js:1139-1147 | An import by name is reported exactly when a file below the root names its own package, but for a spec or story naming the spec-support entry |
| PackagePaths.SpecsAndStories | web/scripts/structural-gate.js:1106-1107 | Specs and stories are the files so suffixed |
| SwitchSweep.ClosingBrace | web/scripts/open-vocabulary-sweep.js:79-86 | The place of the brace that matches, counting depth, or -1 where none does |
| SwitchSweep.StripSwitches | web/scripts/open-vocabulary-sweep.js:101-105 | Deleting the nested blocks in reverse from a buffer that shrinks behind the walk leaves what taking every block out leaves |
| SwitchSweep.BareTemplateSwitches | web/scripts/open-vocabulary-sweep.js:92-110 | The lines, in document order, of every switch with a block and no `@default` left in it once nested blocks are gone |
| SwitchSweep.LinesCount | web/scripts/open-vocabulary-sweep.js:69-77 | Lines are counted by the line breaks among the characters |
| SwitchTemplates.StrippedPrint | web/scripts/open-vocabulary-sweep.js:100-105 | On a printed tree of nested blocks, stripping takes out exactly the switch subtrees |
| SwitchTemplates.SweepExact | web/scripts/open-vocabulary-sweep.js:92-110 | For every tree of nested blocks, the sweep of its print reports exactly the switches with no `@default` of their own, in order, by line |
| TranscriptFold.Fold | src/blizzard/cli/transcript_render.py:65-96 | The two loops over copies that later turns rewrite in place leave the turns kept as folding defines them |
| TranscriptFold.KeptInOrder | src/blizzard/cli/transcript_render.py:75-96 | The turns kept are exactly those that stay, in their order |
| TranscriptFold.CallOfExactly | src/blizzard/cli/transcript_render.py:68-74 | The call an id names is the first turn with a tool of that id that is no late result, and the empty id names none |
| TranscriptFates.FateIsRead | src/blizzard/cli/transcript_render.py:75-96 | For any transcript, the fate the loop decides on turns rewritten so far is the one read off the turns as they came |
| TranscriptTheorems.NothingIsDropped | src/blizzard/cli/transcript_render.py:65-67 | For any transcript, every turn comes to a turn kept exactly when no turn goes onto a call that itself goes onto a call, as read off kinds, ids, parents and agents |
| TranscriptTheorems.EndIsKept | src/blizzard/cli/transcript_render.py:65-67 | What a turn not lost comes to is kept, and still says all it said but its result and conversation |
| TranscriptTheorems.NothingIsDroppedOnToolTurns | src/blizzard/cli/transcript_render.py:65-67 | Nothing is lost where calls are made on tool turns |
| TranscriptTheorems.CallNamingItselfIsLost | src/blizzard/cli/transcript_render.py:87-95 | In any transcript, a sidechain call whose own late conversation names it is lost |
| TranscriptTheorems.CallTakingItsNameIsLost | src/blizzard/cli/transcript_render.py:87-95 | In any transcript, a sidechain call with no conversation that a late one before it names is lost, and that conversation's turn with it |
| TranscriptTheorems.RefusedExactly | src/blizzard/cli/transcript_render.py:87-102 | A late conversation whose call is there stays where it is exactly when the call holds another agent's by then: its own, or the first late one's that named it |
| TranscriptTheorems.FoldedCallShowsResults | src/blizzard/cli/transcript_render.py:77-86 | In any transcript, a call that stays shows its last late result, whether results come before or after it, and is marked truncated if it or any of them was; a later call with the same id shows only its own |
| TranscriptWeights.WeightConserved | src/blizzard/cli/transcript_render.py:65-96 | In any transcript, whatever a result does not change and a joined conversation adds is conserved, but for what was carried by results folded and by turns that went onto a call folded away |
| TranscriptWeights.ConservedExactly | src/blizzard/cli/transcript_render.py:65-96 | Such a weight is conserved exactly when those turns carried none of it |
| TranscriptWeights.TalkConserved | src/blizzard/cli/transcript_render.py:87-95 | In any transcript, the multiset of subagent turns is conserved exactly when no turn that carries a conversation is lost or goes onto a call as a result |
| TranscriptWeights.TalkConservedOnToolTurns | src/blizzard/cli/transcript_render.py:87-95 | Where calls are made on tool turns: exactly when no late result that names a call carries a conversation |
| TranscriptTheorems.CallHearsInOrder | src/blizzard/cli/transcript_render.py:90-94 | In any transcript, what a turn holds is its own conversation and then each late one joined to it, in the order they came, with what had been joined to that one before |
| TranscriptTheorems.FoldedCallHears | src/blizzard/cli/transcript_render.py:90-94 | So a turn that stays is kept with just that conversation, under its own title, agent and parent or, having had none, the first late one's |
| TranscriptTheorems.JoinedAsItCame | src/blizzard/cli/transcript_render.py:90-94 | Where calls are made on tool turns, each conversation joins as it came |
| TranscriptAgain.FoldingAgain | src/blizzard/cli/transcript_render.py:65-102 | Where calls are made on tool turns, folding is idempotent, and a second pass refuses exactly the late conversations the first refused |
| TranscriptAgain.FoldingAgainExactly | src/blizzard/cli/transcript_render.py:65-102 | Of any transcript, folding twice is folding once exactly when no turn kept holds a conversation naming a call kept that in the end holds none or the same agent's |
| TranscriptAgain.LostOnlyAgain | src/blizzard/cli/transcript_render.py:87-95 | A sidechain call without a conversation is kept with one that comes late, and a second pass loses both |
| TranscriptRender.FoldedNoDeeper | src/blizzard/cli/transcript_render.py:105-145 | Folding never raises how deep conversations nest, the measure by which the mutual recursion of the rendering ends |
| TranscriptRender.FoldedSpeaks | src/blizzard/cli/transcript_render.py:65-96 | Folding a well-formed transcript keeps exactly what is said at every depth |
| TranscriptRender.RendersAllSpoken | src/blizzard/cli/transcript_render.py:105-145 | A well-formed transcript renders in full: every text said at any depth, however late it came, is printed as often as it was said |
| TranscriptOutline.RendersInOrder | src/blizzard/cli/transcript_render.py:105-145 | For any transcript: the sequence of what is said, each with its indent, is the depth-first reading of the folded turns, a call's conversation two levels in and a sidechain's one; it fails exactly on a tool turn without its tool among the turns shown |
| TranscriptOutline.TurnsStandInOrder | src/blizzard/cli/transcript_render.py:105-128 | The lines of a level are those of its folded turns, one turn after another, with nothing between |
| TranscriptOutline.CallShown | src/blizzard/cli/transcript_render.py:131-145 | A call shows its name, its output or that it runs, the mark of a cut output exactly when it was cut, then its conversation's title and the conversation two levels in, and last the mark of a cut turn |
| TranscriptOutline.TurnShown | src/blizzard/cli/transcript_render.py:110-128 | Any other turn shows its heading, then its text, that it is redacted, or its conversation, and last the mark of a cut turn |
| LiteralBlanker.BlankLiterals | scripts/prose_spans.py:197-249 | The index loop blanks exactly what the automaton calls literal, and fails exactly when the automaton ends inside an escape in a template |
| LiteralPrograms.ProgramBlanked | scripts/prose_spans.py:197-249 | Of a program written as code, comments, quoted literals with escapes, and templates with escapes and nested substitutions — finished, or stopping short within one — exactly the literals are blanked, and it fails exactly when it stops at a backslash in a template |
| LiteralPrograms.EverySourceBlanked | scripts/prose_spans.py:197-249 | Every text is such a program, so that holds of every source |
| LiteralBlanker.TemplateEnd | scripts/prose_spans.py:225-246 | The template branch: where the automaton leaves the template, or one past the text |
| LiteralBlanker.BlankRange | scripts/prose_spans.py:252-255 | The range is blanked but for its line breaks, or the index fails past the end |
| LiteralBlanker.ErasedAt | scripts/prose_spans.py:197-202 | A character is blanked exactly when it opens, is in or closes a literal and is no line break |
| LiteralBlanker.BlankingKeepsPositions | scripts/prose_spans.py:197-202 | Length, every line break and every character of a comment are kept |
| LiteralBlanker.OutputScansAlike | scripts/prose_spans.py:174-178 | A scan of the output stands in a comment exactly where the source's does, and nowhere in a literal: comments found in the output are the source's |
| LiteralBlanker.BlankingAgain | scripts/prose_spans.py:197-249 | Blanking is idempotent, and what it made never fails |
| EagerFiles.ComputeEagerFiles | web/scripts/bundle-check.js:106-122 | The files visited are exactly those the entry reaches over static imports, depth first with each file's last import first, and the importer recorded for each is the first visited that imports it |
| EagerFiles.ImportersLeadToEntry | web/scripts/bundle-check.js:106-122 | Following recorded importers from any file loaded reaches the entry over imports really made, in finitely many steps, though imports run in circles |
| EagerFiles.FindViolations | web/scripts/bundle-check.js:128-135 | One violation for each forbidden file, in the order visited, with the first pattern it matches and the importer recorded for it |
| EagerFiles.Check | web/scripts/bundle-check.js:128-135 | A file is reported exactly when the entry reaches it over static imports and a forbidden pattern matches, with an importer that is loaded and imports it |
| TestSelection.Search | scripts/mutation.py:274-303 | The recursion over one shared visited set: a `False` exhausts all it visited, a `True` has a path to a selecting import |
| TestSelection.TestModuleSelected | scripts/mutation.py:274-303 | True exactly when the module is no conftest and reaches a selecting import through helpers other than conftest, on cyclic imports too |
| TestSelection.SelectsExactly | scripts/mutation.py:256-257 | A module selects when a package's dotted segments begin those of a name it imports |
| TestSelection.ResolvesExactly | scripts/mutation.py:260-271 | A name below `tests` is the module's of its path if there is one, else the package's, else none's |
| TestSelection.ResolvesNone | scripts/mutation.py:260-264 | Any other name, and `tests` alone, is no helper's |
| ContainersCompose.QueryBearingHelpers | web/scripts/containers-compose-sweep.js:152-192 | The least set: exactly the names that are injectors or call one through helpers, whatever the order of declarations |
| DerivingKinds.Visit | web/scripts/containers-compose-sweep.js:256-285 | One visit over the shared `seen` and `kinds`: every construct of what it saw is listed, and what it listed is really there, nothing twice |
| DerivingKinds.KindsOf | web/scripts/containers-compose-sweep.js:256-285 | The kinds are exactly the deriving constructs in the callback and, each named with its member, in the bodies reached through `this`, none twice and in the order the recursive reading comes upon them, on cyclic mentions too |
| DerivingKinds.ReadInOrder | web/scripts/containers-compose-sweep.js:256-285 | A callback that follows nothing is read in source order, a node's own constructs before its children's |
| SpanIdentity.SpanTextsDiffer | src/blizzard/foundation/trace_ids.py:145-152 | Whatever the discriminators hold, two triples of step key, role and discriminator have one preimage exactly when they are one triple, or a gate's span under a key with no decision spells the other out — though runner roles hold a slash and `gate` is a role and a key's part |
| SpanIdentity.LifetimeTextsDiffer | src/blizzard/foundation/trace_ids.py:131-138 | Lifetime preimages differ whatever the discriminators hold, except exactly where a work span's discriminator spells out another role's text |
| SpanIdentity.KindsDiffer | src/blizzard/foundation/trace_ids.py:21-25 | No preimage of one kind of id is a preimage of another kind |
| SpanIdentity.TextsSpelledOut | src/blizzard/foundation/trace_ids.py:92-152 | The preimages spelled out as every daemon must hash them, the epoch in the decimal digits that stand for it |
| SpanIdentity.HubRolesSpelledOut | src/blizzard/foundation/trace_ids.py:29-39 | The hub's roles as every daemon must spell them |
| SpanIdentity.RunnerRolesSpelledOut | src/blizzard/foundation/trace_ids.py:42-52 | A runner's roles likewise |
| SpanIdentity.ChunkRolesSpelledOut | src/blizzard/foundation/trace_ids.py:55-64 | A chunk's roles likewise |
| SpanIdentity.TextsDiffer | src/blizzard/foundation/trace_ids.py:92-152 | Any two ids of any kind have one preimage exactly when they are one id or one spells the other out |
| SpanIdentity.MintedTextsDiffer | src/blizzard/foundation/trace_ids.py:92-152 | What is minted — gates under their decisions, no lifetime span for `chunk` — has a preimage of its own |
| SpanIdentity.InvocationsNeverClash | src/blizzard/runner/tracing/assembly.py:191-192 | An invocation's span, whose discriminator is its generation, a slash and its kind, shares its preimage with no other id at all |
| SpanIdentity.SharedIdIsCollision | src/blizzard/foundation/trace_ids.py:92-152 | Two trace ids of 16 bytes, or two span ids of 8, minted for different things coincide only where the digest collides at that length |
| Traceparent.FormatReads | src/blizzard/foundation/trace_ids.py:162-193 | What is printed reads back, for every nonzero 128-bit trace id, nonzero 64-bit span id and 8-bit flags |
| Traceparent.ReadFormats | src/blizzard/foundation/trace_ids.py:176-193 | What is read from a version-00 header prints as that header, stripped |
| Traceparent.AcceptsExactly | src/blizzard/foundation/trace_ids.py:176-193 | The version-00 headers accepted are exactly the printed contexts, with any space around them |
| Traceparent.FormatIs | src/blizzard/foundation/trace_ids.py:162-164 | A header is 55 characters: version, 32 digits of the trace id, 16 of the span id and two of the flags, dashes between |
| Traceparent.ValueBoth | src/blizzard/foundation/trace_ids.py:167-173 | Leading hexadecimal digits weigh the most |
| Traceparent.StripExactly | src/blizzard/foundation/trace_ids.py:176-181 | Stripping takes off all the space at either end and nothing else |
| Traceparent.LaterVersionsRead | src/blizzard/foundation/trace_ids.py:179-187 | A later version but `ff` reads the same three fields and ignores what follows them |
| Traceparent.StepTraceparentReads | src/blizzard/foundation/trace_ids.py:155-159 | A step's derived header always reads back to its derived context |
| Ids.Encode | src/blizzard/foundation/ids.py:91-97 | The digits loop computes the last `length` digits in base 32, most significant first |
| Ids.EncodedSorts | src/blizzard/foundation/ids.py:91-97 | Encoded numbers sort as what their digits hold |
| Ids.IdsSort | src/blizzard/foundation/ids.py:81-89 | Ids of one prefix sort exactly by what ten digits hold of their instants, then by randomness |
| Ids.MintedText | src/blizzard/foundation/ids.py:81-97 | An id is its prefix, an underscore, ten characters of its instant and sixteen that hold its eighty random bits |
| Ids.IdsSortByInstant | src/blizzard/foundation/ids.py:3-5 | From the epoch up to 32^10 milliseconds a plain sort of ids is chronological, for every randomness |
| Ids.IdsSortExactly | src/blizzard/foundation/ids.py:81-97 | Over all instants a `datetime` holds, two ids sort chronologically, for every randomness, exactly when the epoch does not fall between their instants; where it does, they always sort the other way |
| Ids.ParsesExactly | src/blizzard/foundation/ids.py:99-107 | Parsing reads exactly the printed ids of 26 characters whose prefix has no underscore |
| Ids.DigitExactly | src/blizzard/foundation/ids.py:109-118 | Of the ASCII characters the decoding reads just the alphabet's, in either case |
| Ids.MintedAt | src/blizzard/foundation/ids.py:109-119 | The decoding loop, stopping at a character outside the alphabet, and failing on an instant past year 9999 |
| Ids.MintParseRead | src/blizzard/foundation/ids.py:81-119 | Minting, printing, parsing and reading back gives the minted millisecond, for every randomness, exactly from the epoch to the end of the UTC dates; any other instant a `datetime` holds cannot be read back |
| SiteCensus.CheckFact | scripts/restated_invariants.py:354-372 | New are exactly the sites matched and not declared, stale those declared and not matched, each once, new before stale and sorted |
| SiteCensus.Check | scripts/restated_invariants.py:331-393 | The findings are exactly those some fact gives rise to, fact by fact in the registry's order, each fact's in order and once; the exit code is zero exactly when there are none, every fact being clean |
| SiteCensus.Measure | scripts/restated_invariants.py:432-447 | Per fact, the matched sites but for the owners' |
| SiteCensus.ApplyWriteSites | scripts/restated_invariants.py:450-467 | Every fact's sites are replaced in place: what is kept where it stood, then the newly observed, sorted |
| SiteCensus.WrittenSites | scripts/restated_invariants.py:450-454 | A site is written exactly when it is its key's last one and an owner's or still observed, with its role and reason, or is newly observed |
| SiteCensus.WriteThenCheck | scripts/restated_invariants.py:432-467 | After what was measured is written, a check finds nothing new and nothing stale — exactly when no matched key has its owner's site overridden by a later one |
| SiteCensus.WriteAgain | scripts/restated_invariants.py:432-467 | Measuring and writing again changes nothing, under exactly the same condition |
| SiteCensus.DistinctSeenOneWay | scripts/restated_invariants.py:354-356 | Where each site has its own key the condition holds |
| SiteCensus.OverriddenOwnerIsRemoved | scripts/restated_invariants.py:450-467 | A matched key whose owner's site is overridden by a later one has no site after the write, and the census is not clean |

## Left out

- `build` and `serve` raising inside the cache: a refusal by the store is the only way an open fails.
- Wiring the cache to a second `TenantServing`: the protocol has one set of brokers, as a hub process has.
- The internal lock of `TenantBrokers` is one step of its caller; `close_served` closes the gathered objects in one step, and an eviction's close of one tenant's objects is one step.
- TenantObjects.TenantCache.Entry: the stores bundle it builds is named by the entry's index; what `build_tenant_stores` puts in it, but that there is one lock, is not modelled.
- The drain and completion of a deletion, which leave the deletion fact standing, and the founding of a tenant beyond its row.
- HubCore.EveryOpen: the object's own loop runs with no other thread; what others do between its opens is in `EveryOpenExact`.
- Statements of a hub transaction besides its locks, savepoints, and a chunk id that names no row yet: every declared lock is taken as a row lock.
- LockProtocol.NeverDeadlocked: transactions that lock outside `lock_set`, such as a tenant's founding or teardown, are not modelled.
- Resolving imports with the TypeScript compiler and regular expressions: files come with their specifiers, templates as tokens, helpers with their calls, callbacks as trees of constructs.
- PackageLayers.PackageLayerViolations: a path is the list of its segments, and a table's lookup finds only its own keys, though `project.layers[unit] ?? []` also reads inherited property names.
- SwitchTemplates.SweepExact: blocks are switches, cases, defaults and other braced blocks around text free of braces and keywords; a keyword formed by joining the text on both sides of a deleted block is not.
- Splitting a text into lines when rendering, input previews, timestamps and link labels; a rendered line is its indent and content.
- TranscriptRender.RendersAllSpoken: tool outputs printed are covered by the call's result, not by the multiset of texts.
- The block and line comment spans read from blanked source, symbol attribution, and Markdown fences.
- The SHA-256 digests, UTF-8 encoding and `os.urandom`: digests are any functions, randomness any number; instants are whole milliseconds.
- Ids.MintedAt: characters outside ASCII are upper-cased only where the alphabet holds the result, which is all the lookup can tell.
- `check --strict` and `--owners`, the validation of a registry and skipped files: the census covers new and stale sites.
- `computeInitialOutputs` and the reach worklist of the placement sweep, the same search over other edges; the area breakdown.
- The name patterns of mutants, the delta runner, bracket scanning for delay arguments.
- Claims, leases, deliveries and every HTTP route.
