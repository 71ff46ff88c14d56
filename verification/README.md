# Verified model of Cleave's collection, graph, grant and package logic

This project models the parts of the API whose promises are hardest to keep, and proves those promises for every input
and every run. `dafny verify dfyconfig.toml` checks all of it.

* **Collection** (`Tasks`, `Selection`, `Planning`, `Scheduler`, `Layering`, `Execution`, `Collection`, `Runs`,
  `Report`, `Capture`, `Coverage`, `Replay`). Tasks with dependencies, regions and a plan are closed, layered into
  waves and run concurrently; failures become SKIPPED downstream; payloads are merged in place into one capture. A
  task's own work is an arbitrary function from the data before its wave to an outcome. The waves are proved least,
  the report exact, and the capture rebuildable from what was recorded, with the one case where it is not: a list
  returned whole and then appended to by a region is one object in two places.
* **Identity join and access** (`Resources`, `Absorb`, `Naming`, `Identity`, `Folding`, `Conservation`, `Derivation`,
  `Joining`, `Quotient`, `Exploring`, `Lenses`, `Access`, `Grants`, `AccessMeanings`, `Duality`). The join is a
  quotient of the graph: it conserves roles and powers, preserves reachability and is idempotent. Who holds an asset
  and what an identity holds are computed by two separate walks, and are proved to agree.
* **Attack routes** (`Severance`, `Searching`, `Relabelling`, `AssetWalks`, `AssetPaths`, `AttackRoutes`, `FixPlans`).
  Which links every walk within the bound hangs on, for all links in one pass; the routes a breadth-first walk lists;
  and that removing a link and walking again loses exactly the routes it was said to hold open, one change at a time
  or a plan of them.
* **Estate map** (`Sorting`, `Tallies`, `Boxes`, `Estate`, `EstateRoutes`, `EstateListing`, `EstateMaps`,
  `EstateLaws`, `EstateMeanings`). Assets grouped into boxes under a lens, the overflow folded, the links between
  boxes and the routes through them counted.
* **Signing keys** (`SigningKeys`). The single-flight cache as the stretches of code between awaits, over every
  interleaving of calls, ticks, failures and cancellations.
* **Audit grants** (`AuditGrants`, `GrantRuns`, `GrantReads`). The policies and functions of the migration as steps
  over its rows: what every run keeps, and where every payload given out came from.
* **Packages and archives** (`Packages`, `PackageLaws`, `Instants`, `Archive`, `ArchiveLaws`, `ArchiveSums`,
  `ArchiveContents`). Canonical order, what the hash binds, and the accounting of every payload.
* **Signed state and rate limit** (`Base64url`, `SignedState`, `RateLimit`).

Objects the source updates in place are classes here, and their loops are loops; each is proved against a function of
its input or old state, and the laws are proved about those functions. Where a natural claim is false the model keeps
the code and states the exact condition under which the claim holds, with an input on which it fails.

What is taken as given, as a parameter or a named hypothesis: SHA-256, HMAC, zlib, zip and JSON text, the clock,
provider replies, database and Redis storage, and which links of the asset graph convey reach.

## Model

| member | source | states |
|---|---|---|
| Scheduler.Waves | apps/api/app/connectors/collection.py:392-418 | The layering loop returns waves in which every task is placed once, after every reading it needs, and no task waits past the wave before one it needs; it refuses exactly when the keys have a dependency cycle |
| Scheduler.Schedule | apps/api/app/connectors/collection.py:412-416 | Draining one wave leaves the remaining tasks, the settled keys and the per-key counts consistent, whatever the number of regions of a key |
| Scheduler.StuckMeansCycle | apps/api/app/connectors/collection.py:400-411 | When no remaining task is ready, the dependencies of the remaining keys contain a cycle (a walk longer than the keys must repeat one) |
| Layering.ScheduleExcludesCycles | apps/api/app/connectors/collection.py:392-418 | A schedule of the selected tasks and a cycle among their keys exclude each other |
| Layering.WavesAreEarliest | apps/api/app/connectors/collection.py:392-418 | No numbering that respects the dependencies puts any task earlier than its wave |
| Layering.WaveCountIsLongestChain | apps/api/app/connectors/collection.py:392-418 | The number of waves is the length of the longest chain of dependencies, and some chain has that length |
| Selection.Select | apps/api/app/connectors/collection.py:335-365 | The worklist keeps exactly the tasks of the least key set that holds the wanted keys and is closed under dependencies that are not carried, going by the last task of each key |
| Selection.Validate | apps/api/app/connectors/collection.py:367-390 | Refuses exactly when two tasks share a scoped name or a dependency is neither produced nor carried |
| Selection.Construct | apps/api/app/connectors/collection.py:307-333 | A run that is constructed holds the least selection, disjoint from what is carried, and passes validation; without a plan it is refused exactly when its tasks are invalid, and under one exactly when the tasks of the least selection are; never when the tasks are valid and the last of each key declares what the others do |
| Selection.LastOfEachKey | apps/api/app/connectors/collection.py:353-353 | Of several tasks reading one key the last decides what is followed |
| Selection.KeptInOrder | apps/api/app/connectors/collection.py:365-365 | The tasks selected keep their order, each as often as it was offered |
| Selection.SelectionIsLeast | apps/api/app/connectors/collection.py:335-365 | For a constructed run the selection is least and closed over every task of each key, not only the last |
| Selection.EveryPlanRunsExactlyWhenDeclared | apps/api/app/connectors/collection.py:307-365 | Tasks valid without a plan run under every plan exactly when the last task of each key declares every dependency of the others |
| Selection.DeclaredSelectionIsValid | apps/api/app/connectors/collection.py:318-333 | Of such tasks any set of keys closed under the last tasks' dependencies validates |
| Selection.DisagreeingRegionsAreRefused | apps/api/app/connectors/collection.py:351-361 | Two regions of a key that disagree on dependencies: a plan is refused although everything needed is offered |
| Planning.OnlyOffered | apps/api/app/connectors/planning.py:104-110 | Restricting a plan keeps exactly the carried readings of keys the provider offers |
| Planning.OfferedInOrder | apps/api/app/connectors/planning.py:104-110 | They are kept in their order, each as often as it was carried |
| Coverage.KeyProblems | apps/api/app/connectors/collection.py:199-224 | The problem keys are exactly the keys seen and not trustworthy, each with every reason in order, regions named |
| Coverage.ProblemsOneMore | apps/api/app/connectors/collection.py:199-224 | What is said of a key grows by one reason for each result that is not complete, after a semicolon: its detail, or its outcome where it gives none, with the region first; no other key hears of it |
| Coverage.Put | apps/api/app/connectors/collection.py:164-168 | A result of a new name is added after the others |
| Coverage.PutReplaces | apps/api/app/connectors/collection.py:164-168 | A second result of one name takes the place of the first, and no other moves |
| Capture.RebuildAt | apps/api/app/connectors/collection.py:511-535 | Folding the merge keeps, at each data key, the last whole value and the regional blocks since |
| Capture.MergeLeaves | apps/api/app/connectors/collection.py:511-535 | A global output replaces its data keys; a regional one leaves one block that names its region and holds its items, at the end of the list there or of a new one; no other data key changes |
| Capture.LedgerKeeps | apps/api/app/connectors/collection.py:511-535 | Whatever is posted, the live capture is the fold of the outputs, and each recorded payload shows what was appended to a list it shares |
| Capture.RebuildsUnlessTangled | apps/api/app/connectors/collection.py:511-535 | Folding the merge over the recorded payloads rebuilds the capture exactly when no whole list was later appended to by region |
| Capture.SeparateKeysNeverTangle | apps/api/app/connectors/collection.py:511-535 | Data keys written by one kind of task only never tangle |
| Capture.SharedListIsCountedTwice | apps/api/app/connectors/collection.py:526-535 | A list returned whole and appended to by a region: rebuilding counts the block twice |
| Report.Collected.Merge | apps/api/app/connectors/collection.py:511-535 | Merging in place does to capture, recorded payloads and shared lists what one step of the ledger says |
| Report.Collected.Record | apps/api/app/connectors/collection.py:164-168 | Recording keeps the payload with its result, replacing one of the same name |
| Report.Collected.MergeAndRecord | apps/api/app/connectors/collection.py:458-460 | Merging and recording one reading advances the run by that reading |
| Report.MergedOneMore | apps/api/app/connectors/collection.py:523-535 | Merging one more data key is appending its block to what the others left, in whatever order the keys come |
| Execution.RunOne | apps/api/app/connectors/collection.py:537-583 | Each way a task can end gives its own outcome, with the reason it gave; what it returned is kept whole and counted, and a failure keeps nothing |
| Collection.RunTask | apps/api/app/connectors/collection.py:537-583 | Running a task in its branches gives that result and payload |
| Collection.CountItems | apps/api/app/connectors/collection.py:560-583 | The item count is the sum over lists and dictionaries, in any order |
| Collection.CountGrows | apps/api/app/connectors/collection.py:578-578 | One data key more counts as many items as its list or dictionary has, and a single value none |
| Execution.PlainKeysAreDistinct | apps/api/app/connectors/collection.py:84-95 | Keys without '@' make every reading's name its own |
| Collection.Gather | apps/api/app/connectors/collection.py:454-457 | Under any gate and any order of completion, the readings of a wave are the tasks' own, in task order |
| Collection.Skip | apps/api/app/connectors/collection.py:439-452 | Each blocked task is recorded SKIPPED, naming its blocker by the report as it then stands |
| Collection.RunWave | apps/api/app/connectors/collection.py:436-464 | One wave leaves capture and report as if its readings were recorded in task order |
| Collection.RunWaves | apps/api/app/connectors/collection.py:425-466 | All waves leave the state of a finished run; progress after each is the tasks done by then |
| Collection.Execute | apps/api/app/connectors/collection.py:425-496 | A run fails only on a cycle, after seeding what is carried; otherwise it leaves a finished run over tight waves, and its last progress is the number of tasks. Either way what is carried stands first, in order: each reading complete, with its count, when it was taken and the payload it carries |
| Runs.WaveKeeps | apps/api/app/connectors/collection.py:436-509 | Recording one wave keeps the account: one result per task so far, each judged by its dependencies |
| Runs.EveryReadingIsRecordedOnce | apps/api/app/connectors/collection.py:425-496 | A finished run holds exactly one result per task and per carried key, and nothing else; the carried ones first and in order, each complete, with its count, when it was taken and its payload |
| Runs.FirstWaveSeesCarried | apps/api/app/connectors/collection.py:468-496 | Before the first wave a data key holds the value of the last carried payload that has it, and otherwise what it held |
| Runs.SkippedExactlyWhenBlocked | apps/api/app/connectors/collection.py:436-509 | A task is SKIPPED exactly when a key it depends on is not trustworthy in the finished report, and then it names the first of those it declares and has nothing recorded; any other ran on the capture as recorded before its wave, which no later reading of its dependencies follows, and what it returned is what is recorded |
| Runs.ProblemsSpread | apps/api/app/connectors/collection.py:184-224 | A problem key makes a problem of every key that depends on it, however indirectly |
| Runs.CaptureIsRebuilt | apps/api/app/connectors/collection.py:425-535 | The capture a finished run leaves is the initial data with the recorded payloads merged in order, exactly when nothing tangled |
| Replay.GapsFromCoverage | apps/api/app/connectors/base.py:173-189 | The gaps are the entries that are not complete, each with its reason, in any order |
| Replay.GapsAreProblemsExactlyWhenGlobal | apps/api/app/connectors/base.py:173-189 | Gaps rebuilt from stored coverage equal the report's problems, reasons included, exactly when no regional reading failed |
| Replay.RoundTripsExactly | apps/api/app/connectors/base.py:108-171 | A snapshot comes back from its stored form whole, but for payloads that are never stored, exactly when it names its zone and lists a gap or has none in its coverage to list |
| Replay.OldCapturesDegradeTheSameRules | apps/api/app/connectors/base.py:123-189 | A capture stored before gaps were recorded replays with the problems of its report |
| Replay.RefusedWhenUnknown | apps/api/app/connectors/base.py:133-140 | A stored form is refused exactly when it names a provider or a scope there is none of |
| Replay.AbsentFieldsReadAs | apps/api/app/connectors/base.py:137-158 | A capture that lacks a field replays as one that has it: of an account, at version 1.0, with no data, errors, gaps or coverage |
| Replay.MomentReadAs | apps/api/app/connectors/base.py:162-170 | Its moment is the one recorded, in UTC where it names no zone, and now where none was recorded or none can be read |
| Resources.TruthyMeans | apps/api/app/graph/identity.py:129-150 | A mark is set unless it is missing, None, False, an empty text or an empty list |
| Text.LowerIgnoresCase | apps/api/app/graph/access.py:116-121 | Two texts are one in lower case exactly when they differ in nothing but the case of letters, and no capital is left |
| Absorb.AbsorbedAt | apps/api/app/graph/identity.py:136-155 | Every metadata value of the result, but the marks: the base's over the other's, roles extended, listed powers and eligible roles combined without repeats |
| Absorb.AbsorbKeeps | apps/api/app/graph/identity.py:136-155 | Absorbing adds up the roles, powers and eligible roles of both records and leaves who the base is and whether it is a stand-in |
| Absorb.AbsorbKeepsEntries | apps/api/app/graph/identity.py:136-155 | One entry at a time: the result lists a role, a power or an eligible role exactly when one of the two records did, roles being one that agree on the role, on the target (or scope) ignoring case, on the group they come by and on the condition |
| Absorb.WithExtra | apps/api/app/graph/identity.py:303-318 | The roles held stay first and in place; after them come only extra roles, none with a key already there, until every key of either is there |
| Absorb.ExtraRoleAt | apps/api/app/graph/identity.py:303-329 | An extra role is appended exactly when no role held and none of the extra ones before it agrees with it on role, target or scope ignoring case, inheritance and condition; what is appended stays in place |
| Naming.UnnamedWhenBothWere | apps/api/app/graph/identity.py:143-150 | A record is unnamed exactly when both were, unless the base says nothing of its name and the other's was made up |
| Naming.LostExactlyThere | apps/api/app/graph/identity.py:111-155 | Over any copies of one id a name that was read is lost exactly when the first record that is no stand-in is unnamed and follows stand-ins, one of them read and their merge marked unnamed, with no later copy read |
| Naming.LostByTheCopies | apps/api/app/graph/identity.py:111-155 | Where no stand-in records a mark that is not set, the condition is on the copies alone: the stand-in just before that record is unnamed, in place of their merge being marked |
| Naming.UnmarkedStandInsLoseNothing | apps/api/app/graph/identity.py:111-155 | Where no stand-in is marked unnamed, no name that was read is lost |
| Naming.NodesLoseNames | apps/api/app/graph/identity.py:111-155 | Every node of the merge has the name of one of its copies, and loses one that was read exactly there |
| Naming.MadeUpNameWins | apps/api/app/graph/identity.py:111-155 | A named stand-in, an unnamed one and an unnamed record, in that order: the name that was read is lost |
| Identity.MergeCopies | apps/api/app/graph/identity.py:111-133 | One node per id, in first-seen order: its copies merged one with the next, the record over a stand-in whichever came first, with every copy's roles and powers |
| Identity.CopiesKeepEntries | apps/api/app/graph/identity.py:111-133 | One entry at a time: the node of an id lists what some copy of it lists, and nothing else |
| Folding.ByIdentity | apps/api/app/graph/identity.py:167-171 | Records are grouped by identity id ignoring case, in order |
| Folding.FoldStubs | apps/api/app/graph/identity.py:165-185 | Every record but the canonical one of its identity is aliased to it, whatever order identities are taken in |
| Folding.TheFirstIsKept | apps/api/app/graph/identity.py:173-178 | The record kept for an identity is the first in the table that is no stand-in, or the first of all where all are |
| Conservation.FoldConserves | apps/api/app/graph/identity.py:173-185 | The node left for an identity holds what all its records held, and is a stand-in only if all were |
| Conservation.FoldKeepsEntries | apps/api/app/graph/identity.py:165-185 | One entry at a time: the node left for an identity lists what some record of it lists, and nothing else |
| Joining.Join | apps/api/app/graph/identity.py:85-108 | The join's nodes, aliases and edges: copies merged in order, stand-ins folded, edges redrawn and then derived ones added, in order, each where it first comes up |
| Joining.Redraw | apps/api/app/graph/identity.py:96-101 | The redrawn edges are the images of the input edges in order, loops left out and each listed once, where it first comes up |
| Derivation.DerivedAreImplied | apps/api/app/graph/identity.py:188-246 | The derived edges are exactly the memberships, sign-ins, registration controls and directory powers the nodes imply |
| Derivation.ImpliedEnds | apps/api/app/graph/identity.py:188-246 | A derived edge joins two nodes, and loops only on a subscription that can take over every subscription |
| Quotient.ResolvesAtOnce | apps/api/app/graph/identity.py:85-108 | An id resolves to a node at once, or to itself where the graph never held it |
| Quotient.OneNodePerIdentity | apps/api/app/graph/identity.py:165-185 | No two nodes of the join are one identity, ignoring case |
| Quotient.JoinConserves | apps/api/app/graph/identity.py:111-185 | A node's roles and powers are those of all input records that resolve to it; it is a stand-in exactly when all of them were |
| Quotient.JoinKeepsEntries | apps/api/app/graph/identity.py:85-185 | One entry at a time: a node lists a role, a power or an eligible role exactly when a record that resolves to it lists one, roles being one that agree on role, target or scope ignoring case, inheritance and condition |
| Quotient.ReachabilityIsKept | apps/api/app/graph/identity.py:94-101 | What was reachable stays reachable between the nodes the ends resolve to |
| Quotient.EdgesAreAccountedFor | apps/api/app/graph/identity.py:94-107 | Every edge is an input edge redrawn or one the nodes imply, none touches a folded id, and it loops exactly where a node owns its own scope |
| Quotient.JoiningTwice | apps/api/app/graph/identity.py:85-108 | Joining the result again gives the same nodes, no aliases and the same edges |
| Exploring.AllFound | apps/api/app/graph/access.py:276-284 | A breadth-first walk with nothing left to follow has found exactly what its start leads to |
| Exploring.LeadsBack | apps/api/app/graph/access.py:276-284 | One end leads to the other exactly when, over transposed edges, the other leads back |
| Lenses.LensFor | apps/api/app/graph/access.py:125-145 | The lens of an edge controls an asset exactly when the edge escalates, nothing says what its roles do, or one of them controls it |
| Lenses.WhatAnEdgeControls | apps/api/app/graph/access.py:99-171 | An edge controls an asset exactly when it lets its source grant itself the rest, no role is recorded at its target, or one that is was never looked into or states that its holder reads data of the kind, runs it, or edits the policy that governs it |
| Lenses.MoreRolesControlLess | apps/api/app/graph/access.py:125-145 | One more role takes an asset out of reach exactly when it is the first recorded there, was looked at, and does not control it |
| Lenses.FirstRoleShrinksTheLens | apps/api/app/graph/access.py:135-139 | Reader, given where no role was recorded, shrinks the lens |
| Access.Containers | apps/api/app/graph/access.py:276-284 | The chain is the asset and everything containing it, each once |
| Access.Under | apps/api/app/graph/access.py:640-656 | What is under a node is everything it contains among the nodes, each once |
| Access.Holders | apps/api/app/graph/access.py:259-337 | The holders are exactly the roles assigned at the asset or above it, and those who can take it through the directory |
| AccessMeanings.HoldersAreWhoTheRecordsSay | apps/api/app/graph/access.py:234-336 | Read off the records: each role a principal states at the asset or above it, with its name, condition and what it states of the asset; controlling where it was read and grants access or states reach; and one unnamed role where an edge has none behind it |
| Access.DirectoryHolders | apps/api/app/graph/access.py:413-453 | Through the directory: exactly who can take over a subscription above the asset or sign in as it |
| Grants.GrantOf | apps/api/app/graph/access.py:597-637 | A role controls exactly the assets under its target that are no scopes and its lens controls |
| AccessMeanings.GrantsAreWhatTheRolesSay | apps/api/app/graph/access.py:597-656 | Read off the record: the name, place, condition and origin of a role, and as controlled what stands under its target, is no scope, and is reached by what the role states, or anything where it grants access |
| AccessMeanings.HeldRolesAre | apps/api/app/graph/access.py:501-520 | The roles listed are the identity's own, then those of every group it is a member of and every identity it may act as |
| Grants.GrantsOf | apps/api/app/graph/access.py:484-589 | One grant for each role held directly or through a group or identity, in order, and then one for each link to a subscription that can be taken over, in order |
| Duality.RoleAgrees | apps/api/app/graph/access.py:597-637 | A role controls an asset exactly when the asset's holders list that role as controlling |
| Duality.HoldersAndGrantsAgree | apps/api/app/graph/access.py:259-337 | An asset is among those a directly held role controls exactly when its holders list that principal and role as controlling |
| Duality.TakeOversAgree | apps/api/app/graph/access.py:413-453 | The same for taking over a subscription |
| Duality.LensAgrees | apps/api/app/graph/access.py:125-145 | Given a role recorded and all evaluated, the lens of the edge controls an asset exactly when some role there does, its role granting apart |
| Boxes.BoxesDoNotMix | apps/api/app/graph/estate.py:169-190 | No box mixes assets inside the lens with assets outside it |
| Boxes.BoxesAreUniform | apps/api/app/graph/estate.py:177-190 | All that shares a box shares its scope, and its group unless the box is a whole scope |
| Boxes.KindSurvives | apps/api/app/graph/estate.py:99-117 | The kind read back off a box's id is the kind it was made as |
| Boxes.IdsTellBoxesApart | apps/api/app/graph/estate.py:99-117 | Two boxes of one map with one id are one box |
| Estate.CountReach | apps/api/app/graph/estate.py:192-195 | The reach of each asset is the number of its ends of links of reach |
| EstateMeanings.ReachIsLinks | apps/api/app/graph/estate.py:191-195 | An asset's reach is the number of links of reach between it and another asset |
| Estate.BoxEach | apps/api/app/graph/estate.py:228-231 | Each asset is in its box, or in the fold where it would be drawn and is not |
| EstateMeanings.WhereEachAssetIs | apps/api/app/graph/estate.py:164-236 | Under a lens everything elsewhere is in the box of its scope, what sits in the group opened or directly in a scope opened whole is drawn or folded, every other group is a box; and the opened boxes are those in the scope and group the lens names |
| Estate.Members | apps/api/app/graph/estate.py:233-235 | The members of each box are the assets in it, in order |
| Estate.CountCrossings | apps/api/app/graph/estate.py:238-250 | The counted links are exactly those that qualify, each between its two boxes by relationship |
| EstateMaps.MapEstate | apps/api/app/graph/estate.py:133-295 | The map, or none exactly when the lens names nothing: its rows and counted links, each in the order listed, folded reach and the routes through each box |
| EstateMaps.CrossingsAreShown | apps/api/app/graph/estate.py:252-257 | No box is shown with nothing in it |
| EstateRoutes.CountRoutes | apps/api/app/graph/estate.py:279-293 | Each shown box counts the paths through it that touch an opened box; their number is the total |
| EstateLaws.RoutesAreOfTheMap | apps/api/app/graph/estate.py:279-293 | No box counts more routes than the map, only boxes shown count any, and the map counts one exactly when an opened box does |
| EstateMeanings.RoutesArePaths | apps/api/app/graph/estate.py:281-293 | Each box shown counts the paths with an asset in it among those with an asset in an opened box; the total counts all of those |
| EstateMeanings.ShownBoxes | apps/api/app/graph/estate.py:252-252 | A box is shown exactly when the lens opened something in it or a counted link runs to or from it |
| EstateMeanings.RowsSay | apps/api/app/graph/estate.py:254-266 | A row takes its scope and group from its first member by id, and no group where it is a whole scope; it is inside exactly where its box is opened |
| EstateMeanings.ListedByIds | apps/api/app/graph/estate.py:254-278 | Members are listed by id, and edges by the ids of where they start and then of where they end |
| EstateLaws.RowsAreListed | apps/api/app/graph/estate.py:254-278 | Each row is listed once, those the lens opened first, and an edge is listed exactly for each kind of link there is between two boxes |
| EstateLaws.EachAssetInOneBox | apps/api/app/graph/estate.py:228-272 | Every asset is in one box and listed there once, nowhere else |
| EstateLaws.OpenBoxesHoldTheInside | apps/api/app/graph/estate.py:236-262 | The opened boxes hold exactly the assets inside the lens, and all are shown |
| EstateLaws.RowsSpeakForTheirMembers | apps/api/app/graph/estate.py:254-268 | A row's scope, and its group, are those of all its members |
| EstateLaws.EdgesCountTheLinks | apps/api/app/graph/estate.py:238-250 | Each edge counts the links whose source is in its one box and whose target is in its other, one of the two opened, by relationship: those that convey reach, and containment a route runs along; and the counts add up to every such link |
| EstateLaws.FoldedOnlyAtTheCap | apps/api/app/graph/estate.py:213-229 | No more assets are drawn than allowed, and one with reach is folded only when that many are |
| EstateLaws.DrawnComeFirst | apps/api/app/graph/estate.py:213-226 | Nothing folded outranks anything drawn: by what matters, then what is on a route, then reach |
| EstateMeanings.DrawnAreTheFirst | apps/api/app/graph/estate.py:197-225 | Drawn are the first so many of the opened assets that matter, are on a path or carry reach: by what matters, then what is on a path, then by reach, kind, name and id |
| EstateMeanings.FoldedReachIsCounted | apps/api/app/graph/estate.py:226-294 | The folded count is the number of assets in the fold with a link of reach |
| EstateLaws.DrawnIgnoresOrder | apps/api/app/graph/estate.py:192-228 | The order assets and links are listed in decides nothing about reach or which assets are drawn |
| Severance.NecessaryLinks | apps/api/app/graph/severance.py:104-134 | For each state some walk within the bound reaches, exactly the links every such walk uses; the states are exactly those reached |
| Severance.NoFurther | apps/api/app/graph/severance.py:123-124 | Where no state is reached in one step more, none is in any number of steps: stopping early loses nothing |
| Severance.SeveredPairs | apps/api/app/graph/severance.py:137-171 | A pair is filed under a link exactly when some entry reaches the target, another node, within the bound and every walk that does uses the link |
| Severance.NeededMeansCutOff | apps/api/app/graph/severance.py:28-31 | A link is necessary to a state exactly when removing it puts the state out of reach within the bound |
| Severance.SeveredExactlyWhenCutOff | apps/api/app/graph/severance.py:137-171 | A pair closes under a link exactly when its target is reached within the bound and is not once the link is removed |
| Searching.Search | apps/api/app/graph/model.py:435-482 | The breadth-first walk over states, each seen once, finds exactly the nodes some walk within the bound reaches, each by a shortest of all walks that do |
| AttackRoutes.ReachableFrom | apps/api/app/graph/model.py:435-534 | From the node an id resolves to, nothing where that is none, it finds just what some path of links within the bound reaches, each over a shortest one: containment is always followed, anything else only from what is held, a role only where it controls something, and what lies below a role is held only past an asset that role controls |
| AssetPaths.DownFromOneRole | apps/api/app/graph/model.py:492-515 | Over one role and then down through containment, a walk holds where it ends exactly when the roles behind that link control something on the way that is no scope; otherwise it stands there with a lens that controls what they do |
| AssetPaths.ReachIsByPaths | apps/api/app/graph/model.py:492-574 | A node is reached with some links removed exactly when some such path within the bound reaches it over none of what that takes, an escalation over an assigned role going with the assignment |
| AssetPaths.ShortestByPath | apps/api/app/graph/model.py:435-482 | A shortest walk to a node runs over a shortest path of links to it |
| AttackRoutes.AttackPaths | apps/api/app/graph/model.py:576-602 | One route for each way in and other asset worth taking that some such path within the bound joins, over a shortest path, the shortest listed first |
| AttackRoutes.ShortestFirst | apps/api/app/graph/model.py:602-602 | Routes with fewer links come first, and those of one length by the name of what they reach |
| AssetWalks.CutReaches | apps/api/app/graph/model.py:866-874 | The graph built again without some links reaches what the graph reaches over the others |
| AssetPaths.CutSpares | apps/api/app/graph/model.py:549-566 | Without some links the graph has each link they do not take |
| AssetWalks.CutTwice | apps/api/app/graph/model.py:549-566 | Removing in two goes is removing at once: what is left is removed by what removed it before |
| AssetWalks.NeededIsCutOff | apps/api/app/graph/model.py:542-566 | Every walk to a node crosses what a link's removal takes exactly when nothing reaches the node with that removed |
| AttackRoutes.LinkSeverance | apps/api/app/graph/model.py:739-773 | Under each link that can be removed, exactly the routes that removing it loses; no link is listed that loses none |
| AttackRoutes.SeveranceIsWhatRemovalLoses | apps/api/app/graph/model.py:739-773 | Removing a link and asking the graph for its routes again leaves exactly the others: the severed and the remaining are apart and together are all |
| AttackRoutes.SeveredRoutesCross | apps/api/app/graph/model.py:816-822 | A route that closes with a link is one of those drawn across it |
| AttackRoutes.SeveredByPaths | apps/api/app/graph/model.py:739-773 | A route closes with a link exactly when somebody can remove that link and no path within the bound is left over what its removal spares |
| AttackRoutes.Cut | apps/api/app/graph/model.py:830-864 | Nothing exactly for a link not there or not removable; else what closes, and the number of routes as the graph is and as it would be without it |
| FixPlans.Pick | apps/api/app/graph/model.py:977-988 | The change picked loses the most routes, and costs least of those that do |
| FixPlans.PicksTheCheapest | apps/api/app/graph/model.py:977-988 | Nothing closes more than what is picked; of what closes as much, an assignment or membership goes before anything else, and what the directory lets an identity do before the rest |
| FixPlans.PickedIsBest | apps/api/app/graph/model.py:977-996 | What the severance of the graph without the earlier changes counts is what closes, and no single other change would close more |
| FixPlans.MakePlan | apps/api/app/graph/model.py:950-1000 | Every change of the plan closes something and the most any one could; what they close and what remains add up to all routes; and where routes remain within the limit no single change closes any |
| SigningKeys.Usable | apps/api/app/core/security.py:139-143 | The keys kept are those with an id and not for encryption |
| SigningKeys.LastOfEachId | apps/api/app/core/security.py:139-143 | Of several usable keys of one id the last is kept |
| SigningKeys.Keys.Look | apps/api/app/core/security.py:115-121 | A key is answered at once exactly when held and fresh, or held while another call reads it again |
| SigningKeys.Keys.Enter | apps/api/app/core/security.py:122-128 | Under the lock a fetch begins exactly when the key is missing or old and the last attempt is 30 seconds past |
| SigningKeys.Keys.Succeed | apps/api/app/core/security.py:131-143 | A fetch that answers replaces the set, dated from its start |
| SigningKeys.Keys.Fail | apps/api/app/core/security.py:131-138 | A fetch that fails keeps the last set |
| SigningKeys.FetchesNeverOverlap | apps/api/app/core/security.py:115-129 | In every interleaving at most one fetch is in flight |
| SigningKeys.AttemptsAreRare | apps/api/app/core/security.py:112-113 | Attempts are 30 seconds apart: at most T/30 + 1 over a span T |
| SigningKeys.FetchesWhenNeeded | apps/api/app/core/security.py:115-129 | In every run a call that gets the lock reads the published set exactly when the last set read lacks its key or is 300 seconds old and none was asked for in the last 30 seconds; otherwise it answers and leaves the set as it was |
| SigningKeys.MissesAreRecent | apps/api/app/core/security.py:115-143 | A key missing from an answer is missing from the last set read, which the call read itself, or could not be read just then, or was last asked for less than 30 seconds ago |
| SigningKeys.CancelledCallsAreGone | apps/api/app/core/security.py:122-129 | A call that is cancelled gives no answer; the set read stays, and the lock it held is let go |
| SigningKeys.AnswersAreCurrent | apps/api/app/core/security.py:109-143 | Every answer is from the last set read, and dated as it was; but during a fetch or within 30 seconds of a failed one, that set is 300 seconds old or more exactly when the call fetched it itself and took that long |
| SigningKeys.SlowFetchAnswersStale | apps/api/app/core/security.py:122-143 | A call whose own fetch takes 300 seconds answers from a set already that old |
| AuditGrants.Store.Open | database/migrations/versions/0050_audit_grants.py:146-185 | Opening checks in order, binds the grant on first use, and records one event; refused, it changes nothing |
| AuditGrants.Store.Download | database/migrations/versions/0050_audit_grants.py:264-276 | A download is recorded only through a live grant |
| GrantReads.EveryGrantIsAccounted | database/migrations/versions/0050_audit_grants.py:76-185 | Over every run, each grant was inserted in its creator's own name by an admin of its organization, for a package of that organization and at most 90 days; if opened, first opened with its token by somebody verified at its address while it was live; if revoked, revoked by an admin in their own name |
| GrantReads.PayloadsAreGranted | database/migrations/versions/0050_audit_grants.py:115-248 | Over every run, a read gives a payload exactly when it is asked for through a grant of the payload's organization whose package names it, live at that moment, opened by this caller and for the address verified; and that grant was inserted and opened as above |
| GrantReads.NothingReadAfterRevocation | database/migrations/versions/0050_audit_grants.py:133-135 | From its revocation on nothing is read through a grant, by anybody |
| GrantRuns.KeepsInv | database/migrations/versions/0050_audit_grants.py:77-185 | Every step of admins, auditors and the clock keeps the invariant |
| GrantRuns.NothingIsUndone | database/migrations/versions/0050_audit_grants.py:90-97 | Over every run a grant stays what it was: opened by the same user, revoked for good |
| GrantRuns.OpenedExactlyOnce | database/migrations/versions/0050_audit_grants.py:173-182 | An opened grant has one opening marked first, before its other events; one never opened has none |
| GrantRuns.EventsAreTheOpeners | database/migrations/versions/0050_audit_grants.py:119-185 | Every event is by the user who opened the grant, before it expired, and no later than the statement that revoked it |
| GrantRuns.OneLiveGrant | database/migrations/versions/0050_audit_grants.py:76-78 | Two grants of one package to one address are never both live |
| GrantRuns.GrantsAreBounded | database/migrations/versions/0050_audit_grants.py:66-75 | Every grant of every run lasts at most ninety days and is to an address in lower case |
| GrantRuns.WrittenExactlyWhen | database/migrations/versions/0050_audit_grants.py:53-101 | A grant may be written exactly by an admin of its organization in their own name, of a package of that organization, unopened, for at most ninety days, to an address in lower case, while no other has its id or token or is live for the same package and address |
| GrantRuns.DownloadsRecordTheManifest | database/migrations/versions/0050_audit_grants.py:264-276 | Every download on record was taken down when it was made, with the manifest its package had then |
| GrantRuns.WhoGetsIn | database/migrations/versions/0050_audit_grants.py:119-171 | A link opens exactly for the verified address while live, for its first opener or again for the same one; a grant is read exactly by its opener under the same conditions |
| GrantRuns.OpeningIsRefusedFor | database/migrations/versions/0050_audit_grants.py:146-172 | Why a link is refused: that it was revoked, else that it expired, else that it is for another address, else that another opened it |
| GrantRuns.ReadingIsRefusedFor | database/migrations/versions/0050_audit_grants.py:119-144 | Why a read is: to anybody but its opener a grant is not there at all |
| GrantRuns.LinkIsSpent | database/migrations/versions/0050_audit_grants.py:169-172 | Once opened, a link is refused to everybody else, ever after |
| GrantRuns.NothingAfterRevocation | database/migrations/versions/0050_audit_grants.py:133-135 | Nothing happens through a grant after it is revoked |
| GrantRuns.RecordedTimeHolds | database/migrations/versions/0050_audit_grants.py:90-97 | Every event falls no later than the recorded time of revocation exactly when every event so far does, as with any time from the clock on |
| GrantRuns.RevocationCanBeBackdated | database/migrations/versions/0050_audit_grants.py:97-97 | A revocation dated before an opening leaves a later event |
| Archive.GapRows | apps/api/app/compliance/archive.py:197-256 | The gap rows are those of each control and then of each reading, in order |
| Archive.PathsTellFilesApart | apps/api/app/compliance/archive.py:474-480 | No two files share a path, whatever their hashes and slugs |
| Archive.Writer.Add | apps/api/app/compliance/archive.py:474-480 | Adding a file keeps each path's last hash |
| Archive.WritePayloads | apps/api/app/compliance/archive.py:507-524 | Each hash gets one status, and exactly the intact payloads are written |
| Archive.WriteArchive | apps/api/app/compliance/archive.py:490-549 | The entries and the summary of an archive |
| ArchiveLaws.EveryHashIsCounted | apps/api/app/compliance/archive.py:536-542 | The three counts add up to the distinct hashes, and the included are the payload files |
| ArchiveContents.SummaryCounts | apps/api/app/compliance/archive.py:536-542 | Included are the hashes whose payload is stored whole, pruned those none is found under, and every gap row is counted |
| ArchiveLaws.PayloadFilesEarnTheirNames | apps/api/app/compliance/archive.py:507-524 | A payload file is in the archive exactly when a reading names it and what is stored inflates to content that hashes to its name |
| ArchiveLaws.EveryUnsettledControlIsListed | apps/api/app/compliance/archive.py:203-225 | The control rows of the gaps are exactly one for each control neither passing nor failing, in order |
| ArchiveLaws.EveryLeftOutPayloadIsListed | apps/api/app/compliance/archive.py:236-256 | The payload rows of the gaps are exactly one for each reading whose payload was left out, in order |
| ArchiveContents.EveryIncompleteReadingIsListed | apps/api/app/compliance/archive.py:225-238 | A row about a reading is there as often as a control rests on one never taken, or as the package has one that came out other than complete, and no more often |
| ArchiveContents.ControlRowsComeFirst | apps/api/app/compliance/archive.py:202-256 | Rows of controls come before rows of the readings of the package, which name no control |
| ArchiveContents.EveryFileIsThere | apps/api/app/compliance/archive.py:525-549 | Beside the payloads and SHA256SUMS the archive holds exactly the controls of each framework, the gaps, the fixes where there are any, the readings, the manifest and the README |
| ArchiveContents.StatusesSay | apps/api/app/compliance/archive.py:507-524 | Each hash a reading names is told whole, damaged or gone, by what is stored under it |
| ArchiveSums.FilesAreCountedUnlessSlugsCollide | apps/api/app/compliance/archive.py:525-537 | The file count is the number of entries exactly when framework file names are distinct |
| ArchiveSums.SumsListEveryOtherFile | apps/api/app/compliance/archive.py:543-549 | With distinct file names SHA256SUMS lists every other file once with its true hash |
| ArchiveContents.LinesAreSorted | apps/api/app/compliance/archive.py:544-549 | Its lines come in the order of their paths |
| ArchiveSums.LinesAreTheFilesUnlessSlugsCollide | apps/api/app/compliance/archive.py:525-549 | It has a line for each other file exactly when framework file names are distinct |
| ArchiveSums.SlugsCanCollide | apps/api/app/compliance/archive.py:525-549 | Two ids the request schema admits, one with a dot at its end, share a file, and a line is missing; the catalog has no such ids |
| ArchiveSums.PlainNamesNeverCollide | apps/api/app/compliance/archive.py:126-130 | Ids of safe characters with no dash or dot at either end, as the catalog's are, are their own file names, distinct exactly when the ids are |
| ArchiveContents.AllKeptStays | apps/api/app/compliance/archive.py:126-127 | An id of letters, digits, dots, underscores and dashes is kept as it is |
| ArchiveContents.NamesAreDashed | apps/api/app/compliance/archive.py:126-127 | Letters, digits, dots, underscores and dashes of an id are kept, and each run of anything else is one dash |
| ArchiveContents.SlugsAreStripped | apps/api/app/compliance/archive.py:126-127 | Dashes and dots are stripped off both ends; of nothing left, the fallback is used |
| PackageLaws.EvidenceIsTheRows | apps/api/app/compliance/package.py:134-315 | Where no two rows that say different things share an order key, equal evidence sections mean the same readings, each as often |
| PackageLaws.DescribedAlike | apps/api/app/compliance/package.py:134-151 | Two rows are described in one way exactly when they agree on key, account, region and all details, on their permissions in any order, and on their endpoints in any order but that of those sharing a path and a version |
| PackageLaws.DistinctEndpoints | apps/api/app/compliance/package.py:145-148 | Where no two endpoints share a path and a version, that is the same endpoints in any order |
| PackageLaws.EvidenceIsInOrder | apps/api/app/compliance/package.py:154-155 | The section lists readings by key, then account, then region, what is missing coming first |
| PackageLaws.ReadOrderMattersOnlyForTies | apps/api/app/compliance/package.py:154-155 | The evidence section is independent of read order exactly when no two differently described rows share an order key |
| PackageLaws.NoRegionTiesWithEmptyRegion | apps/api/app/compliance/package.py:154-155 | A missing region and an empty one tie, and their read order shows |
| PackageLaws.VerifiesWhatWasSealed | apps/api/app/compliance/package.py:134-330 | Where the digest tells the package from the one sealed, it verifies exactly when its fields, its fixes from version 2 on, and its readings are those sealed: as many rows that say each thing |
| PackageLaws.VerifyIgnoresReadOrder | apps/api/app/compliance/package.py:323-330 | Verifying does not depend on read order |
| PackageLaws.LatestFixesAreKept | apps/api/app/compliance/package.py:270-282 | The fixes kept are the latest, as many as there were up to 5000; none left out is later, and the total counts all |
| Instants.IsoSortsByTime | apps/api/app/compliance/package.py:53-62 | The ISO text of two moments in UTC compares as the moments do |
| Instants.IsoSays | apps/api/app/compliance/package.py:53-62 | The text has each field where ISO 8601 puts it, a fraction only where there is one, and ends in the offset of UTC |
| Base64url.DecodesPadded | apps/api/app/core/signing.py:65-72 | Decoding gives back the bytes, whatever their number |
| Base64url.GroupIsOneNumber | apps/api/app/core/signing.py:65-72 | Three bytes and their four values are one number of twenty-four bits, the highest first |
| Base64url.SymbolsAreTheTable | apps/api/app/core/signing.py:65-72 | Values are written by the URL-safe table of RFC 4648, and a text is in the alphabet when each of its characters is in the table |
| Base64url.DecodesWellPadded | apps/api/app/core/signing.py:91-95 | Just those texts decode that are whole groups of four characters of the alphabet but for at most two padding characters at the end |
| Base64url.PaddingIsRestored | apps/api/app/core/signing.py:91-91 | The stripped padding is restored from the length alone, and nothing else was stripped |
| Base64url.RoundTrip | apps/api/app/core/signing.py:65-93 | Unpadded encoding and padded decoding is the identity on every list of bytes |
| SignedState.SplitsAtTheLastDot | apps/api/app/core/signing.py:82-83 | The last dot separates body and mac |
| SignedState.VerifyInvertsSign | apps/api/app/core/signing.py:65-110 | A signed state whose JSON reads back gives its claim back exactly when asked for its purpose with a numeric issue time no older than allowed; for another purpose it is always refused |
| SignedState.OnlyLiveClaimsForThePurpose | apps/api/app/core/signing.py:75-110 | What is accepted, of any text, is a body with its own mac holding a claim stamped with the purpose asked for and a numeric issue time no older than allowed |
| SignedState.UnsignedSaysNothing | apps/api/app/core/signing.py:81-89 | A text that is no body with its own mac is refused without a look at what it holds |
| RateLimit.Store.OverLimit | apps/api/app/core/middleware.py:391-421 | One hit counted and its expiry set again; over exactly when the answered count passes the limit |
| RateLimit.HitsAreHeld | apps/api/app/core/middleware.py:399-406 | A hit is counted with those still held, and all of them are held one full window from it; no other counter changes |
| RateLimit.CountersOutliveTheirWindows | apps/api/app/core/middleware.py:399-406 | The expiry set on every hit never drops a counter before its window ends |
| RateLimit.CountsHitsUnlessLate | apps/api/app/core/middleware.py:399-408 | A counter holds the number of its hits exactly when none came after it ran out |
| RateLimit.WindowIsBoundedByLateHits | apps/api/app/core/middleware.py:391-421 | Over every run, per caller and window no more answered requests are admitted than the limit, and the limit once more for each hit that came after its counter ran out |
| RateLimit.WindowIsBounded | apps/api/app/core/middleware.py:371-421 | Where no hit comes after its counter ran out, no more than the limit of answered requests are admitted per caller and window |
| RateLimit.BoundedUnlessLate | apps/api/app/core/middleware.py:391-421 | Where the store answers every request for a key, its limit holds whatever it is exactly when no hit comes after its counter ran out |
| RateLimit.LateHitMayBeHarmless | apps/api/app/core/middleware.py:399-421 | Where an answer was lost, a hit can come late and no limit be passed |
| RateLimit.LateHitIsAdmitted | apps/api/app/core/middleware.py:399-408 | A request made just before the window ends and counted just after is admitted past the limit |
| RateLimit.SpanIsBoundedByLateHits | apps/api/app/core/middleware.py:371-421 | Over every run, in any span of one window's length no more are admitted than twice the limit, and the limit once more for each late hit of the two windows it meets |
| RateLimit.LateHitsPassTheSpan | apps/api/app/core/middleware.py:399-408 | Two hits that came late admit three requests in one span under a limit of one |
| RateLimit.SpanIsBounded | apps/api/app/core/middleware.py:371-385 | In any span of one window's length at most twice the limit are admitted, where no hit of the two windows it meets comes after its counter ran out |
| RateLimit.PromptSpanIsBounded | apps/api/app/core/middleware.py:371-408 | So it is where requests are counted before the windows they are made in end |

## Left out

- asyncio itself: the semaphore is a gate of any positive width and completion order is arbitrary; cancellation is modelled for signing keys only.
- Permissions, endpoints and timestamps of readings, `category_problems` and logging in `connectors/collection.py`: carried along or derived by one branch.
- Payload values are texts, lists and dictionaries; lists shared between two outputs by a task of its own making are not modelled, only the sharing the executor causes.
- Case folding is over ASCII letters; no Unicode normalization.
- Selection.Construct: a key carried twice in one plan is not modelled, because the carried mapping has distinct keys.
- Collection.Execute: requires every reading's name to be its own and validation to have passed; names that collide by an '@' inside a key are only characterised by Execution.PlainKeysAreDistinct.
- Absorb.AbsorbKeeps: metadata values are flags, texts and lists of entries; entries hold text fields and an evaluated access, empty where falsy.
- Derivation.DerivedAreImplied: owners given as mappings name no identity; the sorted order in which derived edges are listed is not kept.
- Access.Holders: the display order, the workloads and members shown beside a holder, and roles that could be activated (they never control) are not modelled.
- Access.DirectoryHolders: the wording of a role held through the directory and the kinds of access it amounts to are not modelled.
- Naming.UnmarkedStandInsLoseNothing: that the Azure connector marks only directory records (`connectors/azure/normalizer.py:411`) is read off it and not modelled.
- AttackRoutes.AttackPaths: which assets are ways in and which worth taking is given; the order of routes that tie, and of the links of a graph built again, is not kept.
- FixPlans.MakePlan: changes that tie in what they close and cost are taken in any order.
- `simulate`, `dead_ends`, `escalation_chains` and `neighborhood` in `graph/model.py`, and what is remembered between calls: not modelled.
- Grants.GrantsOf: the display order, the roles that could be activated and take-overs that could be are not modelled.
- EstateMaps.MapEstate: the links of the asset graph and which of them convey reach are given.
- Estate.CountCrossings: the order edges are listed in is not kept.
- SigningKeys: how long a fetch may take is not bounded; parsing of a published set is reduced to id and use.
- AuditGrants: deletion of packages and organizations with their grants, the read-only listing functions, and several rows in one UPDATE (they are several steps) are not modelled; steps are atomic at one clock.
- Archive.WriteArchive: CSV and README text, zip bytes and entry times are functions of what they are made from; the hash is uninterpreted.
- Instants.IsoSortsByTime: moments are taken as already in UTC.
- PackageLaws.LatestFixesAreKept: the fields a fix is described by are one opaque text.
- PackageLaws.VerifiesWhatWasSealed: the digest is assumed to tell the two documents compared apart; framework and control sections are opaque text.
- SignedState.VerifyInvertsSign: assumes the JSON text of the claim signed reads back; issue times that are not finite numbers are not modelled. What base64 makes of text outside its alphabet is left arbitrary.
- RateLimit: headers, exempt paths and the choice between the two limits; a caller is its bucket and address together.
- RateLimit.SpanIsBounded: speaks of requests the store answered; those it did not are admitted uncounted, by design.
- `core/deps.py`, `core/redaction.py`, `context/engine.py`, `compliance/coverage.py` and `graph/facts.py`: one branch or one maximum each.
- The scan orchestrator, the rule engine, the risk scorer and the web application are not part of this model.
