# RiftRoute routing engine: a verified model

RiftRoute decides which destinations bypass a VPN, which go into it and which go into
tunnels of their own, and changes the kernel's routes and policy rules accordingly. This
project models its routing engine and the parts of its Apply Protocol that plan, undo,
check and repair changes, and proves what they promise.

## How it is modelled

- A prefix is a family and a bit string of at most 32 or 128 bits; an address is a prefix
  of full length. Containment is "begins with", halving is appending a bit.
- Functions say what each operation computes. Where the program loops over maps and
  growing slices there is a method with the same loop, proved equal to its function; where
  an object is updated in place (executor, table cache, live repair, answer store, the
  host under Panic) there is a class. The theorems are lemmas about the functions.
- `MaximalBlocks` is the reference for all prefix arithmetic. It walks the binary trie and
  takes a block as soon as its addresses are all covered, and knows nothing of sorting and
  merging. `Aggregate` and `subtractNets` are both proved to compute it.
- The kernel is a map from table and destination to next hop, with a set of rules. Adding
  at a destination that is routed does nothing. A managed delete takes the entry only while
  that is still the route (internal/provider/macos/macos_mutate.go:43-79; on Linux its tag
  tells). The comment on Reconcile speaks of deletes by destination alone; the providers
  do not do that for managed routes, and the model follows them.
- Keys are tuples, which key texts tell apart (KeyTexts). Where the order of key texts
  decides, how prefixes, addresses and numbers are written is a parameter.
- I/O, clocks and failures are parameters: which operation fails, what a table read
  returns, the time.

| file | what it holds |
|---|---|
| Prefixes, Ordering, Octets, KeyOrder, KeyTexts, Picking | prefixes, their order, the byte form of halving, sorting by key, keys as texts, picking from a list |
| Aggregate, Subtract | CIDR aggregation and subtraction |
| Routes | routes, rules, longest-prefix match |
| Planner, PlannerLoops, PlannerSafety, PlannerCoverage, ClaimOrder, Reports | the tunnel planner: what it computes, its loops, what it never does, what it leaves nothing out of, who gets a destination, what it reports |
| Desired, Incremental, Preference, Priorities, Ownership, IncludeTable | the full rebuild, the tunnel-only rebuild, when they agree, what decides, whose a route is, the include table |
| Yielded, Wanted, Runs | what yields to tunnels, that it comes back, and runs of applies |
| Reconcile, Transit, Executor, Guardrails | transactions: exact, reversible, atomic, vetted |
| Verify, LiveRepair, LiveHolds, TableCache, Panic, Answers, AnswerEntries | the state machines beside them |
| Limits | concrete inputs on which a promise does not hold |

## Where the code does less than it promises

- The comment on Beside promises routes placed as BuildDesired would place them. With
  gateways set on profiles the two rebuilds can send an address to different gateways
  (`Limits.ExplicitGatewaysDiffer`). `Preference.BesideAsBuiltIff` says exactly when they
  agree; they do with automatic gateways (`Incremental.BesideAsBuilt`) and when no network
  lies inside an aggregated block (`Preference.UnbrokenAgree`).
- The comment on Occupied says a tunnel route for a destination someone else routes cannot
  be added. Listed routes are compared with such destinations, but what they aggregate to
  is not (`Limits.OccupiedIsHandedOut`). `PlannerSafety.PlanAvoidsOccupied` says what rules
  it out, and `PlannerCoverage.OccupiedHandedOutIff` exactly when it happens.
- Reconcile promises its exact inverse. When a desired route is one another owner has at
  the same next hop, adding it does nothing and the inverse deletes theirs
  (`Reconciling.AdoptedRouteIsDeleted`). `Reconciling.ReconcileExact` gives the exact
  condition beside other owners, `Reconciling.RestoredIff` for any kernel.
- A route that yields to a tunnel and has the key of that tunnel's pin is taken for
  installed, so it is not recorded and does not come back (`Limits.PinnedRouteIsLost`).
  `Yielded.RoutesConservedIff` and `Yielded.RoutesConserved` give the exact condition, for
  one apply and for a run.
- Panic promises that a route still in the kernel keeps its record. When the records
  cannot be listed they are cleared unseen (`Panicking.UnlistedIsForgotten`).
  `Panicking.PanicNeverForgets` gives the exact condition.
- The answer store never evicts the empty name, so a full rule whose oldest name is empty
  grows past its cap (`Answers.EmptyNameRun`). `Answers.AddKeepsCapsIff` gives the exact
  condition.
- Live repair promises to hold a route found missing three times within ten minutes. A
  sighting close to one before it is not counted, and the one before may have left the
  window by the third, so three sightings need not be enough (`LiveHolds.NotEveryThree`).
  They are when the first of them is counted (`LiveHolds.LostThriceIsHeld`);
  `LiveHolds.NewlyHeldIff` says at which sighting a hold starts.
- Addresses observed together with others at the same instant tie under the address cap,
  and the sort may drop either. `AnswerEntries.AllObservedKeptIff` says exactly when every
  observed address is sure to be kept.
- A tunnel whose server is the physical gateway gets a pin that the gateway-capture check
  reports (`Guardrails.GatewayAsServer`). `Guardrails.CapturedIff` gives the exact
  condition.
- Profiles are built by priority, but the result is sorted by key, so priorities decide no
  next hop and no rule (`Priorities.PriorityNeverDecides`).

## Model

| member | source | states |
|---|---|---|
| `Aggregation.Aggregate` | internal/routing/aggregate.go:15-48 | The list-merging algorithm returns exactly the maximal blocks of its input (defined separately, on the binary trie): the input may hold duplicates, nested, unmasked and invalid prefixes, and the merge loop ends |
| `Aggregation.MaximalBlocksExact` | internal/routing/aggregate.go:10-48 | The result covers exactly the addresses of the input, no block contains another, no two are the halves of one parent, and it is sorted |
| `Aggregation.MaximalBlocksUnique` | internal/routing/aggregate.go:10-48 | Any sorted list with those properties is that list: the result is canonical |
| `Aggregation.SameCoverSameBlocks` | internal/routing/aggregate.go:10-48 | Aggregation depends only on which addresses are covered, not on how they are listed |
| `Aggregation.MergeOnce` | internal/routing/aggregate.go:50-78 | One pass over an antichain keeps its cover and stays an antichain; it is shorter if it reports a change, and otherwise sorted without siblings |
| `Aggregation.DropCovered` | internal/routing/aggregate.go:24-37 | Dropping what an earlier prefix of the sorted list contains leaves an antichain with the same cover |
| `Aggregation.Within` | internal/routing/engine.go:593-602 | Whether one of the aggregated prefixes contains p |
| `Aggregation.WithinMeansCovered` | internal/routing/engine.go:593-602 | On an aggregated list that holds if and only if every address of p is in the union the list came from |
| `Ordering.LessIsByteOrder` | internal/routing/aggregate.go:80-90 | The order used (family, then the bit strings, a block before what it contains) is the comparison by family, network address and length |
| `Ordering.SortIsPermutation` | internal/routing/aggregate.go:80-90 | Sorting permutes and orders |
| `Subtraction.PiecesCover` | internal/routing/tunnels.go:337-349 | The pieces cover exactly p less the networks |
| `Subtraction.PiecesCanonical` | internal/routing/tunnels.go:337-349 | The pieces are pairwise disjoint, sorted, and never two halves of one parent |
| `Subtraction.PiecesAreMaximal` | internal/routing/tunnels.go:337-349 | So they are the maximal blocks of what is left, in whatever order the networks are given |
| `Subtraction.PiecesBound` | internal/routing/tunnels.go:337-349 | With networks inside p, at most the sum of their lengths beyond p's many pieces; otherwise at most one |
| `Octets.HalvesAppendABit` | internal/routing/tunnels.go:352-359 | Setting a bit of the address bytes gives the two halves of a prefix: one more bit, 0 or 1; both results are masked |
| `Octets.BitsTell` | internal/routing/tunnels.go:352-359 | The bits of an address, highest first, tell it from every other |
| `Subtraction.AroundTunnels` | internal/routing/tunnels.go:325-334 | The pieces of a list of prefixes, covering exactly the list less the networks |
| `Subtraction.OutsideTunnels` | internal/routing/tunnels.go:299-317 | The prefixes that no network contains, in order |
| `Subtraction.OutsideCover` | internal/routing/tunnels.go:299-317 | No address outside the networks is lost by dropping the prefixes inside one |
| `Subtraction.AggregateStaysOutside` | internal/routing/tunnels.go:294-317 | Aggregating what stayed outside never merges into a network |
| `Subtraction.CutThenAggregate` | internal/routing/tunnels.go:319-334 | Cutting aggregated blocks and aggregating cut prefixes give the same blocks |
| `Routes.Simulate` | internal/routing/simulate.go:13-54 | The first of the longest matching routes; -1 exactly when nothing matches |
| `PlannerLoops.KeepOutOf` | internal/routing/tunnels.go:485-538 | The loops compute the planner's keep-out list: gateway, first resolvers, anchors and servers, each address once |
| `PlannerSafety.KeepOutComplete` | internal/routing/tunnels.go:485-538 | Every address that must stay out of a prefix and lies in it is on its keep-out list |
| `PlannerSafety.KeepOutSound` | internal/routing/tunnels.go:485-538 | The list holds nothing else, and a hole for a network holds its address |
| `PlannerSafety.FirstResolversIff` | internal/routing/tunnels.go:503-512 | A resolver is kept out exactly if fewer than eight of its family come before it |
| `PlannerLoops.CarveOut` | internal/routing/tunnels.go:588-650 | The loops compute the carving |
| `PlannerSafety.CarveAvoids` | internal/routing/tunnels.go:588-650 | No carved part holds a kept address |
| `PlannerCoverage.CarveLeavesTheRest` | internal/routing/tunnels.go:588-650 | Every other address of the prefix is in a carved part, unless its part is already taken or is another's route |
| `PlannerCoverage.HolesAreNarrow` | internal/routing/tunnels.go:540-650 | Each hole is around an address that must stay out, and is that address alone, the narrowest of the others' routes around it or, for the gateway, what its network has of the prefix |
| `PlannerSafety.OthersInsideIff` | internal/routing/tunnels.go:555-581 | The others' routes inside a prefix are exactly the occupied destinations and the routes of tunnels of another name strictly inside it |
| `PlannerCoverage.LanStaysLocal` | internal/routing/tunnels.go:491-502 | A destination of the plan holds an address of the router's network only if a tunnel lists that address in a route strictly inside that network, apart from the router |
| `PlannerLoops.UnclaimedAggregate` | internal/routing/tunnels.go:233-254 | The loops compute the aggregates, or the listed parts of an aggregate that is taken |
| `PlannerSafety.UnclaimedOk` | internal/routing/tunnels.go:233-254 | Each destination is unclaimed, holds only listed addresses, and is a host only if listed as one |
| `PlannerSafety.UnclaimedKeepsAll` | internal/routing/tunnels.go:233-254 | Each listed part lies whole in one of the destinations |
| `PlannerLoops.PinServers` | internal/routing/tunnels.go:99-125 | The loops compute the pins |
| `PlannerLoops.DecideRoute` | internal/routing/tunnels.go:130-185 | What becomes of one listed route: its parts, its reason |
| `PlannerSafety.DecideOk` | internal/routing/tunnels.go:130-185 | Each part lies in the listed route, is neither taken nor occupied, and holds nothing that must stay out of that tunnel |
| `PlannerCoverage.BlockingKeepsOut` | internal/routing/tunnels.go:152-165 | A blocking tunnel keeps resolvers and anchors out, too, as long as something is left and it takes no more than 1024 routes |
| `PlannerLoops.PlanTunnels` | internal/routing/tunnels.go:89-205 | The loops over the sorted tunnels, with the maps taken and held, compute the plan |
| `PlannerSafety.PlanIsSafe` | internal/routing/tunnels.go:89-205 | The plan's invariant, kept by every pin and every tunnel: distinct destinations, each claimed; each destination clear of what must stay out, and one someone else routes only if its tunnel lists all of it in parts; each held server pinned or occupied |
| `PlannerSafety.OccupiedOnlyIfEnclosed` | internal/routing/tunnels.go:127-254 | A destination someone else routes is handed out only if it is no host and one live or blocking tunnel lists every address of it in routes strictly inside it |
| `PlannerSafety.PlanAvoidsOccupied` | internal/routing/tunnels.go:89-254 | So if no tunnel lists such a destination in parts, no route of the plan, pins included, has a destination someone else routes |
| `PlannerCoverage.OccupiedHandedOutIff` | internal/routing/tunnels.go:127-254 | Exactly: it is handed out if and only if at some tunnel's turn it is a maximal block of what the tunnel's parts cover, and unclaimed |
| `Limits.OccupiedIsHandedOut` | internal/routing/engine.go:71-75 | A concrete network where a tunnel lists the two halves of a network someone else routes, and the plan hands that out |
| `PlannerSafety.PinIsPlanned` | internal/routing/tunnels.go:99-125 | Every server a tunnel gives to pin, with a physical gateway and no one else's route, has its pin in the final plan |
| `PlannerSafety.PinsGoOut` | internal/routing/tunnels.go:99-118 | A pin is a host route of a server its tunnel gives, through the physical gateway and interface of its own family |
| `PlannerSafety.HeldIff` | internal/routing/tunnels.go:99-125 | A server is held off the tunnels exactly if a tunnel gives it to pin, there is a gateway of its family and no one else routes it, or it is some tunnel's and someone else routes it |
| `PlannerSafety.KeptOutStaysOut` | internal/routing/tunnels.go:152-201 | After carving and re-aggregation no destination, refused or into a tunnel, holds the physical gateway or a server that is not held; and for a tunnel that does not block, none holds an anchor or one of the first eight resolvers of a family |
| `PlannerSafety.ServersNeverLoop` | internal/routing/tunnels.go:89-254 | With the occupied routes beside the plan, longest-prefix match never sends a server's traffic into a tunnel or a refusal: it takes another owner's route or the server's own pin |
| `PlannerSafety.PlanRoutesDistinct` | internal/routing/tunnels.go:89-205 | Each destination is handed out once; every network has its route; pins are host routes via the physical gateway |
| `PlannerCoverage.ListedIsAccountedFor` | internal/routing/tunnels.go:127-203 | Every listed route of every tunnel is reported with its reason or has parts, and each part lies whole in a destination of that tunnel in the final plan |
| `PlannerCoverage.LaterKeeps` | internal/routing/tunnels.go:127-203 | Later tunnels take away no route and no report of earlier ones |
| `ClaimOrder.PlannedInOrder` | internal/routing/tunnels.go:91-97 | Tunnels are planned in a stable permutation: those that are up before those that are down, each by name |
| `ClaimOrder.FirstToClaimGetsIt` | internal/routing/tunnels.go:70-205 | If a tunnel that is up or blocks lists a prefix and nothing else of its family, the prefix is unoccupied, unpinned and clear of what stays out, and no tunnel planned before lists anything nested with it, then the one route at that prefix goes into that tunnel, or refuses if it cannot carry it, whatever later tunnels list: a tunnel that is up never loses it to one that is down |
| `Reports.ReportsAreTrue` | internal/routing/tunnels.go:127-187 | Each reason reported is the case: IPv6 the tunnel cannot carry, a destination occupied, one claimed in the final plan, or one that holds something to keep out |
| `Reports.FirstReasonGiven` | internal/routing/tunnels.go:136-146 | The first reason that applies is the one given: IPv6 the tunnel cannot carry, then occupied, then claimed |
| `Reports.LeftOutMeans` | internal/routing/tunnels.go:152-176 | Nothing left means every address is in a hole or someone else's; too many means more than 1024 pieces, for a blocking tunnel with only the essential kept out |
| `Reports.NarrowedIsTrue` | internal/routing/tunnels.go:152-176 | A route called narrowed is some tunnel's, not occupied, and holds something to keep out |
| `Reports.NarrowedIsReported` | internal/routing/tunnels.go:152-176 | And a listed route that holds something to keep out, and of which something goes in, is called narrowed |
| `Reports.EssentialIsLittle` | internal/routing/tunnels.go:160-165 | Where a blocking tunnel's route would leave too little or too much, only the router and unheld servers are kept out of it |
| `Desired.PlaceInto` | internal/routing/tunnels.go:261-272 | The loop places the plan: its routes, but for those whose destination is routed |
| `Desired.PlaceBeside` | internal/routing/tunnels.go:278-292 | The loop computes the tunnel-only route list |
| `Desired.PlaceRulesBeside` | internal/routing/tunnels.go:366-396 | The loop computes the cut rules, each key once |
| `Desired.BuildFamily` | internal/routing/engine.go:171-207 | Exclude mode for one family: when it is skipped, refused or routed, and its routes |
| `Desired.BuildExclude` | internal/routing/engine.go:168-207 | An exclude profile's step, with its failures |
| `Desired.BuildInclude` | internal/routing/engine.go:122-167 | An include profile's step, with its failures |
| `Desired.BuildDesiredSet` | internal/routing/engine.go:105-238 | The whole build: profiles by priority, the plan, the include table's defaults, the first failure, and both results sorted by key |
| `KeyOrder.SortByPermutes` | internal/routing/engine.go:235-236 | The sort by key permutes |
| `KeyOrder.SortBySorts` | internal/routing/engine.go:235-236 | It orders by key text |
| `KeyOrder.SortByIsStable` | internal/routing/engine.go:235-236 | And entries with one key text keep their order |
| `KeyOrder.TextLessMeans` | internal/routing/engine.go:235-236 | The order of texts: one that ends first, or has the smaller character where they first differ |
| `KeyTexts.RouteKeyTells` | internal/routing/engine.go:846-854 | With parts that hold no bar, two routes have one key exactly if they agree in table, destination and next hop |
| `KeyTexts.RuleKeyTells` | internal/routing/engine.go:870-883 | Two rules have one key exactly if they are one rule |
| `KeyTexts.FamiliesInOrder` | internal/routing/engine.go:235-236 | A built set lists its IPv4 routes before its IPv6 ones |
| `KeyTexts.StrokesDistinguish` | internal/routing/engine.go:846-883 | A way of writing that meets the condition |
| `Incremental.ProfileRoutes` | internal/routing/engine.go:168-210 | The profiles' routes are exactly the aggregated blocks of what each enabled exclude profile lists outside the networks, by its gateway |
| `Incremental.ProfileRules` | internal/routing/engine.go:122-158 | The rules are exactly the aggregated blocks of what each enabled include profile lists, cut around the networks |
| `Ownership.ProfilesInOrder` | internal/routing/engine.go:106-107 | Profiles are built in a stable permutation, highest priority first |
| `Ownership.HighestOwns` | internal/routing/engine.go:105-237 | A built route that is a profile's goes by that profile's gateway, of the route's own family, and no profile that makes the same route has a higher priority |
| `Ownership.MadeIsBuilt` | internal/routing/engine.go:168-210 | Every route an enabled exclude profile makes is built |
| `Ownership.FailureIsTrue` | internal/routing/engine.go:105-237 | The reason a build fails for holds of one of the profiles: no policy routing, no VPN for a family it reaches, a gateway that cannot be read, or none that carries any of its destinations |
| `Ownership.BuiltUnlessStopped` | internal/routing/engine.go:105-237 | There is a result exactly if no enabled profile has such a reason |
| `IncludeTable.OnlyDefaults` | internal/routing/engine.go:212-232 | Outside the main table a built set has, on Linux only, nothing but the include table's default of a family that has rules, into that family's VPN: through its gateway, or on its interface |
| `IncludeTable.DefaultIff` | internal/routing/engine.go:212-232 | On Linux that default is there exactly if some built rule is of the family |
| `IncludeTable.BuiltRuleSends` | internal/routing/engine.go:122-167 | A built rule selects a network of its family and sends it to the include table, on macOS into the family's VPN; there is one |
| `IncludeTable.RulesSendIff` | internal/routing/engine.go:122-167 | The built rules send an address exactly if an enabled include profile lists it and no tunnel's network holds it, and then where its family's rules send |
| `IncludeTable.OwnRulesBacked` | internal/routing/engine.go:212-232 | So every rule of a built set has a route of its family in its table |
| `IncludeTable.RulesBackedAlways` | internal/core/service.go:529-581 | And it stays so after a full apply and any run of tunnel applies, whether or not they can read the profiles: installed rules are backed by what is installed, recorded ones by what is installed or recorded |
| `Incremental.TunnelNetworksWin` | internal/routing/engine.go:171-210 | In every result no exclude route lies inside a tunnel's network even after aggregation, no tunnel destination is dropped, and every address of such a network is decided by the plan |
| `Incremental.FullAnswer` | internal/routing/engine.go:105-238 | With automatic gateways each address goes where a definition without lists says: networks as planned, else past the VPN if listed, else as pinned |
| `Incremental.BesideAsBuilt` | internal/routing/tunnels.go:278-317 | With automatic gateways the tunnel-only rebuild and the full rebuild give every address the same next hop, though their prefix lists may differ |
| `Preference.FullLead` | internal/routing/engine.go:105-238 | With any gateways: inside the networks the plan decides; elsewhere the profile with the narrowest aggregated block, of several the one whose route has the smallest key, unless a pin is narrower |
| `Preference.BesideLead` | internal/routing/tunnels.go:278-292 | The same for the tunnel-only rebuild, where the lists still hold what the networks took |
| `Preference.BesideAsBuiltIff` | internal/routing/tunnels.go:278-317 | So the rebuilds agree on every address if and only if each address outside the networks is led alike by its narrowest block, ties by key, with and without the networks taken out of the lists |
| `Preference.UnbrokenAgree` | internal/routing/tunnels.go:278-317 | In particular they agree, whatever the gateways, when no network lies strictly inside a block some list was aggregated to |
| `Priorities.PriorityNeverDecides` | internal/routing/engine.go:105-237 | Profiles listed in another order or with other priorities give a result if they did, with the same rules and the same next hop for every address, if different addresses are written differently |
| `Priorities.PriorityNeverDecidesBeside` | internal/routing/tunnels.go:278-292 | The same when only the tunnels' part is rebuilt |
| `Priorities.BuiltIff` | internal/routing/engine.go:105-237 | There is a result exactly when no profile fails by itself and, but on macOS, no rule to be built lacks a VPN to go into |
| `Priorities.BitsTellApart` | internal/routing/engine.go:846-854 | A way of writing addresses that tells them apart, so that the condition can be met |
| `Limits.ExplicitGatewaysDiffer` | internal/routing/tunnels.go:278-317 | A concrete input with two explicit gateways on which the rebuilds send an address to different gateways, however keys are written |
| `Incremental.RulesBesideAsBuilt` | internal/routing/tunnels.go:366-396 | Cutting the aggregated rules gives exactly the rule keys the full build gets by cutting first and aggregating afterwards |
| `Incremental.TunnelsNeverConflict` | internal/routing/engine.go:105-238 | No route key is built twice, and two routes with one destination and different next hops can only be two profiles' exclude routes |
| `Incremental.AutoIsConflictFree` | internal/routing/engine.go:105-238 | With automatic gateways every destination is routed once |
| `Yielded.PutRoutesBack` | internal/core/yielded.go:181-193 | The loop puts each yielded route back once |
| `Yielded.PutRulesBack` | internal/core/yielded.go:196-222 | The loop puts each yielded rule back in place of its pieces |
| `Yielded.YieldTo` | internal/core/yielded.go:226-245 | The loops compute the record |
| `Yielded.KeepWanted` | internal/core/yielded.go:140-160 | The loops compute what is still wanted |
| `Yielded.WantedMeansListed` | internal/routing/engine.go:536-545 | A recorded route is still wanted exactly when the enabled exclude profiles list all its addresses, or its own profile is unsure |
| `Yielded.StillWantedIff` | internal/core/yielded.go:140-160 | stillWanted keeps, in order, exactly the routes in another table, those whose every address an enabled exclude profile lists, and those whose own enabled profile is unsure of the family; and exactly the rules that select no network, those whose every address an enabled include profile lists, and those whose own enabled profile is unsure |
| `Yielded.RoutesConservedIff` | internal/core/service.go:529-555 | A tunnel apply conserves the installed and recorded route keys if and only if no yielding route has a plan route's key and each has a profile |
| `Yielded.RoutesConserved` | internal/core/service.go:529-555 | Over every run of tunnel applies no key appears, and installed and recorded keys together stay what they were if and only if no key of the start is, while it yields to one of the networks planned, a key of that plan |
| `Yielded.RoutesComeBack` | internal/core/service.go:529-555 | And when the last networks are gone nothing is recorded, and all of them are installed again under that same condition, and only then |
| `Limits.PinnedRouteIsLost` | internal/core/yielded.go:226-245 | A concrete state and plan where a yielding route has its pin's key and is neither installed nor recorded afterwards |
| `Yielded.RulesConservedStep` | internal/core/service.go:529-555 | One tunnel apply: installed rules send what rules and record sent, less the networks; nothing sent is lost to the record |
| `Yielded.RuleRecordedIff` | internal/core/yielded.go:235-243 | A rule is recorded exactly if one of the networks takes something of what it selects |
| `Yielded.RulesConserved` | internal/core/yielded.go:196-245 | Over every run, installed and recorded rules together select exactly the original addresses per family and target |
| `Yielded.RulesAfterRun` | internal/core/yielded.go:196-245 | After any run the installed rules send the original addresses less the networks live now; all of them once there are none |
| `Yielded.FullApplyRecords` | internal/core/service.go:561-581 | A full apply leaves a record from which rules start right: installed and recorded rules send what the profiles send without tunnels |
| `Runs.FullApplyTotal` | internal/core/service.go:561-581 | After a full apply the route keys installed or recorded are the profiles', and every key they have without tunnels is among them unless it yields and is a pin's |
| `Runs.RunAsRebuilt` | internal/core/service.go:529-581 | After a full apply and any run of tunnel applies, what is installed gives every address the next hop a full rebuild on the last network would give, with automatic gateways that are the same there |
| `Runs.RulesRunAsRebuilt` | internal/core/service.go:529-581 | After a full apply and any run of tunnel applies, the installed rules send every address exactly where those of a full rebuild on the last network would |
| `Runs.NoRuleLeftOver` | internal/core/service.go:529-581 | And each rule installed then is one the full rebuild has: no piece cut around earlier networks is left over |
| `Wanting.ReadingChangesNothing` | internal/core/yielded.go:127-160 | While the profiles are unchanged, every run that asks what is still wanted is the run that does not ask, so conservation holds of it too |
| `Wanting.FullApplyWanted` | internal/core/service.go:561-581 | After a full apply everything installed or recorded is wanted by the same profiles |
| `Reconciling.Reconcile` | internal/routing/engine.go:618-673 | The loops, with the byDst index and the replaced set, compute the operations and their inverse |
| `Reconciling.InvertAll` | internal/routing/engine.go:675-691 | The loop computes the inverse list |
| `Reconciling.Reached` | internal/routing/engine.go:618-673 | From whatever the kernel holds: what each destination ends with, and the rules |
| `Reconciling.OthersEntryStays` | internal/provider/macos/macos_mutate.go:43-79 | An entry that another program put where a recorded route was, and that does not count as it, is neither deleted nor replaced |
| `Reconciling.RestoredIff` | internal/routing/engine.go:675-691 | From whatever the kernel holds: the inverse restores it if and only if at each destination changed the entry is the recorded route's, or another's that no delete takes, or none and none recorded, and rules likewise |
| `Reconciling.ReconcileExact` | internal/routing/engine.go:618-691 | From a kernel with exactly what is recorded beside what others hold: it ends with theirs untouched and beside it exactly what is desired; the inverse restores the start if and only if nothing of theirs was adopted, a desired route they have at the same next hop or a rule they have |
| `Reconciling.AdoptedRouteIsDeleted` | internal/provider/macos/macos_mutate.go:18-26 | Adding a route another owner has at the same next hop does nothing, and undoing that deletes theirs |
| `Transit.InverseMirrors` | internal/routing/engine.go:675-691 | After j steps back a reversible change is as it was j steps before the end |
| `Transit.RulesAlwaysServed` | internal/routing/engine.go:668-672 | From whatever the kernel holds: at every intermediate state each live rule's table has a route, but for the step inside a replacement in that table, if it has before and after |
| `Transit.RulesServedOnRollback` | internal/routing/engine.go:668-691 | The same at every intermediate state of the inverse |
| `IncludeTable.FullApplyServes` | internal/routing/engine.go:105-691 | A full apply of a built set the scan lets through, from a kernel whose own rules are backed, leaves no rule without a route in its table at any step outside a replacement there, nor does undoing it when nothing is adopted |
| `Execution.Executor.Apply` | internal/safety/executor.go:30-43 | Stops at the first failing operation and rolls back the applied ones, best-effort; otherwise all are run |
| `Execution.Executor.RunOps` | internal/safety/executor.go:50-59 | Attempts every operation and returns the first failure |
| `Execution.Executor.Rollback` | internal/safety/executor.go:61-65 | Runs the inverses of the applied operations, last first, best-effort |
| `Execution.RollbackIsInverseTail` | internal/safety/executor.go:61-107 | Rolling back n applied operations is running the last n of the precomputed inverse |
| `Execution.ApplyIsAtomic` | internal/safety/executor.go:30-65 | Whichever operation of a reversible change fails, if the rollback's do not, the kernel is as it was |
| `Execution.UndoneAnywhereIff` | internal/safety/executor.go:30-65 | From whatever the kernel holds: rolling back after any number of operations restores it if and only if the change is reversible |
| `Execution.AtomicBesideOthers` | internal/safety/executor.go:30-65 | So an apply that adopts nothing of other owners' is all or nothing |
| `Guardrails.ScanConflicts` | internal/safety/guardrails.go:122-150 | The one-pass scan names a destination if and only if two routes reach it by different next hops and one of them is vetted; each report gives the two next hops of such a pair |
| `Guardrails.CheckGuardrails` | internal/safety/guardrails.go:32-173 | Each violation is reported exactly when it holds: gateway unresolved or captured, next hop unreachable or through the VPN, conflict (by destination, with its two next hops, and with a plan only where it adds), SSH peer |
| `Guardrails.ScanHops` | internal/safety/guardrails.go:94-120 | Each next hop in use is judged by its lookup, once; one that cannot be read blocks nothing |
| `Guardrails.SilenceMeansFunctional` | internal/safety/guardrails.go:122-150 | Without a plan, silence is exactly one next hop per destination |
| `Guardrails.SilenceIsEnough` | internal/safety/guardrails.go:122-150 | For a built set silence is exactly the uniqueness Reconcile needs |
| `Guardrails.VettedSilenceIsEnough` | internal/safety/guardrails.go:28-150 | With owned destinations unique, silence about what the plan adds is uniqueness of the whole desired set |
| `Guardrails.VettedApplyIsExact` | internal/routing/engine.go:618-691 | A built set the scan lets through is applied exactly, and undone exactly if and only if nothing of another owner's is adopted |
| `Guardrails.VettedTunnelApplyIsExact` | internal/safety/apply.go:528-547 | The same for a tunnel apply, of which only the additions are vetted |
| `Guardrails.TunnelsNeverCapture` | internal/safety/guardrails.go:74-92 | Of the plan's routes only a pin of the gateway itself contains the gateway |
| `Guardrails.CapturedIff` | internal/safety/guardrails.go:74-92 | Some plan route contains the gateway if and only if a tunnel gives the gateway as a server to pin and no one else routes it |
| `Guardrails.GatewayAsServer` | internal/safety/guardrails.go:74-92 | A network where that happens |
| `Verification.IndexInstalled` | internal/routing/tunnels.go:740-789 | The index answers has and outranked as the table itself does |
| `Verification.OutrankedMeans` | internal/routing/tunnels.go:782-801 | A route is outranked exactly if adding it with its effective metric would leave its destination to the entry the kernel uses already |
| `Verification.VerifyRoutes` | internal/routing/tunnels.go:694-721 | Kept, missing and taken in order, no table read twice or needlessly |
| `Verification.JudgedIff` | internal/routing/tunnels.go:694-721 | A wanted, checked route its table was read not to hold is taken exactly if another entry outranks it, and otherwise missing unless it is held and no tunnel's |
| `Verification.KeptAndMissing` | internal/routing/tunnels.go:694-721 | Kept and missing together are the owned routes |
| `Verification.FailedReadKeeps` | internal/routing/tunnels.go:694-721 | A failed read leaves its family's records kept; a tunnel's lost route is missing however often it was lost |
| `Verification.KeptIsUntouched` | internal/routing/engine.go:639-673 | Reconcile emits no operation at the destination of a route kept and wanted |
| `Verification.RepairPutsBack` | internal/routing/tunnels.go:661-721 | Reconciling against what is kept adds back every missing wanted route and touches no destination taken or held |
| `LiveRepairing.LiveRepair.Note` | internal/safety/live.go:58-92 | The new records and what starts to be held |
| `LiveRepairing.LiveRepair.Installed` | internal/safety/live.go:120-142 | What is kept, and which missing routes count toward a hold: never a tunnel's |
| `LiveRepairing.PendingAlways` | internal/safety/live.go:23-92 | Over every run with time going forward, pending sightings are ordered, spaced, real and fewer than three |
| `LiveRepairing.HeldOnlyAfterThree` | internal/safety/live.go:58-92 | A route starts to be held only at the third of three sightings at least 20 seconds apart within 10 minutes |
| `LiveRepairing.HeldMeansStruckOut` | internal/safety/live.go:44-92 | Whatever is held at some time struck out less than half an hour before |
| `LiveRepairing.LiveRepair.Watch` | internal/safety/live.go:120-142 | Any sequence of looks ends with the records of the run's notes, and each look stands by what was on record before it |
| `LiveRepairing.HeldOnlyIfLost` | internal/safety/live.go:44-142 | Over every run of looks a route is held only if it was lost three times, 20 seconds apart within 10 minutes, each time owned by other than a tunnel: one only tunnels own is never held |
| `LiveRepairing.PutBackIff` | internal/safety/live.go:111-142 | Whatever is on record: the plan made against what stands adds a wanted route that is gone, if it is a tunnel's or not held, and does nothing at any other wanted route's destination |
| `LiveRepairing.PutBackUnlessLost` | internal/safety/live.go:44-142 | After any run of looks the next one puts back a route that is gone, unless it was lost three times while owned by other than a tunnel; a tunnel's always |
| `LiveHolds.NewlyHeldIff` | internal/safety/live.go:58-92 | A note starts to hold exactly the missing routes for which this sighting is the last strike |
| `LiveHolds.NewlyHeldIsHeld` | internal/safety/live.go:44-92 | Whatever a note starts to hold is held at every moment of the next half hour |
| `LiveHolds.HoldLasts` | internal/safety/live.go:44-92 | And stays held in the records of every later note until then |
| `LiveHolds.RecordsAreCurrent` | internal/safety/live.go:63-67 | Of the routes it did not find missing, a note leaves on record exactly those whose hold is not over or that were sighted within the window, as they were |
| `LiveHolds.LossCounts` | internal/safety/live.go:120-142 | A loss of a route that is not a tunnel's counts exactly if the route is not held |
| `LiveHolds.LostThriceIsHeld` | internal/safety/live.go:58-142 | Over every run of looks, a route lost three times at least 20 seconds apart within 10 minutes, the first of which counted, is held at the third, until half an hour after a moment between the first and the third |
| `LiveHolds.LeftAloneWhileHeld` | internal/safety/live.go:111-142 | While a hold lasts, no plan made against what stands does anything at the route's destination |
| `LiveHolds.LostThriceIsLeftAlone` | internal/safety/live.go:58-142 | So a route lost three times is left alone by every later look for half an hour after the first loss |
| `LiveHolds.NotEveryThree` | internal/safety/live.go:13-31 | A run in which a route is found missing three times at least 20 seconds apart within 10 minutes and is not held |
| `TableCaching.TableCache.CachedRoutes` | internal/provider/tablecache.go:45-61 | From the cache, or read and cached; a failed read is not cached |
| `TableCaching.TableCache.RouteAdded` | internal/provider/tablecache.go:65-84 | Appends in a new array |
| `TableCaching.TableCache.RouteDeleted` | internal/provider/tablecache.go:88-113 | Filters into a new array |
| `TableCaching.DeleteTakes` | internal/provider/tablecache.go:88-113 | A delete takes every route to the destination and no other; the rest stays, each as often and in the order it was |
| `TableCaching.InTableIff` | internal/provider/tablecache.go:65-113 | After a batch a family's table holds exactly what the batch added and did not delete later, and what was there and was not deleted |
| `TableCaching.TableCache.Batch` | internal/provider/tablecache.go:45-113 | Over any sequence of a batch's adds, deletes and reads, every read equals a fresh one at that point and no array handed out changes later |
| `TableCaching.AddThenDelete` | internal/provider/tablecache.go:65-113 | Adding at a free destination and deleting leaves the table as it was |
| `Panicking.Host.Panic` | internal/safety/panic.go:25-61 | What is left in the table and in the records, for every pattern of failing lists, deletes, reads, clears and single removals, and whether it reports success; with listing, clearing and reads working, success is that no recorded route is still there |
| `Panicking.DropAllMembers` | internal/safety/panic.go:55-59 | A record goes exactly if its route is not left and its removal does not fail |
| `Panicking.PanicIsPrecise` | internal/safety/panic.go:25-61 | With listing, clearing and reads working: nothing is left over exactly if no recorded route is still there; then the records are empty, otherwise those that stay are the routes still there, whose delete failed, and those that could not be removed |
| `Panicking.LeftOverUnread` | internal/safety/panic.go:66-86 | When a table cannot be read, what is left over is exactly what failed to be deleted |
| `Panicking.Host.StillInstalled` | internal/safety/panic.go:66-86 | The routes still held, or all when a table cannot be read |
| `Panicking.PanicNeverForgets` | internal/safety/panic.go:25-61 | No route still in the kernel loses its record, if and only if the records could be listed, or clearing them failed, or the sweep alone takes every recorded route |
| `Panicking.UnlistedIsForgotten` | internal/safety/panic.go:25-61 | A concrete failure of the listing after which a live route has no record |
| `Panicking.CleanRetryEmpties` | internal/safety/panic.go:19-61 | A retry in which nothing fails empties the records and leaves none of their routes |
| `Panicking.OthersStay` | internal/safety/panic.go:25-45 | An entry is deleted only if an owned route to its destination is there: what others put in its place stays |
| `Answers.AnswerStore.Add` | internal/dnsproxy/answers.go:66-98 | The new store, and whether the name's live addresses changed, whichever of equally old names or addresses go |
| `Answers.AnswerStore.EvictOldest` | internal/dnsproxy/answers.go:212-224 | Removes one of the oldest names, but never the empty one |
| `Answers.AnswerStore.GC` | internal/dnsproxy/answers.go:121-143 | The store less what expired; a change is reported exactly if some name is gone or lost an address |
| `Answers.AnswerStore.Load` | internal/dnsproxy/answers.go:257-287 | What was saved, less what expired meanwhile |
| `Answers.AnswerStore.Prune` | internal/dnsproxy/answers.go:153-168 | The store less the rules not active, and whether any was dropped |
| `Answers.PruneKeeps` | internal/dnsproxy/answers.go:153-168 | A rule stays, as it was, exactly if an active one is spelled like it but for case |
| `Answers.SilentAddKeepsIPs` | internal/dnsproxy/answers.go:66-117 | An Add that reports no change leaves every rule's addresses as they were at that moment |
| `AnswerEntries.AddLearns` | internal/dnsproxy/answers.go:66-98 | The name's entry afterwards holds only observed addresses, seen now, and unobserved ones not expired, seen when they were; all of them if they fit, else as many as fit, none seen before one dropped |
| `AnswerEntries.AllObservedKeptIff` | internal/dnsproxy/answers.go:66-98 | Every observed address is sure to be kept if and only if the observed and those that tie with them fit under the cap |
| `AnswerEntries.ObservedAreLive` | internal/dnsproxy/answers.go:66-117 | In every run from the empty store each address an Add observes is live right after it, under that condition |
| `AnswerEntries.OneEachAlways` | internal/dnsproxy/answers.go:66-180 | In every run each entry lists an address once |
| `AnswerEntries.OthersKeep` | internal/dnsproxy/answers.go:66-98 | Add changes no other rule and no other name, but for one that goes to make room in a full rule, seen no later than any other and not empty |
| `Answers.CollectKeepsIPs` | internal/dnsproxy/answers.go:101-143 | GC, and saving and loading, change no rule's addresses now or later |
| `Answers.CapKeepsLatest` | internal/dnsproxy/answers.go:193-199 | The address cap keeps the most recently seen, whichever of equally old ones go |
| `Answers.AddKeepsCapsIff` | internal/dnsproxy/answers.go:66-98 | Add keeps both caps whichever oldest name goes, if and only if it is not to evict the empty name from a full rule |
| `Answers.EmptyNameBreaksCap` | internal/dnsproxy/answers.go:212-224 | When it is, the cap is exceeded |
| `Answers.EmptyNameRun` | internal/dnsproxy/answers.go:66-98 | A run from the empty store that reaches such a state |
| `Answers.CapsAlwaysKept` | internal/dnsproxy/answers.go:66-168 | From an empty store, every run of Add, GC and Prune that never learns the empty name keeps both caps |

## Left out

- Incremental.FullAnswer: is stated for automatic gateways, because it needs no lists then; Preference.FullLead is the statement for all gateways.
- Incremental.BesideAsBuilt: is stated for automatic gateways, because it is false in general; Preference.BesideAsBuiltIff is the exact statement.
- Runs.RunAsRebuilt: is stated for automatic gateways and without a yielding key that is a pin's, because it is false otherwise.
- Yielded.RoutesConserved: takes every installed or recorded route to be a profile's or a tunnel's, as each is that the program records.
- Yielded.FullApplyRecords: for routes states only that what is not installed is recorded; Runs.FullApplyTotal and Runs.RunAsRebuilt say what that is for.
- Reconciling.ReconcileExact: takes destinations to be unique on both sides; Guardrails.SilenceIsEnough and Guardrails.VettedSilenceIsEnough show where the desired side gets that.
- ClaimOrder.FirstToClaimGetsIt: takes the tunnel to list nothing else of the family, because what it lists is aggregated before it is claimed.
- LiveHolds.LostThriceIsHeld: takes the first of the three losses to count, because it is false otherwise.
- Transit.RulesAlwaysServed: excepts the step between the delete and the add of one replacement, because the program deletes first.
- Execution.ApplyIsAtomic: takes a failing operation to change nothing and the rollback's operations to succeed.
- Answers.AnswerStore.Load: takes the saved store itself, not its JSON text; that encoding is taken to be faithful.
- Guardrails.CheckGuardrails: reports no gateway that cannot be parsed, because gateways are addresses here.
- PlannerLoops.DecideRoute: reports which of the reasons applies, not its text or the list of exceptions.
- Desired.BuildInclude: builds no rule by application, mark or user; where rules are cut or put back such rules are kept whole, as the program keeps them.
- Desired.BuildDesiredSet: takes IPv4 before IPv6 where the program ranges over a map; both results are sorted by key afterwards, so this decides only which of two failures is returned.
- Tailscale: its networks, rules and BesideTailscale are absent.
- Parsing: rules, lists, domains and gateways are given as prefixes and addresses, but for the invalid prefixes Aggregate skips and a malformed profile gateway; address zones and spellings are absent.
- Naming the profile of a recorded rule read from the kernel (attributed) changes no key and is absent.
- Tunnel-mode profiles: their destinations are given as routes of the tunnels.
- Linux deletes by tag: a route of another owner with the same next hop survives them, and one of RiftRoute's with another next hop does not; the model has the macOS rule.
- Providers, the store, the rest of the Apply Protocol (confirmation, recovery), DNS, the API, the clients and the user interface.
- Concurrency: each operation is one atomic step.
