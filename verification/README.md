# Verified model of a data-centre network simulation: routing, topologies, traffic, tests and patches

The repository is an ns-3 fork for data-centre transport experiments. This project models seven of its
components in Dafny and proves what they promise:

1. **Routing of the simulation driver** (`Topology`, `RouteSearch`, `Network`, `LinkGraph`, `DownHosts`, `LinkLoading`). A breadth-first search per
   host builds equal-cost next hops that never pass through another host; routing tables are filled from them and
   rebuilt when links fail. Proved: exact distances, exact hop sets, loop freedom, and what any sequence of link
   failures keeps. The loop that reads link lines is proved to build the graph the search needs.
2. **All-pairs shortest paths** (`Floyd`, `FloydPaths`, `HopChase`, `MatrixLoading`, `Detours`). The in-place algorithm is proved against
   its recurrence and against walks; the search for a first link through recorded intermediate nodes is proved to end,
   and it is proved when its neighbour is on a walk of least sending time, and that on one topology file it is not.
3. **Dependency sorting and cycle finding** (`Dependencies`, `Topsort`, `TopsortLevels`, `Rotation`, `ParentGraph`, `CycleFinder`).
4. **The worker pool of the test runner** (`WorkerPool`), as a step relation over all interleavings.
5. **The two fat-tree generators** (`Division`, `FatTree`, `FatTreeShape`, `FatTreeRouting`, `FatTreeLoading`, `FatTreeFirstLink`),
   their equality, the shape of the tree, and what routing, loading and the search for first links make of it.
6. **Traffic and its ideal completion times** (`Connections`, `FlowSchedule`, `OrderedCompletion`).
7. **The patch reader and writer of the style checker** (`PatchText`, `PatchPatterns`, `PatchRoundTrip`, `PatchSet`).

`Basics` holds what the modules share about lists and sets.

Conventions. Nodes, hosts and elements are natural numbers. Integers are unbounded except where a width matters: sums in
Floyd and connection keys and indices are taken modulo 2^32, and `FatTreeShape.FitsInInt` says how far `int` reaches.
A C++ map read through `operator[]` is a map whose missing entries read as empty. Iteration orders that the
program does not fix, and all random draws, are arbitrary choices, so the theorems hold for every one of them. Assertion
failures, exceptions and divisions by zero are outcomes. Loop bodies that would make one method too long are methods of their own.
The properties of `Simulation`, of the in-place `Floyd` and of the patch objects are stated on their state before and after each call.

Where code and comments disagree the model follows the code: a connection may send 999 999 messages, not 10 000
(`scratch/third.cc:1203`, `scratch/third.cc:1216`); the elements left over by a failed sort are those with a cycle upstream, and need not have
a child (`bindings/python/topsort.py:109`); comparing two empty lists for rotation raises an index error (`bindings/python/rad_util.py:766`).

## Model

| member | source | states |
|---|---|---|
| RouteSearch.Search | scratch/third.cc:876-921 | The search finds exactly the nodes some route through switches reaches, each with the length of its shortest routes; its queue holds each node packets may pass through exactly once; and the hop lists grow by exactly those nodes that are one hop closer. |
| RouteSearch.Visit | scratch/third.cc:894-912 | Looking at one neighbour keeps the queue levels, the followed links, the search tree and the collected hops in step. |
| RouteSearch.Expand | scratch/third.cc:891-914 | Expanding one node of the queue follows all its up links and collects exactly the hops it stands for. |
| RouteSearch.HopListMembers | scratch/third.cc:910-912 | The hops collected for a node are exactly the expanded nodes one hop closer to the host, each listed once. |
| RouteSearch.AllRelaxed | scratch/third.cc:891-913 | When the queue is worked off, no route is shorter than the distance recorded for its end. |
| RouteSearch.TreePath | scratch/third.cc:901-904 | The recorded delay, transmission time and bottleneck rate are those of one shortest route to the node. |
| RouteSearch.PathCostMeans | scratch/third.cc:902-904 | The cost of a path of up links: the delays add up, so do the times `payload` bytes take at the rates of the links, and the rate is the lowest of theirs, or the largest 64-bit number if that is lower. |
| RouteSearch.MeetSwitch | scratch/third.cc:900-908 | A switch met for the first time joins the queue one hop beyond the node in turn. |
| RouteSearch.MeetHost | scratch/third.cc:905-907 | A host met for the first time gets its distance but is never passed through. |
| RouteSearch.QueueFits | scratch/third.cc:891-908 | No node is queued twice, so the search ends within as many turns as there are nodes. |
| RouteSearch.SearchDone | scratch/third.cc:891-920 | The finished search holds exact distances and costs of shortest routes. |
| Topology.DistancesUnique | scratch/third.cc:879-901 | The links alone determine all distances. |
| Topology.Shorter | scratch/third.cc:957-963 | Fewer links never bring a node closer or make a new one reachable. |
| Topology.Relaxed | scratch/third.cc:900-902 | A link out of a node packets may pass through reaches a node at most one hop farther. |
| Topology.HasCloser | scratch/third.cc:909-912 | Every routed node but the host has a next hop one hop closer. |
| Network.Simulation.constructor | scratch/third.cc:4698-4699 | The first routing run leaves hop table, routing tables and costs up to date with the links. |
| Network.Simulation.CalculateRoute | scratch/third.cc:876-921 | One call enters exact distances, hops and costs for its host and leaves the entries for all other hosts alone. |
| Network.Simulation.RecordCosts | scratch/third.cc:915-920 | The costs of one host are overwritten, those for other hosts and for nodes not reached stay as they were. |
| Network.Simulation.CalculateRoutes | scratch/third.cc:923-929 | From an empty hop table, the next hops towards every host are exact and there are none towards switches; every node reached has the cost of a shortest route to every host. |
| Network.PairCost | scratch/third.cc:4702-4712 | Whenever the simulation is up to date, the costs read for a pair are those of one shortest route between the two: the sum of the delays, the sum of the sending times, the lowest rate. |
| Network.Simulation.SetRoutingEntries | scratch/third.cc:931-954 | Every table gains exactly the ports of the listed next hops, in their order. |
| Network.Simulation.EnterHops | scratch/third.cc:943-951 | One list of next hops is appended to one table entry and nothing else changes. |
| Network.Simulation.ClearTables | scratch/third.cc:965-970 | All routing tables are empty afterwards. |
| Network.Simulation.TakeDownLink | scratch/third.cc:957-974 | The link is down in both directions, all others are up or down as before, every link keeps its port numbers, delay and rate, and hop table, routing tables and costs are those of the remaining graph; taking down a link that is down changes nothing. |
| Network.Simulation.TakeDownLinks | scratch/third.cc:957-974 | After any sequence of failures exactly the links taken down are gone, the wiring is as it was, and the simulation is up to date with the links that are left. |
| Network.FailuresOrScratch | scratch/third.cc:957-974 | A simulation that lived through any sequence of failures lists the same next hops and holds the same ports in every table as one started on the links that are left. |
| Network.UpAfterCuts | scratch/third.cc:957-961 | After any sequence of failures exactly the links not taken down are up, in both directions. |
| Network.CutsKeepWiring | scratch/third.cc:961 | Failures keep who is wired to whom, and all port numbers, delays and rates. |
| Network.NeverShorter | scratch/third.cc:957-963 | Whatever links fail, no hop distance gets shorter. |
| Network.SameHops | scratch/third.cc:962-974 | The links alone determine the listed next hops, up to their order. |
| Network.SamePorts | scratch/third.cc:931-954 | The links alone determine the ports installed in every table, up to their order. |
| Network.NoDownPort | scratch/third.cc:935-949 | No routing table names a port whose link is down. |
| Network.LoopFree | scratch/third.cc:931-954 | Whichever listed next hops a packet takes, it gets one hop closer each time, crosses only switches, never returns to a node, is never stuck, and arrives after exactly its distance. |
| Network.PortsLoopFree | scratch/third.cc:931-954 | The same for the ports of the installed tables: whichever listed ports a packet leaves by, it moves over links that are up, one hop closer each time, and arrives after exactly its distance. |
| Network.OneStep | scratch/third.cc:909-912 | A node is a listed next hop exactly if packets may pass it and it is one hop closer. |
| Network.AddressesApart | scratch/third.cc:4112-4117 | Hosts below 0xf50000 have distinct 32-bit addresses, so tables may be keyed by host. |
| Network.AddressBytes | scratch/third.cc:4115 | The address of a host is 11.x.y.1 with the two bytes of its number. |
| LinkLoading.LoadLinks | scratch/third.cc:4075-4282 | Reading stops at a line with rate zero, one not going up, or a host linked to a host, and only there; otherwise every interface is that of the last line between its nodes, with that line's delay and rate and the port number counted from the lines before, links lead both ways, ports are numbered apart, and a host is below a node exactly if links lead up to it in the order of the file. |
| LinkGraph.AddLink | scratch/third.cc:4274-4282 | The new line's interfaces replace or join those of the lines before, with the next port number of each node. |
| LinkGraph.LastLine | scratch/third.cc:4274-4282 | It is the last line that joins two nodes, if any does. |
| LinkGraph.PortOnce | scratch/third.cc:4274-4282 | No two links of a node share a port number. |
| LinkGraph.GraphSound | scratch/third.cc:4274-4282 | The graph read joins known nodes with positive rates, in both directions, exactly where a line does. |
| LinkGraph.GraphMeans | scratch/third.cc:4274-4282 | Both ends of the last line between two nodes have an interface with its delay, its rate in bits per second, and a port number one more than earlier lines end there; no other nodes are linked. |
| LinkLoading.ReadLink | scratch/third.cc:4141-4282 | One line keeps graph, port numbers and down-host sets exact. |
| DownHosts.AddDown | scratch/third.cc:4163-4176 | The upper end of a link gains the host, or all hosts below the lower switch, and no other set changes. |
| DownHosts.OneMoreClimb | scratch/third.cc:4163-4176 | A chain within one more line is an old chain, or one that ends with the new line. |
| DownHosts.OnePassExact | scratch/third.cc:4163-4176 | The single pass finds exactly the hosts below every node if and only if every line hands on all hosts found below its lower end, also those found after it. |
| DownHosts.OnePassSuffices | scratch/third.cc:4163-4176 | It does so whenever all links into a switch come before all links out of it. |
| DownHosts.WrongOrderMisses | scratch/third.cc:4163-4176 | A file in another order can miss a host: two links show it. |
| Floyd.Floyd | scratch/third.cc:364-374 | The in-place loops end with every entry of both matrices as the recurrence over whole rounds says, and no 32-bit sum wraps. |
| Floyd.OwnRowAndColumn | scratch/third.cc:366-372 | A round leaves its own row and column alone, so updating in place is harmless. |
| Floyd.NewCell | scratch/third.cc:369-372 | One comparison and assignment gives the cell its value of the next round, without wrapping. |
| Floyd.DistBounds | scratch/third.cc:4065-4073 | Entries never exceed the sentinel 0x3fffffff and the diagonal stays zero. |
| FloydPaths.Attained | scratch/third.cc:364-374 | Every entry is the weight of some walk. |
| FloydPaths.Minimal | scratch/third.cc:364-374 | No walk through the nodes of the rounds so far is lighter. |
| FloydPaths.Exact | scratch/third.cc:364-374 | The finished matrix holds the weight of a lightest walk along links, cut off at the sentinel. |
| FloydPaths.Triangle | scratch/third.cc:364-374 | The finished matrix satisfies the triangle inequality. |
| FloydPaths.Recorded | scratch/third.cc:371 | A recorded intermediate node lies on a lightest walk, is neither end, and the one recorded for the way to it is smaller. |
| FloydPaths.PivotRecorded | scratch/third.cc:369-371 | The intermediate node left for a pair is the smallest bound on the inner nodes of a lightest walk between the two, and none is left exactly where there is no such bound. |
| HopChase.Chase | scratch/third.cc:4369-4374 | The loop that replaces a hop by the hop towards it ends, at the first node reached through recorded intermediate nodes that has a direct link; that node lies on a lightest walk. |
| HopChase.GuidedAfterPass | scratch/third.cc:4330-4331 | After a pass, nodes without a direct link are guided by that pass, whatever hops an earlier pass left. |
| HopChase.HopAfterPass | scratch/third.cc:364-374 | The sentinel is left as a hop exactly between nodes no walk joins. |
| HopChase.FirstLinkOnePass | scratch/third.cc:4330-4374 | After one pass the first link found lies on a lightest walk to the destination. |
| HopChase.FirstLinkTwoPasses | scratch/third.cc:4330-4374 | After two passes with one hop matrix the chase still ends at a direct neighbour, which is named. Unless the first pass left a detour round the direct link that the second kept, it lies on a walk of least sending time to the destination. With a detour it lies on one to the pivot of the delays, and then it is good for the destination exactly if the ladder of pivots of the sending times from there ends at a neighbour that is; so it is if all neighbours towards the pivot are, or the pivot itself, and it is not if none of them is. |
| HopChase.LadderEnds | scratch/third.cc:4369-4374 | In terms of walks alone: the chase ends where the ladder of pivots from its start ends, and there is just one such end. |
| HopChase.NoDetour | scratch/third.cc:4330-4331 | Where all links have the same delay, no detour is left. |
| HopChase.ImprovedIsLess | scratch/third.cc:369-372 | An intermediate node is recorded exactly for pairs whose entry went down. |
| MatrixLoading.LoadMatrices | scratch/third.cc:4065-4155 | Linked nodes get the rate, delay, sending time and hop of the last line between them, all others the sentinel, the diagonal zero. |
| MatrixLoading.FilledEntered | scratch/third.cc:4145-4155 | The last line between two nodes gives both directions its rate, its delay, the packet's bits over the rate, and the other end as hop; all other entries are 0x3fffffff, and 0 on the diagonal. |
| MatrixLoading.ConnectedReaches | scratch/third.cc:4065-4155 | In a connected topology with short enough sending times every node is within reach for the passes. |
| MatrixLoading.LoadAndFindLink | scratch/third.cc:4065-4374 | Loading, both passes and the search on a connected topology end at a linked neighbour, with the rate of the last line to it; it is on a walk of least sending time if no detour is kept, and with a detour exactly if the ladder of pivots says so. |
| MatrixLoading.LoadAndFindFastest | scratch/third.cc:4065-4374 | Where all lines have the same delay it always is. |
| MatrixLoading.Simple | scratch/third.cc:4065-4155 | Any path along links can be cut short until it visits no node twice, so being connected is enough. |
| MatrixLoading.FilledForFloyd | scratch/third.cc:4065-4155 | Matrices so filled are what both passes and the chase ask for, as long as no value reaches the sentinel. |
| Detours.DetourSlower | scratch/third.cc:4362-4374 | On a file of two hosts and three switches, for a pair the program asks for, the search ends at a neighbour that is not on a walk of least sending time. |
| Detours.FindDetour | scratch/third.cc:4065-4374 | Loading that file, both passes and the search end there, for all rates and packet sizes within the bounds. |
| Topsort.CountParents | bindings/python/topsort.py:77-90 | Parent counts and lists of children agree with the pairs, duplicates counted each time. |
| Topsort.Topsort | bindings/python/topsort.py:77-112 | The answer has no duplicates and every parent before its children; the sort fails exactly if the pairs have a cycle; otherwise all elements mentioned are in it; on failure exactly the elements with a cycle upstream are left, each with the number of pairs that still lead to it, and the children of each remaining parent are listed pair by pair. |
| Topsort.Place | bindings/python/topsort.py:97-106 | Taking the next element of the growing answer keeps counts, lists and order in step, and its key is there to be deleted. |
| Topsort.CountDownAll | bindings/python/topsort.py:100-103 | Counting down the children of one element keeps the counts exact and appends exactly those without a parent left. |
| Topsort.CountDrops | bindings/python/topsort.py:100-101 | Once a parent is done, each count drops by the number of its pairs with that parent. |
| Topsort.ChildWaits | bindings/python/topsort.py:100-101 | A child to be counted down always has its key and a count above zero. |
| Topsort.Leftover | bindings/python/topsort.py:108-112 | When nothing is pending, counts are left exactly for the elements with a cycle upstream. |
| Topsort.LeftoverTables | bindings/python/topsort.py:97-111 | The tables left by a sort count the pairs from elements not dealt with, and list the children of each of these in the order of the pairs. |
| Dependencies.StuckBelowCycle | bindings/python/topsort.py:108-111 | In a finite set whose members all have a parent in it, every member has a cycle upstream. |
| Dependencies.OrderedNotBelowCycle | bindings/python/topsort.py:97-106 | No cycle leads to an element of an ordered list. |
| TopsortLevels.TopsortLevels | bindings/python/topsort.py:157-172 | Level n lists, each once, exactly the elements whose longest chain has n links; exactly those with no cycle upstream are emitted; it fails exactly if there is a cycle, with the tables of what is left. |
| TopsortLevels.TopsortLevelsCore | bindings/python/topsort.py:203-232 | The same for any tables that agree with some pairs. |
| TopsortLevels.LevelIsDepth | bindings/python/topsort.py:205-223 | The elements new at a level are exactly those whose longest chain has that many links. |
| TopsortLevels.ChainsAreShort | bindings/python/topsort.py:205-223 | A chain that ends within the first n levels has at most n elements. |
| TopsortLevels.LongChain | bindings/python/topsort.py:205-223 | An element not within the first n levels ends a chain of n + 1 elements. |
| TopsortLevels.LeftBelowCycle | bindings/python/topsort.py:226-229 | When a level comes out empty exactly the elements with a cycle upstream are left. |
| TopsortLevels.Strike | bindings/python/topsort.py:217-224 | Striking off one member of a level keeps counts and lists exact. |
| Rotation.IsRotated | bindings/python/rad_util.py:761-775 | It says whether the second list is a rotation of the first, and fails exactly for two empty lists. |
| Rotation.Transitive | bindings/python/rad_util.py:735-736 | Being a rotation is transitive. |
| Rotation.Symmetric | bindings/python/rad_util.py:735-736 | Being a rotation is symmetric. |
| CycleFinder.FindCycles | bindings/python/topsort.py:343-385 | The generator ends; it yields only simple cycles, no two of them rotations of each other, and a rotation of every simple cycle. |
| CycleFinder.ExactlyOne | bindings/python/topsort.py:370-378 | Of every simple cycle exactly one rotation is yielded. |
| CycleFinder.Explore | bindings/python/topsort.py:351-385 | From one start node all cycles within reach are found, and only nodes within reach are marked. |
| CycleFinder.Look | bindings/python/topsort.py:362-385 | One child closes a cycle that is found by then, or lengthens a path on the stack; the work left does not grow. |
| CycleFinder.IsDup | bindings/python/topsort.py:371-375 | A cycle is dropped exactly if a rotation of it has been found. |
| CycleFinder.AllCovered | bindings/python/topsort.py:346-349 | Start nodes already visited may be skipped: cycles within their reach have been found. |
| CycleFinder.AllFound | bindings/python/topsort.py:352-385 | With the stack empty no cycle within reach is missing. |
| ParentGraph.MeetCycle | bindings/python/topsort.py:367-369 | A cycle within reach is met by a simple path that touches it with its last node only. |
| ParentGraph.GoRound | bindings/python/topsort.py:367-383 | Going round the cycle from there is a simple path. |
| WorkerPool.StepKeeps | test.py:921-989 | Every step of main, a worker or the interrupt keeps each job in exactly one place. |
| WorkerPool.RunInv | test.py:921-989 | So does every interleaving. |
| WorkerPool.NeverStuck | test.py:1594-1737 | With at least one worker, some thread can move in every reachable state before main has collected all results and joined all workers. |
| WorkerPool.AnyMoment | test.py:921-989 | In every reachable state a signal may arrive, and a worker with a job in hand or one to take may move, whatever its run returns. |
| WorkerPool.FlagUp | test.py:546-550 | The interrupt flag is up exactly from the first signal on. |
| WorkerPool.RunsEnd | test.py:921-989 | Every interleaving ends, within 6 steps per job and worker and one interrupt. |
| WorkerPool.CanFinish | test.py:921-989 | With a worker or without jobs, run_tests can still finish from every reachable state. |
| WorkerPool.FinishesIff | test.py:1313-1316 | A run that finishes exists exactly if there is a worker or there are no jobs. |
| WorkerPool.Outcome | test.py:1575-1803 | At the end every job has come back exactly once, with the return code of its run, and marked as break exactly if an interrupt was up when a worker looked at it; queues are empty, every worker took one break job and returned, the tally counts the results by verdict, and the exit value is 0 exactly if no job was met by an interrupt and every one not to be skipped was run and returned 0. |
| WorkerPool.RunEarned | test.py:931-989 | In every reachable state each job that came out of a worker was looked at, and returns what its run returned if it was run. |
| WorkerPool.MovesOnce | test.py:921-989 | No job is looked at twice or run twice. |
| WorkerPool.CollectedInOrder | test.py:1594-1596 | Results are collected in the order in which workers put them. |
| WorkerPool.NoWorkersNoResults | test.py:1313-1316 | Without workers a run with jobs never finishes. |
| WorkerPool.TalliedGood | test.py:1594-1619 | Passed and skipped jobs add up to all jobs exactly if all are good. |
| WorkerPool.TallyExact | test.py:1605-1619 | Every result is counted under its verdict and nowhere else. |
| WorkerPool.MissingResult | test.py:1594-1596 | If workers are at rest and both queues empty, main has all results. |
| FatTree.Nested | scratch/fat-tree-generator.cc:36-123 | The nested loops refuse odd k, divide by zero for k = 0, and otherwise write the file of the fat-tree. |
| FatTree.HeaderCounts | scratch/fat-tree-generator.cc:89 | The header in terms of h = k / 2: 2h^3 + 5h^2 nodes, 5h^2 switches, h^2 hosts per pod, 2h^2 edge switches, h^2 core switches, 6h^3 links. |
| FatTree.Flattened | mix/fat-tree-generator.cc:48-114 | The flattened loops write the same file, odd k rounded down. |
| FatTree.Both | mix/fat-tree-generator.cc:48-114 | Both programs write the same header, switch ids and links in the same order exactly for even k from 2 on. |
| FatTree.PodEdgeLinks | scratch/fat-tree-generator.cc:105-111 | The two inner loops write the rows of one pod. |
| FatTree.PodCoreLinks | scratch/fat-tree-generator.cc:116-122 | The two inner loops write the rows of the aggregation switches of one pod. |
| FatTree.FlattenedEdgeLinks | mix/fat-tree-generator.cc:90-100 | Pod and start index computed by division give the rows of the nested loops. |
| FatTree.FlattenedCoreLinks | mix/fat-tree-generator.cc:104-114 | Class and start index computed by division and remainder give the rows of the nested loops. |
| Division.AreOperators | mix/fat-tree-generator.cc:92-107 | Quotient and remainder as used in the model are those of the language. |
| FatTreeShape.LinkCount | scratch/fat-tree-generator.cc:89-123 | The file has as many links as its header declares. |
| FatTreeShape.LinksExact | scratch/fat-tree-generator.cc:96-123 | The links are exactly those of the layered tree, no pair twice, each from the lower to the higher id. |
| FatTreeShape.LinkAt | scratch/fat-tree-generator.cc:96-123 | Every line joins two nodes that are to be joined and stands at the place computed from them. |
| FatTreeShape.JoinedAt | scratch/fat-tree-generator.cc:96-123 | Every pair to be joined has its line at that place. |
| FatTreeShape.Degrees | scratch/fat-tree-generator.cc:16-34 | Every host has one link and every edge, aggregation and core switch exactly k. |
| FatTreeShape.FitsInInt | scratch/fat-tree-generator.cc:46-119 | No product or sum the nested generator computes exceeds the number of links, or 7 for k = 2, and all of them fit into a 32-bit int exactly up to k = 1420. |
| FatTreeRouting.HopDistances | scratch/third.cc:876-921 | On the fat-tree every node reaches every host, at 2 hops under one edge switch, 4 within a pod, 6 across pods. |
| FatTreeRouting.NoShortcut | scratch/third.cc:891-913 | No route is shorter than that. |
| FatTreeRouting.NextHops | scratch/third.cc:909-912 | Going up, the next hops are all switches above; going down there is exactly one. |
| FatTreeRouting.SwitchesOfFile | scratch/fat-tree-generator.cc:91-94 | The file names exactly the nodes above the hosts as switches. |
| FatTreeLoading.WrittenInOrder | scratch/fat-tree-generator.cc:96-123 | The generated file has all links into a switch before all links out of it. |
| FatTreeLoading.NoneRefused | scratch/third.cc:4163-4165 | No line of a generated file is refused. |
| FatTreeLoading.DownHostsExact | scratch/third.cc:4163-4176 | Below an edge switch are its hosts, below an aggregation switch those of its pod, below a core switch all. |
| FatTreeLoading.GraphOfFatTree | scratch/third.cc:4274-4282 | The graph read in is the fat-tree. |
| FatTreeLoading.GenerateAndLoad | scratch/third.cc:4044-4282 | Generating, reading and routing a fat-tree succeeds for every even k from 2 on and gives the down-host sets and an up-to-date simulation of it. |
| FatTreeLoading.PacketsArrive | scratch/third.cc:931-954 | In it a packet arrives after exactly the hops above, whichever equal-cost hops it takes. |
| FatTreeLoading.TreeCosts | scratch/third.cc:901-904 | In it delay and transmission time between any node and any host are those of one link times the hops, and the rate is that of the links. |
| FatTreeFirstLink.TreeConnected | scratch/fat-tree-generator.cc:96-123 | Every node of a generated file can be reached from every other. |
| FatTreeFirstLink.LeastTime | scratch/third.cc:364-374 | All-pairs shortest paths and breadth-first search agree: the least sending time to a host is that of one link times the hops. |
| FatTreeFirstLink.OnLightestCloser | scratch/third.cc:4366-4374 | A neighbour on a walk of least sending time to a host is one hop closer, and packets may pass through it. |
| FatTreeFirstLink.GenerateAndFindLink | scratch/third.cc:4044-4374 | Generating a fat-tree, loading it, both passes and the search end, for every pair of nodes, at a neighbour on a walk of least sending time; towards a host, at one of the equal-cost next hops that the routing lists. |
| Connections.GenerateQP | scratch/third.cc:1064-1106 | The draw gives distinct pairs in different racks, as many as asked for within the bounds; its assertion fails exactly if there is no such pair and less than one connection is asked for. |
| Connections.AllPairs | scratch/third.cc:1068-1074 | The list has every pair in different racks exactly once. |
| Connections.Pick | scratch/third.cc:1086-1094 | Moving random pairs over gives distinct pairs of the list. |
| Connections.Thin | scratch/third.cc:1095-1102 | Removing random pairs leaves distinct pairs of the list, as many as wanted if there were more. |
| FlowSchedule.Generate | scratch/third.cc:1197-1240 | The flows start one after the other, at equal times by pair of hosts, none later than an event left in the queue; within the limits they are the merged streams of the connections, each flow at its own arrival time, numbered under its connection by the flows before it there, with exactly the next arrival of each connection still queued; the assertion fails only when a connection sends its millionth message. |
| FlowSchedule.OrderMeans | scratch/third.cc:1179-1181 | The order of the queue is by time, then by 1000 times the sender plus the receiver. |
| FlowSchedule.NumbersCount | scratch/third.cc:1215-1219 | Every flow leads between the hosts of its connection and is numbered by how many came before it there. |
| FlowSchedule.Capacity | scratch/third.cc:1215-1216 | While no connection has sent its millionth message there are at most 999 999 flows per connection, so asking for more always ends in the failed assertion. |
| FlowSchedule.Begin | scratch/third.cc:1200-1204 | One event per connection is queued, not before the shift, with the index of the connection under its key. |
| FlowSchedule.Emit | scratch/third.cc:1211-1229 | One turn of the loop takes an event no later than any other, makes its flow, and keeps all of that. |
| FlowSchedule.Due | scratch/third.cc:1214-1219 | Key and index of the event lead back to its connection, its hosts and its next message number. |
| FlowSchedule.DrawnWithinLimits | scratch/third.cc:1195-1204 | Drawn connections keep the limits for up to 1000 hosts and 4294 connections. |
| OrderedCompletion.Group | scratch/third.cc:454-467 | Every message is in the queue of its connection, and only there. |
| OrderedCompletion.Drain | scratch/third.cc:480-523 | Messages are taken in order; the completion time is the latest finish so far, the ideal one that of a link never idle while it has work. |
| OrderedCompletion.Report | scratch/third.cc:448-527 | Every connection with a message is reported, in the order of ids, with a row for exactly its messages, by message number and by sender index where numbers are equal. |
| OrderedCompletion.DoneStep | scratch/third.cc:511-523 | The running value equals the largest sum of a start and the work from that message on. |
| OrderedCompletion.LatestStep | scratch/third.cc:486-488 | The running finish is the maximum of the finishes so far. |
| OrderedCompletion.OneReport | scratch/third.cc:448-527 | The rules fix the whole report. |
| OrderedCompletion.NeverFaster | scratch/third.cc:508-525 | Ideal and measured times are never below those of the message alone. |
| OrderedCompletion.InMessageOrder | scratch/third.cc:486-488 | A message with a higher number is never complete earlier on its connection. |
| OrderedCompletion.OrderedByNumber | scratch/third.cc:333 | Messages are taken by number, then by sender index. |
| PatchSet.PatchChunkLine.Write | utils/check-style.py:157-165 | A line is written with the sign of its type; a line without type raises an exception. |
| PatchSet.PatchChunk.Src | utils/check-style.py:177-182 | Exactly the source-side line objects of the chunk, in order. |
| PatchSet.PatchChunk.Dst | utils/check-style.py:183-188 | Exactly the destination-side line objects of the chunk, in order. |
| PatchSet.PatchChunk.Write | utils/check-style.py:193-197 | Header and lines are appended, or an exception is raised for a line without type. |
| PatchSet.Patch.Write | utils/check-style.py:215-219 | Names and chunks are appended, or an exception is raised. |
| PatchSet.ParsePatchset | utils/check-style.py:221-265 | The objects built show exactly the patches that the lines spell out; all are new, and no two places of patches, chunks or lines share one; an exception is raised exactly for lines that spell no patches. |
| PatchSet.ReadLine | utils/check-style.py:230-264 | One line changes the objects as its pattern says, and fails without current patch or chunk or pattern. |
| PatchSet.ReadBody | utils/check-style.py:241-264 | A chunk header starts a chunk in the current patch, any other line is text, and objects stay apart. |
| PatchSet.TakeLine | utils/check-style.py:246-263 | A text line goes to the current chunk as a new object, also when that chunk belongs to an earlier patch, and nowhere else. |
| PatchRoundTrip.RoundTrip | utils/check-style.py:199-265 | Reading a printed patch set gives it back exactly if no removed line starts with "-- " and no added line with "++ ". |
| PatchRoundTrip.FileRoundTrip | utils/check-style.py:199-265 | The same through a file split into lines. |
| PatchRoundTrip.HeaderRead | utils/check-style.py:194-195 | The counts in a printed chunk header are the numbers of source-side and destination-side lines. |
| PatchRoundTrip.LineBack | utils/check-style.py:246-263 | A printed line is read as text exactly unless it looks like a file name line. |
| PatchRoundTrip.RunSize | utils/check-style.py:230-265 | Reading adds as many lines to the patch set as there are text lines. |
| PatchText.ValueOfDecimal | utils/check-style.py:171-172 | A printed number is read as the same number. |
| PatchPatterns.HeaderExact | utils/check-style.py:224 | A line is a chunk header exactly if it starts with two pairs of numbers in their places, whatever follows the second "@@", and the four numbers are those read. |
| PatchPatterns.AfterExact | utils/check-style.py:222-227 | A prefix pattern captures a text exactly if the line is the prefix and that text, with no line break but one at the end. |
| PatchPatterns.NoLeadingZero | utils/check-style.py:194 | Printed numbers have no leading zero. |

## Left out

- ns-3 nodes, devices, channels, RDMA, switch buffers and simulator events: library or unseen code; `QbbNetDevice::TakeDown` and `RedistributeQp` have no effect on routing.
- The switch logic in `switch-node` and `switch-mmu` is not part of this model.
- Network.Simulation.CalculateRoute: costs are kept in one table of triples instead of three maps, and `operator[]` does not insert the empty entries it would; neither can be observed.
- HopChase.FirstLinkTwoPasses: every node must be within reach, since the program indexes with the sentinel otherwise.
- Network.PairCost: nothing is said about pairs that no route joins any more; their costs stay what they were before the failure. Round trip times and windows computed from the costs are left out.
- LinkLoading.LoadLinks: node ids must be below the number of nodes, which the program does not check before it indexes its vectors; server addresses and queue settings of a link are not modelled.
- MatrixLoading.LoadMatrices: rates, delays and sending times are read as natural numbers.
- FlowSchedule.Generate: sizes are arbitrary, and so are all intervals; the global connection counter and the totals printed at the end are not modelled.
- OrderedCompletion.Drain: the time on the wire is given as a whole number of nanoseconds instead of being computed in floating point from the size; printing and percentiles are left out.
- WorkerPool.Outcome: queue operations and the reading of the interrupt flag are single steps; launching processes, output and the choice of jobs are not modelled.
- FatTree.Nested: console dialogue and the second output file are left out; numbers are unbounded, see `FatTreeShape.FitsInInt`.
- PatchSet.Patch.Write: a file is the text written to it so far; `append_to_line`, `apply` and the removal of trailing whitespace are left out.
- ParentGraph and Dependencies take hashable elements as natural numbers, and a generator as the list of what it yields.
- The other traffic patterns repeat the draw and the merge modelled here for other pairs and sizes; configuration files and traces are input and output only; percentiles and other statistics are floating point without an exact value to state; the remaining Python helpers are unrelated to sorting and cycles.
