# Percolation grid

A Dafny model of the `Percolation` class of the Princeton Algorithms I
percolation assignment. An n-by-n grid of sites starts with every site
blocked. `open(row, col)` opens a site, and the grid answers `isOpen`,
`isFull`, `numberOfOpenSites` and `percolates`. Coordinates count from 1.

The class keeps two union-find structures over integer site ids:

- `sites` has n*n + 2 ids: every site, the virtual top node 0 and the virtual bottom node n*n + 1. It answers `percolates`.
- `trackFullSites` (here `fullSites`) has n*n + 1 ids: every site and the top node only. It answers `isFull`. Because it has no bottom node, a site that reaches the top only through the bottom node is not reported full ("backwash").

The model is split into five modules:

- `Sites` covers coordinates, the row-major `xyTo1D` ids, the two virtual ids and argument validation. A Java `IllegalArgumentException` becomes an `Outcome` or `Result` value.
- `DisjointSets` holds a small union-find class. It is a representative array with `Union` and `Find`, and its contract is only "same set" semantics.
- `Connectivity` defines the graph each structure tracks. Its nodes are the sites and the virtual nodes. Its edges join open adjacent sites, Top to open row-1 sites and, with the bottom node, Bottom to open row-n sites. It also proves facts about reachability in that graph.
- `PercolationModel` holds the `Percolation` class. Its invariant `Valid()` says that the grid agrees with the ghost set `openSet` and that the counter equals `|openSet|`. It also says that each structure's sets are exactly the connected components of its graph (`Represents`). Each operation is proved against that invariant.
- `Scenarios` works through small grids: a single site, an open column that percolates, a lone bottom site that neither fills nor percolates, a diagonal that does not percolate, and a backwash grid that percolates while its corner site is not full.

## Model

| member | source | states |
|---|---|---|
| Sites.ValidateIndices | assignment1-percolation/Percolation.java:96-103 | passes exactly the in-bounds pairs; a bad row is reported before a bad column, and a column error only when the row is valid |
| Sites.XyTo1D | assignment1-percolation/Percolation.java:92-94 | a site id lies in 1..n*n and is never the top id 0 or the bottom id n*n+1 |
| Sites.SiteOfXyTo1D | assignment1-percolation/Percolation.java:92-94 | decoding the id of a site gives the site back, so xyTo1D is one-to-one |
| Sites.XyTo1DSiteOf | assignment1-percolation/Percolation.java:92-94 | every id in 1..n*n is the id of a site, so xyTo1D maps onto 1..n*n |
| Sites.XyTo1DInjective | assignment1-percolation/Percolation.java:92-94 | two sites share an id exactly when they are the same site |
| Sites.SiteOf | assignment1-percolation/Percolation.java:92-94 | the inverse of xyTo1D yields an in-bounds site for every id in 1..n*n |
| Sites.NodeId | assignment1-percolation/Percolation.java:25-28 | every node gets an id in the universe of `sites`; the id is 0 exactly for the top node and n*n+1 exactly for the bottom node |
| Sites.NodeIdInjective | assignment1-percolation/Percolation.java:25-28 | within either structure's universe, no two nodes share an id, and `fullSites`' universe of n*n+1 ids holds every node but the bottom node |
| DisjointSets.Merged | assignment1-percolation/Percolation.java:44-48 | after a union the two ids share a set, and the representative array stays well formed |
| DisjointSets.MergedSameSet | assignment1-percolation/Percolation.java:84-85 | after union(p, q), x and y share a set exactly when they did before or one was with p and the other with q; sets only ever merge |
| DisjointSets.UnionFind.constructor | assignment1-percolation/Percolation.java:25-26 | a structure of `size` ids in which every id is alone in its set |
| DisjointSets.UnionFind.Find | assignment1-percolation/Percolation.java:64 | find returns a representative that stands for itself and shares the set of its argument |
| DisjointSets.UnionFind.FindIdentifiesSet | assignment1-percolation/Percolation.java:76 | two finds are equal exactly when the ids share a set; this follows from the definitions and is the bridge from the `find(a) == find(b)` test to sets, while what a union does to sets is `MergedSameSet` |
| DisjointSets.UnionFind.Union | assignment1-percolation/Percolation.java:44-48 | the representative array becomes the merge of the two sets, and stays well formed |
| Connectivity.ReachSymmetric | assignment1-percolation/Percolation.java:84-85 | reachability in the graph a structure tracks is symmetric: a walk reversed is a walk |
| Connectivity.ReachTransitive | assignment1-percolation/Percolation.java:84-85 | connected-to-connected nodes are connected |
| Connectivity.ReachMonotone | assignment1-percolation/Percolation.java:75-77 | opening more sites, or adding the bottom node, keeps every connection; so percolation never reverts, and a full site also reaches Top in the graph of `sites` |
| Connectivity.BlockedSiteIsolated | assignment1-percolation/Percolation.java:60-67 | a blocked site reaches nothing but itself, so a blocked site is never full |
| Connectivity.NothingOpenNothingReached | assignment1-percolation/Percolation.java:22-28 | in the all-blocked grid every node is connected only to itself |
| Connectivity.ClosedSetConfines | assignment1-percolation/Percolation.java:60-67 | nothing outside a set of nodes that no edge leaves is reachable from inside it |
| Connectivity.OpeningJoins | assignment1-percolation/Percolation.java:32-51 | after opening a blocked site, two nodes are connected exactly when they were connected before, or both were connected to the site's neighbourhood |
| PercolationModel.ConnectStep | assignment1-percolation/Percolation.java:79-90 | one call of connectNeighbor on a representative array: a union with the neighbour when it is in bounds and open, the array unchanged otherwise; its own contract keeps the length, and `NeighbourStep` proves that it joins exactly that neighbour's component |
| PercolationModel.AfterNeighbours | assignment1-percolation/Percolation.java:38-41 | the four neighbour unions of open in the source's order; its own contract keeps the length, and `NeighboursJoined` proves that the site is then joined to exactly its open in-bounds neighbours |
| PercolationModel.AfterOpen | assignment1-percolation/Percolation.java:38-49 | the whole union sequence of open; its own contract keeps the length, and `OpenRepresents` proves that it turns a structure representing the old graph into one representing the new graph |
| PercolationModel.JoinsNeighbourhood | assignment1-percolation/Percolation.java:38-49 | the nodes open unions a site with (its open in-bounds neighbours, Top for row 1, Bottom for row n where held) are exactly its neighbours in the graph |
| PercolationModel.StartJoin | assignment1-percolation/Percolation.java:36-37 | a freshly opened site starts in a set of its own |
| PercolationModel.JoinStep | assignment1-percolation/Percolation.java:44-48 | one union of a node with the site being opened joins that node's component to the site |
| PercolationModel.NeighbourStep | assignment1-percolation/Percolation.java:79-90 | connecting to a candidate neighbour joins it when it is in bounds and open, and changes nothing otherwise |
| PercolationModel.NeighbourPair | assignment1-percolation/Percolation.java:38-41 | two consecutive neighbour steps join both neighbours, where open, to the site |
| PercolationModel.NeighboursUnfold | assignment1-percolation/Percolation.java:38-41 | the four neighbour steps written out are `AfterNeighbours`, and the four neighbour sets are `NeighbourJoins` |
| PercolationModel.JoinedNodeIsNeighbour | assignment1-percolation/Percolation.java:38-49 | every node open unions the site with is the site itself or one of its graph neighbours |
| PercolationModel.NeighbourIsJoined | assignment1-percolation/Percolation.java:38-49 | every graph neighbour of the opened site is among the nodes open unions it with |
| PercolationModel.NeighboursJoined | assignment1-percolation/Percolation.java:38-41 | after the four neighbour steps the site is joined to exactly its open in-bounds neighbours |
| PercolationModel.OpenRepresents | assignment1-percolation/Percolation.java:34-50 | the unions open performs keep each structure's sets equal to the components of its graph |
| PercolationModel.SingletonsRepresentBlockedGrid | assignment1-percolation/Percolation.java:22-28 | structures of singletons represent the all-blocked grid |
| PercolationModel.Percolation.constructor | assignment1-percolation/Percolation.java:22-28 | every site blocked, count 0, `fullSites` too small to hold the bottom id, the system does not percolate, invariant established |
| PercolationModel.Create | assignment1-percolation/Percolation.java:18-21 | n <= 0 is refused with an error and builds nothing; otherwise a fresh blocked grid of side n |
| PercolationModel.Percolation.Open | assignment1-percolation/Percolation.java:32-51 | bad indices are refused before any change; opening an open site changes nothing; opening a blocked site opens exactly that cell and adds one to the count; the site then shares a set with each open neighbour in both structures, with Top in both for row 1, and with Bottom in `sites` for row n; percolation never reverts |
| PercolationModel.Percolation.OpenBlocked | assignment1-percolation/Percolation.java:34-50 | opening a blocked site adds it to the open set and one to the count, and keeps the invariant |
| PercolationModel.Percolation.MarkOpen | assignment1-percolation/Percolation.java:36-37 | the cell and the counter record one more open site |
| PercolationModel.Percolation.ConnectNeighbors | assignment1-percolation/Percolation.java:38-41 | both structures undergo the four neighbour unions in the source's order |
| PercolationModel.Percolation.ConnectVirtual | assignment1-percolation/Percolation.java:43-49 | a row-1 site is joined to Top in both structures and a row-n site to Bottom in `sites` only |
| PercolationModel.Percolation.ConnectNeighbor | assignment1-percolation/Percolation.java:79-90 | an in-bounds open neighbour is joined to the source in both structures; an out-of-bounds or blocked one is skipped without error |
| PercolationModel.Percolation.EdgesJoined | assignment1-percolation/Percolation.java:38-49 | an open site shares a set with each open neighbour in both structures, with Top when in row 1, and with Bottom in `sites` when in row n |
| PercolationModel.Percolation.ConnectedIffReach | assignment1-percolation/Percolation.java:9-10 | each structure puts two nodes in one set exactly when they are connected in its graph |
| PercolationModel.Percolation.IsOpen | assignment1-percolation/Percolation.java:54-57 | bad indices give the validation error; otherwise the answer is whether the site is open |
| PercolationModel.Percolation.IsFull | assignment1-percolation/Percolation.java:60-67 | bad indices give the validation error; otherwise full means open and in Top's set of `fullSites`, which is the same as reaching Top through open sites without the bottom node; so full implies open |
| PercolationModel.Percolation.NumberOfOpenSites | assignment1-percolation/Percolation.java:70-72 | the count is the number of open sites |
| PercolationModel.Percolation.Percolates | assignment1-percolation/Percolation.java:75-77 | true exactly when Top and Bottom share a set in `sites`, which is the same as a chain of open sites joining row 1 to row n |
| Scenarios.BlockedGridDoesNotPercolate | assignment1-percolation/Percolation.java:17-28 | a grid with every site blocked does not percolate |
| Scenarios.SingleSiteGraph | assignment1-percolation/Percolation.java:43-49 | in a 1-by-1 grid with its site open, the site is full and the system percolates |
| Scenarios.DiagonalGraph | assignment1-percolation/Percolation.java:38-41 | sites touching only at a corner are not connected: no percolation, and the lower one is not full |
| Scenarios.BackwashGraph | assignment1-percolation/Percolation.java:43-49 | a corner site connected to Top only through Bottom is not full, although the system percolates |
| Scenarios.VerticalGraph | assignment1-percolation/Percolation.java:38-49 | in a 2-by-2 grid with the first column open, Top reaches Bottom and the lower site reaches Top without Bottom |
| Scenarios.BottomOnlyGraph | assignment1-percolation/Percolation.java:43-49 | with only a bottom-row site open, Top does not reach Bottom and the site does not reach Top without Bottom |
| Scenarios.Vertical | assignment1-percolation/Percolation.java:32-77 | opening a column of a 2-by-2 grid makes it percolate and fills its lower site |
| Scenarios.BottomOnly | assignment1-percolation/Percolation.java:60-77 | a lone open bottom-row site is open but not full, and the system does not percolate |
| Scenarios.OpenSite | assignment1-percolation/Percolation.java:32-51 | opening an in-bounds site of a valid grid leaves it valid with that site added to the open sites, whether or not it was open before |
| Scenarios.SingleSite | assignment1-percolation/Percolation.java:32-77 | opening the only site of a 1-by-1 grid makes it open and full, counts 1 and percolates |
| Scenarios.Diagonal | assignment1-percolation/Percolation.java:34-37 | opening a site twice counts it once, and a diagonal does not percolate |
| Scenarios.Backwash | assignment1-percolation/Percolation.java:43-49 | the backwash grid percolates and its corner site is not reported full |
| Scenarios.InvalidArguments | assignment1-percolation/Percolation.java:96-103 | size 0 is refused, a bad row is reported before a bad column, and refused calls open nothing |

## Left out

- `PercolationStats.java` is not part of this model. It draws random sites, computes floating-point statistics and prints them.
- The union by size of `WeightedQuickUnionUF` is left out. That library class is not part of this model. `DisjointSets.UnionFind` is a quick-find representative array with the same "same set" meaning. Its `Find` returns some member of the set, which need not be the root the library would pick. Only the equality of two finds is relied on.
- Java's 32-bit `int` is not modelled. The side is bounded by `MaxSide` = 46340, so n*n + 2 and every id fit in an `int` and no arithmetic can wrap. `Create` and the constructor require n <= MaxSide.
- Exceptions are modelled as values. `IllegalArgumentException` becomes `Fail`/`Failure` carrying an error kind, and the message text is dropped. `connectNeighbor`'s catch-and-ignore becomes a check of the validation result.
- The Java constructor is modelled in two parts. `Create` refuses n <= 0 and returns a `Result`; `Percolation.constructor` requires 0 < n.
- `Open` always returns its validation outcome, where the Java method returns nothing or throws.
