# Verified model of Compromutator's flow prediction

Compromutator watches an OpenFlow network, keeps a symbolic model of it and predicts the
counters of its rules. This project models the four layers of that prediction in Dafny and
proves what each of them promises. `dafny verify dfyconfig.toml` checks everything.

## How the model is built

**Ternary header spaces** (`array.c`, `hs.c`, `HeaderSpace.cpp`, `NetworkSpace.cpp`). Masks
are sequences of 64-bit words with two bits for each position, exactly as in `array.c`: bit
2k allows the value 0 at position k, bit 2k+1 the value 1, and padding positions are x. A
header is a mask with one value everywhere, so membership and inclusion are the same
word-wise test. The word operations are proved once on `bv64`; everything above works on
sets of headers. The list operations keep the loops of `hs.c` (swap-with-last deletion,
elements that shrink during the iteration, diffs absorbed one by one); `Absorptions` says
which elements compaction frees and what it leaves of the others, because the graph and the
forest go by the answers of `empty()`. `HeaderSpace` is a class that is updated in place;
its specifications are statements on sets of headers.

| module | source |
|---|---|
| Words, Masks, Arrays, Combine | `array.c` |
| HeaderLists, Compaction, Absorptions, Intersection, Complement, Rewriting | `hs.c` |
| RewriteWords, HeaderChangers, HeaderSpaces | `HeaderSpace.cpp` |
| NetworkSpaces | `NetworkSpace.cpp` |

**Incremental dependency graph** (`DependencyGraph.cpp`, `Switch.cpp`). The class
`DependencyGraph` keeps tables, effective domains, influences and edges and changes them
rule by rule and link by link. Its invariant `GraphOk` says: influences and effective
domains are right for every table, every edge is sound, and every pair of a rule and a rule
of the table it feeds is served by an edge that carries everything. `AddRule`, `DeleteRule`,
`AddTable` and `AddLink` keep it. The theorems in `DependencyGraphs` read off what it means:
effective domains are first matches and the edges carry exactly what the network forwards.
`Forwarding` says the same by the action of each rule: over which port and link its packets
go, with which number they arrive and which rules take them. The contracts also say which
edges an operation adds and removes, so that no pair of rules collects superfluous edges.

**Path forest** (`FlowPredictor.cpp`, `PathScan.cpp`). Trees of nodes grow backward from the
sinks along the edges of the graph. `Forests` says what nodes mean, `ForestGrowth` and
`SubtreeGrowth` how trees grow, `SubtreeRemoval` how they are cut during the walk,
`PathQueries` how the paths below a node are found, `PathCounters` how readings of paths are
counted, `Coverings` which headers the forest covers, and `FlowPredictors` puts this
together. `GraphFlows` proves that every dependency graph that satisfies `GraphOk` is one
over which the forest can grow; `SmallNetworks` has networks with one source and one sink.

**Request protocol** (`Stats.cpp`, `Detector.cpp`, `InterceptorManager.cpp`). The class
`StatsManager` is the timeline of buckets; `Protocols` relates it to the pending requests,
`Readings` says what the readings of one bucket do to the forest. The class `Detector` is
the state machine around the manager and a `FlowPredictor`: its invariant says at the same
time that the protocol is right, that the forest is right and, as long as replies carry the
counters of the switches, that what has been counted is the truth. `OutOfTurn` drives it
through a run. `InterceptorManager` keeps the pending diff of the rules on the switches.

The big steps of the dependency graph (`InstallRule`, `UninstallRule` and the walks below
them) are methods on the maps of vertices and influences that share the `EdgeInstaller`
object; the class `DependencyGraph` assigns their results to its fields.

## What turned out to be conditional

Where the code meets a promise only under a condition, the condition is proved, as an
if-and-only-if where one is known, with an input that shows the failure.

- `hs_cmpl` takes an empty running result for "first iteration" (`hs.c:338`) and, on a list
  with diffs, first compacts (`hs.c:311-313`). `HsCmplExactIff` says exactly when the result
  is the complement, `WholeMinusOne` when it is for the whole space without one mask,
  `SegmentsExactIff` and `FlatExactIff` say it for the loop and for flattening. On diff lists
  nothing is ever missing (`DiffCmplIsSound`), but six masks can leave too much, and `<=` and
  `==` then answer false (`WholeNotRecognised`; `Recognised` is the exact condition).
- The last `vec_compact` of `hs_compact_m` ignores diffs (`hs.c:275`): `CompactLossless` says
  when no header is lost, `NestedIsLost` is a list of two elements that loses one.
- `hs_rewrite` is exact when at most one diff of an element is dropped (`ImageExact`). In
  general it computes the image of the element without its dropped diffs
  (`ImageOfSurvivors`), which can be more than the image (`TwoDroppedGain`).
- `empty()` is exact without diffs and never wrongly true. With diffs it is true exactly when
  compaction leaves nothing, which it does when a diff covers the element or two of them
  leave out the two values of one position (`DoomedIsFreed`), and not in general: the whole
  space without the six masks of `WholeNotRecognised` has no header and is not recognised.
  Edges and nodes with diffs are kept or dropped by this answer (`EdgesNonempty`,
  `NodesNonempty`).
- `NetworkSpace::operator-=` ignores ports: `MinusExactIff`. `Transfer::operator*` forgets the
  port of the left transfer even if the right one sets none: `ComposedInTurn`. Root transfers
  are not affected, since they set the port of their sink (`RootTransferIsForm`).
- `is_existing_child` passes over an edge if its source rule has a child already, whatever
  that child's edge carries (`FlowPredictor.cpp:264-302`). `CoveredIff` says exactly when no
  header that flows to a sink is missed, `MissedHeader` builds a forest that misses some.
- `FlowPredictor::passRequest` answers the predictions of the time of the reply, although
  the bucket that left may be an older one (`FlowPredictor.cpp:39-50`). The contract of
  `AddStats` says exactly when the two times agree; `RunOutOfTurn` is a run from the
  constructors on in which they do not, and a prediction is never answered.
- No difference of two readings wraps around while counters do not fall in the order of the
  queries, also when one bucket holds several queries of a path (`CountersAreTrue`). Without
  that, `AddStats` still promises order and completeness of the buckets.
- `InterceptorDiff::operator+=` acts like the two diffs in turn only if deleted additions
  were not installed before: `MergeActsInTurn`, `MergeLosesDeletion`.

What callers must guarantee is stated as requirements: masks are free of z; all rules of a
table share one input port and do not overlap at equal priority; every table is registered
with a miss rule that stays; links join ports of different switches; a rule sends to one
destination, has a fresh id and does not send to its own table; the edges have no cycle when
the forest grows; the two rules of an edge differ; request ids do not come up again while
they are pending.

## Model

| member | source | states |
|---|---|---|
| `Words.PopCountMono` | src/header_space/array.c:35-39 | counting bits is strictly monotone: a covered word with the same count is the same word, so equal x counts mean equal x positions |
| `Masks.PadFor` | src/header_space/array.c:43-51 | the padding of the last word consists of whole positions, whatever the header length |
| `Masks.PadBytes` | src/header_space/array.c:43-51 | byte b of the array is padding if and only if it lies beyond the 2 * len bytes of the header |
| `Masks.InIsInclusion` | src/header_space/array.c:154-159 | for masks without z, word-wise coverage holds if and only if one set of headers includes the other |
| `Masks.InMeet` | src/header_space/array.c:316-324 | a header lies in the word-wise AND of two masks if and only if it lies in both |
| `Arrays.IsSub` | src/header_space/array.c:154-159 | answers true exactly when every header of b lies in a |
| `Arrays.Isect` | src/header_space/array.c:316-324 | reports success exactly when some header lies in both masks, and then leaves their intersection; res may be one of the inputs |
| `Arrays.CountMisses` | src/header_space/array.c:161-182 | the counting loop stops early, so a total above one is only a lower bound; totals of zero and one are exact and come with the missing bits |
| `Arrays.OneBitSubtract` | src/header_space/array.c:161-182 | b changes in place if and only if exactly one of its bits lies outside a, and then becomes the mask of the difference |
| `Arrays.SubtractBitIsDifference` | src/header_space/array.c:161-182 | when a misses one bit of b, that mask has exactly the headers of b outside a |
| `Arrays.Cmpl` | src/header_space/array.c:282-300 | the masks together have exactly the headers outside a, one mask for every bit that a does not allow |
| `Arrays.Diff` | src/header_space/array.c:302-314 | filtering the complement in place with a leaves exactly the headers of a outside b |
| `Combine.MergeIsConsensus` | src/header_space/array.c:184-239 | two masks that conflict at one position: the merged mask lies in their union and in neither of them |
| `Combine.Scan` | src/header_space/array.c:184-225 | what the word loop finds out: coverage both ways, the number of conflicts up to one, and the merged mask; an early stop means that neither mask covers the other |
| `Combine.ArrayCombine` | src/header_space/array.c:184-239 | with or without a merge mask, the masks left have the union of the two inputs and none of them covers another; without one, b goes exactly when a covers it, and a exactly when b strictly covers it |
| `HeaderLists.ElemFree` | src/header_space/hs.c:80-89 | swap-with-last deletion keeps every other element |
| `HeaderLists.CompactElem` | src/header_space/hs.c:138-161 | the inner loop of the nested swap-delete loops computes one round of VecCompacted: later elements are dropped or the element itself, every dropped mask stays covered, and it terminates |
| `HeaderLists.VecCompact` | src/header_space/hs.c:138-161 | the swap-delete loops terminate and compute VecCompacted, about which VecCompactedFacts speaks |
| `HeaderLists.VecCompactedFacts` | src/header_space/hs.c:138-161 | what the loops compute: every element of the input is covered by one that is left, and no mask left covers another |
| `Compaction.CompactedUnion` | src/header_space/hs.c:138-161 | a compacted diff list has the union of the original one |
| `Compaction.CompactTerm` | src/header_space/hs.c:254-273 | the loop that absorbs one-bit diffs computes CompactedTerm, about which CompactedTermMisses and DoomedIsFreed speak; the result keeps exactly the headers of the element |
| `Compaction.CompactedTermRemains` | src/header_space/hs.c:254-273 | compacting one element keeps exactly its headers; it is given up only when its diffs cover it |
| `Compaction.CompactTerms` | src/header_space/hs.c:254-273 | the first loop of hs_compact neither loses nor gains a header |
| `Absorptions.CompactedTermMisses` | src/header_space/hs.c:254-273 | every diff that is left misses at least two bits of the mask of the element as it was, and none covers another: no diff is skipped |
| `Absorptions.DoomedIsFreed` | src/header_space/hs.c:258-272 | an element is freed if one of its diffs covers it, or two of them leave out the two values of one position |
| `Absorptions.CompactedTermsAre` | src/header_space/hs.c:254-273 | the first loop leaves exactly the compacted elements that are not freed, whatever moves during the deletions |
| `Absorptions.DoomedListIsFreed` | src/header_space/hs.c:254-277 | a list of such elements becomes the empty list |
| `Absorptions.CompactedListMisses` | src/header_space/hs.c:254-277 | every element that hs_compact leaves is what compaction makes of an element of the list, and its diffs miss at least two bits of that element |
| `Absorptions.FirstStays` | src/header_space/hs.c:138-161 | of two elements with the same mask the first one stays |
| `Compaction.Compact` | src/header_space/hs.c:254-277 | computes CompactedList; never adds a header, and keeps all of them when one set D is what every element subtracts inside its mask; no mask left covers another |
| `Compaction.CompactLossless` | src/header_space/hs.c:254-277 | hs_compact keeps all headers only if, after the first loop, every header of an element whose mask lies strictly inside another one also lies in an element with a maximal mask; if no two elements have the same mask, if and only if |
| `Compaction.NestedIsLost` | src/header_space/hs.c:275 | two elements, the inner mask equal to a diff of the outer one: the last vec_compact drops the inner element and a header is lost |
| `Intersection.VecDiff` | src/header_space/hs.c:71-77 | inside the intersection, the clipped diffs have the union of both diff lists |
| `Intersection.TermIsect` | src/header_space/hs.c:92-107 | the intersection of two elements is exact and its diffs lie inside it |
| `Intersection.VecIsect` | src/header_space/hs.c:92-107 | the intersection of two lists has exactly the headers of both; diffs end up inside their elements |
| `Intersection.SubtractMask` | src/header_space/hs.c:240-247 | subtracting a mask adds, inside every element, exactly its headers to the diffs |
| `Complement.CmplTerms` | src/header_space/hs.c:303-347 | the loop computes the complement of the residue: it starts over whenever the elements so far cover everything |
| `Complement.DiffCmplIsSound` | src/header_space/hs.c:303-347 | on a diff list, as hs_comp_diff calls it, no header outside the diffs is missing from the complement |
| `Complement.SegmentsExactIff` | src/header_space/hs.c:314-347 | what the loop computes on the list it runs on is the exact complement if and only if no proper prefix covers the whole space or the residue covers it too; with an all-x mask, if and only if the list covers everything |
| `Complement.HsCmplExactIff` | src/header_space/hs.c:303-347 | hs_cmpl on its own input, compaction included: exact if and only if the list is empty, or compaction leaves something and either the compacted list has an all-x mask and the input covers everything, or compaction loses nothing and no proper prefix covers the whole space, or the residue covers it |
| `Complement.WholeMinusOne` | src/header_space/hs.c:311-327 | the all-x element with one diff: the complement is right if and only if the diff misses exactly one bit, so that compaction absorbs it |
| `Complement.MinusList` | src/header_space/hs.c:414-423 | hs_minus for any two lists: never a header that the left list has not or that hs_cmpl leaves out, and exactly those when the left list has no diffs |
| `Complement.CompDiff` | src/header_space/hs.c:279-301 | leaves no diffs; the result is the union of the flattened elements |
| `Complement.FlatKeeps` | src/header_space/hs.c:279-301 | flattening loses no header |
| `Complement.FlatExactIff` | src/header_space/hs.c:279-347 | flattening an element is exact if and only if no proper prefix of its diffs covers the whole space, or one diff does, or the residue still covers the element |
| `Complement.InsideNeverCovers` | src/header_space/hs.c:279-301 | diffs that leave out one header of the whole space never trigger the restart |
| `Complement.PlainNonempty` | src/header_space/HeaderSpace.cpp:330-343 | a non-empty list without diffs has a header, so after flattening "no elements" decides emptiness |
| `HeaderChangers.ArrayRewrite` | src/header_space/array.c:340-351 | rewrites the array in place and returns the number of its x positions that count |
| `HeaderChangers.RewriteIsBlend` | src/header_space/array.c:340-351 | the bit formula takes exactly the set positions from the rewrite mask and the others from the array |
| `HeaderChangers.TransferIsChanger` | src/header_space/HeaderSpace.cpp:410-453 | the masks built from a transfer mask fit together: x keeps a position, 0 and 1 set it, the inverse frees what is set |
| `HeaderChangers.TransferSets` | src/header_space/HeaderSpace.cpp:410-453 | applied to a header, the changer of a transfer mask gives the value of the mask where it is 0 or 1 and keeps the header elsewhere |
| `HeaderChangers.ComposeIsChanger` | src/header_space/HeaderSpace.cpp:589-625 | a composition is again a changer, padding included |
| `HeaderChangers.ComposeRewrites` | src/header_space/HeaderSpace.cpp:589-625 | on every mask, a composition rewrites like the left changer followed by the right one |
| `HeaderChangers.ComposeApplies` | src/header_space/HeaderSpace.cpp:589-625 | on every header, a composition applies the left changer and then the right one |
| `Rewriting.RewriteDiffs` | src/header_space/hs.c:425-440 | the loop that drops diffs by swapping leaves exactly the rewrites of those that pass the x-count test |
| `Rewriting.SurvivesIff` | src/header_space/hs.c:431-435 | a diff inside its element passes the x-count test if and only if it covers the element at every set position |
| `Rewriting.ImageKept` | src/header_space/hs.c:425-440 | the rewritten form of every header is in the result |
| `Rewriting.ImageExact` | src/header_space/hs.c:425-440 | when at most one diff of an element is dropped, every header of the result is the rewritten form of a header of the element |
| `Rewriting.ImageOfSurvivors` | src/header_space/hs.c:425-440 | in every case the result is exactly the image of the element without its dropped diffs |
| `Rewriting.TwoDroppedGain` | src/header_space/hs.c:425-440 | an input with two dropped diffs: the element is empty, its rewrite is not |
| `Rewriting.PreimageExact` | src/header_space/HeaderSpace.cpp:636-643 | for elements inside the image of the changer, rewriting with the inverse gives the exact preimage |
| `Rewriting.PreimageKept` | src/header_space/hs.c:425-440 | for any element, rewriting with the inverse misses no header that the changer maps into the element |
| `Rewriting.InsideImageFixed` | src/header_space/HeaderSpace.cpp:627-643 | inside the image, applying the changer after its inverse is the identity |
| `HeaderSpaces.HeaderSpace.Diff` | src/header_space/hs.c:240-247 | subtracting a mask changes only diffs and removes exactly the headers of the mask from every element |
| `HeaderSpaces.HeaderSpace.Compact` | src/header_space/hs.c:254-277 | hs_compact in place: no header is gained, none is lost under the common-set condition |
| `HeaderSpaces.HeaderSpace.CompDiff` | src/header_space/hs.c:279-301 | hs_comp_diff in place: no diffs are left, and the headers are those of the flattened elements |
| `HeaderSpaces.HeaderSpace.Isect` | src/header_space/hs.c:350-355 | the intersection in place is exact |
| `HeaderSpaces.HeaderSpace.Sum` | src/header_space/HeaderSpace.cpp:266-269 | += is the union |
| `HeaderSpaces.HeaderSpace.Cmpl` | src/header_space/HeaderSpace.cpp:260-264 | ~ computes what hs_cmpl computes on the compacted list |
| `HeaderSpaces.HeaderSpace.SubtractPlain` | src/header_space/HeaderSpace.cpp:284-297 | -= of a header space without diffs removes exactly its headers |
| `HeaderSpaces.HeaderSpace.Subtract` | src/header_space/HeaderSpace.cpp:284-297 | -= for any two header spaces: a diff for every mask of a right operand without diffs, the intersection with hs_cmpl otherwise |
| `HeaderSpaces.HeaderSpace.Empty` | src/header_space/HeaderSpace.cpp:330-343 | empty() compacts first when there are diffs, and leaves exactly the compacted list; true on every list whose elements are visibly covered by their diffs; never wrongly true, and without diffs true if and only if there is no header |
| `HeaderSpaces.HeaderSpace.ComputeDifference` | src/header_space/HeaderSpace.cpp:324-328 | computeDifference() leaves no diffs and flattens the compacted elements |
| `HeaderSpaces.Included` | src/header_space/HeaderSpace.cpp:242-258 | <= answers true if and only if every element of the difference, compacted, vanishes when flattened (VanishesIff says when); without diffs it is never wrongly true and recognises every inclusion in a set that is not the whole space; if only the right operand has diffs it answers inclusion in what hs_cmpl leaves out |
| `HeaderSpaces.VanishesIff` | src/header_space/hs.c:279-347 | flattening an element leaves nothing if and only if one of its diffs is all x, or the residue of the diffs still covers the element |
| `HeaderSpaces.Equal` | src/header_space/HeaderSpace.cpp:219-232 | the same for == |
| `HeaderSpaces.WholeNotRecognised` | src/header_space/hs.c:338 | six masks that cover the whole space: compaction leaves their diffs alone, flattening keeps a header, and <= and == answer false |
| `NetworkSpaces.PortsAre` | src/NetworkSpace.hpp:6-13 | port 0 is no port, port 0xFFFFFFFF listens to every port but these two, any other port to itself |
| `NetworkSpaces.And` | src/NetworkSpace.cpp:159-176 | the intersection of packets, ports included; disjoint ports give no header |
| `NetworkSpaces.Minus` | src/NetworkSpace.cpp:139-143 | -= for any right operand: the headers of the left operand outside what -= of header spaces takes, whatever the ports |
| `NetworkSpaces.MinusExactIff` | src/NetworkSpace.cpp:139-143 | that is the difference of packets if and only if the right operand listens to all ports of the left one or they share no header |
| `NetworkSpaces.Empty` | src/header_space/HeaderSpace.cpp:330-343 | on any list: true exactly when there is no port or compaction leaves no element, so never wrongly; exact without diffs; otherwise the compacted list is left, which is not empty; on a domain of at most one element compaction keeps the packets |
| `NetworkSpaces.NonemptyHas` | src/NetworkSpace.hpp:61-63 | a domain without diffs in which empty() has found something has a packet |
| `NetworkSpaces.PortTransferKeeps` | src/NetworkSpace.cpp:205-219 | identity and port transfers leave every header as it is |
| `NetworkSpaces.Apply` | src/NetworkSpace.cpp:236-245 | apply: every packet in the form in which it leaves, and no other packet where each element drops at most one of its diffs |
| `NetworkSpaces.Inverse` | src/NetworkSpace.cpp:247-254 | inverse: no packet that the transfer maps into the domain is missing, and there is no other if the domain lies inside the image of the transfer; ports are ignored |
| `NetworkSpaces.ComposedInTurn` | src/NetworkSpace.cpp:221-234 | a composition sends a packet like the left transfer followed by the right one if and only if the right one sets a port or the left one leaves the port of the packet as it is |
| `Tables.UpperRules` | src/network/Switch.cpp:78-89 | of a table in descending order, exactly the rules with a greater priority |
| `Tables.LowerRules` | src/network/Switch.cpp:91-102 | exactly the rules with a smaller priority |
| `Tables.InsertRule` | src/network/Switch.cpp:47-55 | the rule gets its place; the table stays in descending order of priority and, within a priority, of number |
| `Tables.EffectiveIsFirstMatch` | src/network/DependencyGraph.cpp:372-378 | without overlaps of equal priority, a packet is left to a rule by the rules above it if and only if the rule is its first match |
| `Tables.JoinLower` | src/network/DependencyGraph.cpp:225-254 | when a rule joins a table, a lower rule loses exactly what the new rule takes |
| `Tables.SomeLower` | src/network/DependencyGraph.cpp:256-289 | when a rule leaves a table that matches everything, each of its packets falls to a lower rule |
| `Edges.EdgeDomain` | src/network/DependencyGraph.cpp:20-38 | the domain computed for an edge has exactly the images of the source rule that lie in the effective domain of the destination; if it is not found empty, compaction has left an element of it |
| `Edges.PairCarries` | src/network/DependencyGraph.cpp:209-289 | sound and complete edges: their union is exactly what flows from src to dst |
| `EdgeInstallers.EdgeInstaller.AddEdge` | src/network/DependencyGraph.cpp:20-38 | adds an exact edge whose domain is not found empty, or nothing when nothing flows |
| `EdgeInstallers.EdgeInstaller.UpdateEdge` | src/network/DependencyGraph.cpp:40-51 | the edge becomes exact, with a domain that is not found empty, or is remembered for removal when nothing flows |
| `EdgeInstallers.EdgeInstaller.FindEdge` | src/network/Graph.hpp:180-192 | finds the oldest edge between two vertices; none is found only if there is none |
| `EdgeInstallers.EdgeInstaller.DeleteOutEdges` | src/network/DependencyGraph.cpp:62-73 | exactly the edges out of the vertex go |
| `EdgeInstallers.EdgeInstaller.DeleteInEdges` | src/network/DependencyGraph.cpp:75-84 | exactly the edges into the vertex go |
| `EdgeInstallers.EdgeInstaller.ClearEmptyEdges` | src/network/DependencyGraph.cpp:86-93 | exactly the remembered edges go |
| `EdgeMoves.MoveEdge` | src/network/DependencyGraph.cpp:243-250 | one in-edge of the lower rule: if empty() finds something in what it shares with the new rule, the edges to the lower and to the new rule carry all they should, at most one of them new; otherwise nothing changes and they share nothing |
| `EdgeMoves.MoveEdges` | src/network/DependencyGraph.cpp:243-250 | the walk over the in-edges of a lower rule, which grow and shrink meanwhile: edges stay sound, all pairs stay served, the new rule gets all it takes from the lower one, and every new edge is the copy of one old in-edge, no two of the same |
| `EdgeReturns.ReturnEdge` | src/network/DependencyGraph.cpp:270-283 | one in-edge of the leaving rule: if the same source has edges into the lower rule, the oldest of them becomes exact or is found empty and no edge is added; otherwise one exact edge is added, or none when nothing flows |
| `EdgeReturns.ReturnEdges` | src/network/DependencyGraph.cpp:270-283 | the walk over the in-edges of the leaving rule hands all of its packets back to the lower rule and loses no flow; a pair of rules gets a new edge only if it had none, and only one |
| `EdgeReturns.NoMoreEdges` | src/network/DependencyGraph.cpp:270-283 | after a rule has been deleted no pair of rules has more edges than before, unless it had none and has one now |
| `InfluenceGraphs.Influence` | src/network/DependencyGraph.cpp:225-231 | the influence of one rule on another is the set of packets that both match; none is recorded if and only if they share nothing |
| `InfluenceGraphs.UpperInfluences` | src/network/DependencyGraph.cpp:225-231 | afterwards every higher rule that shares a packet with the new rule has its influence |
| `InfluenceGraphs.EffectiveDomain` | src/network/DependencyGraph.cpp:372-378 | subtracting the influences from the rule's domain leaves exactly the packets that no higher rule matches |
| `RuleChanges.LowersCover` | src/network/DependencyGraph.cpp:235-252 | all that a new rule takes comes from rules below it |
| `RuleJoins.HandOver` | src/network/DependencyGraph.cpp:235-252 | one lower rule: its domain shrinks to its effective domain in the new table, and the edges follow |
| `RuleJoins.HandOverAll` | src/network/DependencyGraph.cpp:235-252 | taking edges only from lower rules gives the new rule all its in-edges and leaves every rule of the table right |
| `RuleLeaves.TakeBack` | src/network/DependencyGraph.cpp:263-283 | one influenced rule: it is right for the table without the leaving rule, edges included, and no pair of rules that had an edge gets another one |
| `RuleLeaves.TakeBackAll` | src/network/DependencyGraph.cpp:256-283 | handing edges back along the influences leaves every remaining rule right |
| `Topologies.FeedLeaves` | src/network/DependencyGraph.cpp:306-351 | a rule sends its packets to a registered table other than its own or to a sink; which one, and with which port, is said by Forwarding |
| `GraphStates.AddEdges` | src/network/DependencyGraph.cpp:364-370 | edges to all destinations: what flows to them is carried, each destination gets at most one new edge, other edges stay |
| `RuleUpdates.AddInEdges` | src/network/DependencyGraph.cpp:209-254 | influences, domains and in-edges of a new rule: every pair is served again |
| `RuleUpdates.InstallRule` | src/network/DependencyGraph.cpp:101-107 | a rule is added: the graph invariant holds for the table with the rule; the new edges are one for each rule it feeds and one copy for each in-edge of a lower rule |
| `RuleUpdates.UninstallRule` | src/network/DependencyGraph.cpp:109-116 | a rule is deleted: the graph invariant holds for the table without it, the other vertices keep their rules, and a pair of rules gets a new edge only if it had none, and only one |
| `TopologyUpdates.SourceRules` | src/network/Network.cpp:340-354 | exactly the rules that send packets to a port, each once |
| `TopologyUpdates.Connect` | src/network/DependencyGraph.cpp:118-143 | one direction of a link: exactly the edges into the port's sink and out of the peer's source go, and each sender gets at most one new edge to each rule |
| `TopologyUpdates.LinkPorts` | src/network/DependencyGraph.cpp:118-143 | both directions: the graph invariant holds for the linked topology; edges into the two sinks and out of the two sources go, new ones come from senders to the two ports alone |
| `TopologyUpdates.InstallTable` | src/Detector.cpp:75-87 | a new table with its miss rule, and for a front table its ports: the graph invariant holds; new edges come from the miss rule and the sources alone, at most one for a pair |
| `DependencyGraphs.DependencyGraph.constructor` | src/Detector.cpp:56-68 | an empty graph with the two special sinks satisfies the invariant |
| `DependencyGraphs.DependencyGraph.AddRule` | src/network/DependencyGraph.cpp:101-107 | keeps the invariant; exactly this rule joins its table; the new edges are one for each rule it feeds and one copy for each in-edge of a lower rule |
| `DependencyGraphs.DependencyGraph.DeleteRule` | src/network/DependencyGraph.cpp:109-116 | keeps the invariant; exactly this rule leaves; a pair of rules gets a new edge only if it had none, and only one |
| `DependencyGraphs.DependencyGraph.AddTable` | src/Detector.cpp:75-87 | keeps the invariant; table and ports are added; new edges come from the miss rule and the sources alone |
| `DependencyGraphs.DependencyGraph.AddLink` | src/network/DependencyGraph.cpp:118-143 | keeps the invariant; the two ports are linked both ways; which edges go and between which rules new ones come |
| `DependencyGraphs.DomainsAreFirstMatches` | src/network/DependencyGraph.cpp:225-283 | in every reachable state, a packet lies in a rule's effective domain if and only if the rule is its highest-priority match (OpenFlow Switch Specification 1.3, section 5.3) |
| `DependencyGraphs.EdgesForward` | src/network/DependencyGraph.cpp:209-289 | in every reachable state, the edges from a rule to a rule of the table it feeds carry exactly the images of its packets whose first match is that rule |
| `DependencyGraphs.EdgesDeliver` | src/network/DependencyGraph.cpp:306-343 | the edges to a sink carry exactly the images that the sink accepts |
| `DependencyGraphs.EdgesFollowFeeds` | src/network/DependencyGraph.cpp:291-370 | there are no other edges |
| `Forwarding.LinkedPortForwards` | src/network/DependencyGraph.cpp:306-316 | in every reachable state, the edges from a rule that sends to a linked port into a rule of the front table on the other side carry exactly the packets with the number of the port there and a header that the first rule rewrites, and whose highest-priority match is the second one |
| `Forwarding.UnlinkedPortDelivers` | src/network/DependencyGraph.cpp:317-321 | a rule that sends to a port without a link: exactly its rewritten packets, with the port that the transfer sets, reach the sink of this port |
| `Forwarding.TableForwards` | src/network/DependencyGraph.cpp:345-351 | a rule that sends to a table: exactly its rewritten packets enter the rules of the table, each at its highest-priority match |
| `Forwarding.SpecialDelivers` | src/network/DependencyGraph.cpp:324-333 | the same for the drop and controller sinks |
| `Forwarding.SourceForwards` | src/network/DependencyGraph.cpp:209-220 | the source rule of a port without a link: exactly its packets, unchanged, enter the front table of the port |
| `Forwarding.EdgesLead` | src/network/DependencyGraph.cpp:291-370 | every edge leads where the action of its rule sends packets, with the transfer of the action, whose port is replaced by the number of the peer over a link |
| `Forwarding.EdgesNonempty` | src/network/DependencyGraph.cpp:20-51 | empty() has found something in the domain of every edge, so an edge without diffs carries a packet |
| `GraphFlows.EdgesApart` | src/network/DependencyGraph.cpp:209-289 | two edges out of one rule into different rules share no header |
| `GraphFlows.GraphIsFlowGraph` | src/network/DependencyGraph.cpp:209-289 | every reachable dependency graph meets what the path forest needs of its edges |
| `GraphFlows.GraphPortsFit` | src/network/DependencyGraph.cpp:20-51 | in every reachable dependency graph an edge that carries anything has a port that its destination accepts |
| `Forests.DomainIsFlow` | src/flow_predictor/FlowPredictor.cpp:277-302 | a node's domain has exactly the headers that, pushed along its edges, stay inside every edge domain and rule and end in the sink's domain |
| `Forests.NodesNonempty` | src/flow_predictor/FlowPredictor.cpp:291 | no node has an empty domain: compaction has left an element, and without diffs some header flows from the node to its root |
| `Forests.RootTransferIsForm` | src/flow_predictor/PathScan.cpp:112-141 | root_transfer maps every header to its form at the sink and sets the sink's port |
| `Forests.LiveNodesApart` | src/flow_predictor/FlowPredictor.cpp:224-334 | two live nodes of one rule that share a header are the same node |
| `Forests.WalkEndsAtRoot` | src/flow_predictor/PathScan.cpp:89-110 | ids fall towards the root, so the walk along parents ends at the sink of the tree |
| `ForestGrowth.Preimage` | src/flow_predictor/FlowPredictor.cpp:277-302 | the domain of a new node is exactly the headers of the rule that pass through the edge into the parent, and compaction has left an element; it is called empty only if there are none, and without diffs if and only if |
| `ForestGrowth.RootAdded` | src/flow_predictor/PathScan.cpp:112-123 | adding a root keeps the forest invariant |
| `ForestGrowth.ChildAdded` | src/flow_predictor/PathScan.cpp:125-141 | adding a child keeps the forest invariant: domains, root transfers and all lists |
| `ForestGrowth.IsExistingChild` | src/flow_predictor/FlowPredictor.cpp:264-275 | finds a child of the rule if and only if there is one |
| `ForestGrowth.AddChild` | src/flow_predictor/FlowPredictor.cpp:277-302 | adds one child for the edge exactly when the parent has no child of the rule and, without diffs, a header passes; with diffs, a child that is added has a domain in which empty() finds something, and one that is not has no header |
| `SubtreeGrowth.AddChildren` | src/flow_predictor/FlowPredictor.cpp:314-325 | the loop over the in-edges of a node: afterwards each of them has a child or an empty preimage, each child grew along the oldest of parallel edges that has a preimage, and the new work is bounded by the backward walks from the node |
| `SubtreeGrowth.AddSubtree` | src/flow_predictor/FlowPredictor.cpp:304-334 | terminates on an acyclic graph; every new node that is no source has one child for each source rule with a preimage, grown along the oldest edge that has one, and every new source has one path; older nodes stay |
| `SubtreeGrowth.PathAdded` | src/flow_predictor/PathScan.cpp:196-206 | starting a path at a source without one keeps the forest invariant |
| `SubtreeRemoval.UnlinkOne` | src/flow_predictor/PathScan.cpp:143-163 | ending a node takes it out of the lists of its rule and its parent and of no other |
| `SubtreeRemoval.AllVisited` | src/flow_predictor/PathScan.cpp:66-87 | when the queue is empty, exactly the live nodes of the subtree have been visited |
| `SubtreeRemoval.UnlinkedLists` | src/flow_predictor/FlowPredictor.cpp:336-354 | afterwards the parent, child and per-rule lists of the remaining nodes agree |
| `SubtreeRemoval.DeleteSubtree` | src/flow_predictor/FlowPredictor.cpp:336-354 | visits every node of the subtree exactly once although nodes are unlinked during the walk; paths of its sources end, those that had started are queried |
| `PathCounters.ProcessPathQuery` | src/flow_predictor/FlowPredictor.cpp:194-217 | a reading of a path adds the difference to exactly the nodes above its source and to their rules; node and rule counters remain sums over paths and nodes |
| `PathCounters.ThroughUpdated` | src/flow_predictor/FlowPredictor.cpp:194-217 | a new last reading changes the sum of a node by the difference if and only if the path goes through it |
| `PathCounters.CountOne` | src/flow_predictor/PathScan.cpp:54-64 | counting one node of the chain keeps the counters of rules equal to the sums over their nodes |
| `PathCounters.CountersKept` | src/flow_predictor/FlowPredictor.cpp:224-334 | counters remain right while the forest grows |
| `PathCounters.CountersKeptUnlinked` | src/flow_predictor/FlowPredictor.cpp:246-262 | counters remain right when subtrees are unlinked |
| `PathCounters.CounterIsTotal` | src/flow_predictor/FlowPredictor.cpp:194-217 | a node's counter is the sum of the last readings of its paths as a number, as long as that is below 2^64 |
| `PathCounters.WordArithmetic` | src/Types.hpp:46-50 | sums and differences of counters are those of numbers modulo 2^64 |
| `FlowPredictors.AddBelow` | src/flow_predictor/FlowPredictor.cpp:224-244 | one node of the edge's destination gets its child and the whole subtree below it; no other node changes |
| `FlowPredictors.AddSubtrees` | src/flow_predictor/FlowPredictor.cpp:224-244 | all nodes of the edge's destination get theirs, at most one child each and no other node any; a sink without a node gets a root; below the new children each node grew along the oldest edge with a preimage |
| `FlowPredictors.DeleteSubtrees` | src/flow_predictor/FlowPredictor.cpp:246-262 | exactly the nodes below a node of src added along an edge into dst die |
| `FlowPredictors.FlowPredictor.constructor` | src/flow_predictor/FlowPredictor.cpp:18-26 | an empty forest over an empty graph |
| `FlowPredictors.FlowPredictor.AddEdge` | src/flow_predictor/FlowPredictor.cpp:52-80 | keeps the invariant (trees, lists, counters, edges that have been added), counts nothing new, leaves nothing missing below new nodes, gives children of the edge's source to nodes of its destination alone, and grows each new node along this edge or the oldest edge with a preimage |
| `FlowPredictors.PathsNonempty` | src/flow_predictor/FlowPredictor.cpp:277-302 | no path of a live source has an empty domain |
| `FlowPredictors.FlowPredictor.RemoveEdge` | src/flow_predictor/FlowPredictor.cpp:52-80 | keeps the invariant for the graph without the edges from src to dst; says which nodes die and which paths are queried or discarded |
| `FlowPredictors.FlowPredictor.PassPath` | src/flow_predictor/FlowPredictor.cpp:194-217 | keeps the invariant; exactly the path's nodes count the difference |
| `FlowPredictors.NoDoubleCounting` | src/flow_predictor/FlowPredictor.cpp:224-334 | in every reachable forest, no header flows to roots along two live nodes of one rule |
| `Coverings.FlowIsCovered` | src/flow_predictor/FlowPredictor.cpp:224-334 | every header that flows along edges to a sink lies in the domain of a live node of its rule, in the tree of that sink, when the live nodes grew along the widest of parallel edges |
| `Coverings.CoveredIff` | src/flow_predictor/FlowPredictor.cpp:264-325 | once all edges have been added, no header that flows to a sink is missed if and only if every live node grew along the widest of its parallel edges |
| `FlowPredictors.EveryFlowIsCovered` | src/flow_predictor/FlowPredictor.cpp:52-80 | in every state of the predictor in which all edges of the graph have been added, the same; in particular nothing is missed when parallel edges carry the same headers |
| `SmallNetworks.MissedHeader` | src/flow_predictor/FlowPredictor.cpp:264-302 | from the constructor on: a narrow edge, then a parallel edge that carries everything; is_existing_child passes the second one over and its headers are missed |
| `Stats.SlotsAreNeeds` | src/flow_predictor/Stats.cpp:16-56 | the requests of a bucket are exactly what its queries need |
| `Stats.KindsAre` | src/flow_predictor/Stats.cpp:16-56 | a rule is asked for its own counter, a path for the counter at its source, a link for both of its ports |
| `Stats.IdsDiffer` | src/Types.hpp:29-40 | request ids are numbers modulo 2^32, and those given out within one round of the counter differ |
| `Stats.GetRequests` | src/flow_predictor/Stats.cpp:16-56 | one request with a new id for everything the queries need, each id expected by its query |
| `Stats.AnswerOk` | src/flow_predictor/Stats.cpp:58-122 | a reply goes to the query that expects it; everything else stays answered or awaited |
| `Stats.FullIsAnswered` | src/flow_predictor/Stats.cpp:204-218 | when no id is expected any more, every query has all its replies |
| `Stats.JustSent` | src/flow_predictor/Stats.cpp:180-196 | a bucket that has sent its requests awaits everything its queries need |
| `StatsManagers.StatsManager.constructor` | src/flow_predictor/Stats.cpp:124-128 | one open, empty bucket |
| `StatsManagers.StatsManager.AddQuery` | src/flow_predictor/Stats.cpp:142-178 | one more query in the open bucket; for a path its first query is remembered |
| `StatsManagers.StatsManager.DiscardPathRequest` | src/flow_predictor/Stats.cpp:159-170 | exactly the remembered query leaves the open bucket |
| `StatsManagers.StatsManager.GetNewRequests` | src/flow_predictor/Stats.cpp:180-196 | the open bucket is sent and a new one opens; an empty one is replaced |
| `StatsManagers.StatsManager.PassRequest` | src/flow_predictor/Stats.cpp:198-202 | the reply reaches the bucket of its time; the assertions on buckets and requests are its requirements |
| `StatsManagers.StatsManager.PopStatsList` | src/flow_predictor/Stats.cpp:204-218 | the oldest bucket leaves if and only if no reply to it is missing |
| `Protocols.ExpectedIsPending` | src/Detector.cpp:259-272 | an expected id is pending with the time of its bucket, so no id is expected twice |
| `Protocols.Replied` | src/Detector.cpp:215-236 | a reply to a pending request finds its bucket and its id there: the assertions cannot fail, and the protocol invariant is kept |
| `Protocols.Sent` | src/Detector.cpp:259-272 | sending the open bucket keeps the protocol invariant |
| `Protocols.Popped` | src/flow_predictor/Stats.cpp:204-218 | removing a full oldest bucket keeps it too |
| `PathQueries.SubtreePaths` | src/flow_predictor/PathScan.cpp:66-87 | the walk below a node collects exactly the paths of the live sources of its subtree, each once |
| `Readings.CountedNext` | src/flow_predictor/FlowPredictor.cpp:194-217 | a reading at a later query of a path: the difference does not wrap around, and what has been counted is again the last true reading |
| `Readings.PassQuery` | src/flow_predictor/FlowPredictor.cpp:194-217 | one answered path query: the path moves to this reading on the forest, and true readings stay counted without wrap-around |
| `Readings.ProcessStatsList` | src/flow_predictor/FlowPredictor.cpp:157-192 | the list of a bucket on the forest: every path gets its last reading in the list, and if the readings are true and continue those before, no difference wraps around |
| `Readings.NodeCountsTruth` | src/flow_predictor/FlowPredictor.cpp:194-217 | a node counts the sum of the true readings of the paths through it, as long as that is below 2^64 |
| `Protocols.SaveRequests` | src/Detector.cpp:259-272 | all new requests become pending and the others stay |
| `Detectors.Detector.constructor` | src/Detector.cpp:56-68 | nothing is pending, nothing is asked for, and the forest is empty |
| `Detectors.Detector.QueryPath` | src/flow_predictor/FlowPredictor.cpp:356-361 | one query in the open bucket; the invariant is kept |
| `Detectors.Detector.DiscardPath` | src/flow_predictor/FlowPredictor.cpp:370-394 | the first recorded query of a path that was not installed leaves the open bucket; the invariant is kept |
| `Detectors.Detector.AddEdge` | src/flow_predictor/FlowPredictor.cpp:52-80 | the forest takes in a new edge at the time of the open bucket; protocol and readings stay right |
| `Detectors.Detector.RemoveEdge` | src/flow_predictor/FlowPredictor.cpp:52-80 | subtrees die; each of their paths is queried once more if it had started and its query is discarded otherwise |
| `Detectors.WithoutAllFacts` | src/flow_predictor/FlowPredictor.cpp:370-394 | after discarding, exactly the queries are left that are recorded for none of the discarded paths |
| `Detectors.Detector.EndPaths` | src/flow_predictor/FlowPredictor.cpp:370-394 | one query for each path that had started, no query for those discarded |
| `Detectors.Detector.PredictFlow` | src/flow_predictor/FlowPredictor.cpp:82-108 | one prediction, and one query for every path whose source lies below a live node of the rule, each path once |
| `Detectors.Detector.PrepareInstructions` | src/Detector.cpp:259-272 | the requests of the sent bucket join the pending ones, which are again exactly the expected ids of all buckets |
| `Detectors.Detector.PassReply` | src/Detector.cpp:215-236 | a reply to a pending request finds its bucket and its id there, whatever it carries |
| `Detectors.Detector.PopOldest` | src/flow_predictor/FlowPredictor.cpp:39-50 | the oldest bucket leaves if and only if it is complete, in order of time, and its paths are counted on the forest |
| `Detectors.Detector.AddStats` | src/Detector.cpp:215-257 | for any order and content of replies: a known reply is answered once, the oldest bucket leaves exactly when it is complete, and its paths get the readings they were asked for; predictions of the time of the reply are answered, which is the time of the bucket if and only if the bucket was incomplete before; while replies carry true counters nothing wraps around |
| `Detectors.CountersAreTrue` | src/flow_predictor/FlowPredictor.cpp:194-217 | in every state reached with true replies, every node counts the sum of the true readings of its paths, as long as that is below 2^64 |
| `OutOfTurn.AnsweredOutOfTurn` | src/flow_predictor/FlowPredictor.cpp:39-50 | three predictions at the times 0, 1 and 2, replies to 1, 0 and 2: the last reply makes bucket 1 leave and answers the prediction of time 2; that of time 1 is never answered |
| `OutOfTurn.RunOutOfTurn` | src/flow_predictor/FlowPredictor.cpp:39-50 | this run exists from the constructors on, in every network with an edge from a source to a sink |
| `SmallNetworks.OneLink` | src/flow_predictor/FlowPredictor.cpp:224-334 | such a network exists |
| `Interceptors.Merge` | src/flow_predictor/InterceptorManager.cpp:3-28 | the merged diff: what was to be added and is deleted is neither; no rule is listed twice |
| `Interceptors.MergeActsInTurn` | src/flow_predictor/InterceptorManager.cpp:3-28 | merging acts like applying both diffs in turn if and only if no rule that the first adds and the second deletes was there before |
| `Interceptors.MergeLosesDeletion` | src/flow_predictor/InterceptorManager.cpp:3-28 | an input for which it does not: a reused id stays on the switch |
| `Interceptors.InterceptorManager.constructor` | src/flow_predictor/InterceptorManager.cpp:37-50 | no interceptors and nothing pending |
| `Interceptors.InterceptorManager.CreateInterceptor` | src/flow_predictor/InterceptorManager.cpp:37-50 | a new interceptor under an id that was never used |
| `Interceptors.InterceptorManager.DeleteInterceptor` | src/flow_predictor/InterceptorManager.cpp:51-63 | exactly this interceptor is no longer recorded |
| `Interceptors.InterceptorManager.PopInterceptorDiff` | src/flow_predictor/InterceptorManager.cpp:65-70 | over every run, the switches hold exactly the recorded interceptors once they apply the popped diff |

## Left out

- `deleteLink` deletes only the oldest of several parallel edges (`DependencyGraph.cpp:53-60`), so the edge invariant does not survive it; `deleteSwitch` and the removal of source and sink rules are not modelled either.
- The queue of edge changes between graph and predictor (`EdgeDiff`, its `+=`, the `is_dependent` lists): cancelling a changed edge also erases its removal (`EdgeDiff.cpp:14-15`), so replaying a diff does not give the same edges. A changed edge reaches `FlowPredictor` as `RemoveEdge` followed by `AddEdge`.
- RuleLeaves.TakeBackAll: walks over the rules of the table instead of the live list of influences, which `delete_in_edges` changes while walking it (`DependencyGraph.cpp:263-283`); the order of influences is the order of the table.
- EdgeInstallers.EdgeInstaller.UpdateEdge: `empty_edges_` is a set, so marking an edge twice and entries of deleted edges are not modelled.
- Overlapping rules of equal priority, tables with several input ports, rules with several actions, group actions, IN_PORT and ALL outputs.
- HeaderChangers.ComposeRewrites: the constructor of `HeaderChanger` and `*=` go position by position through the words; the model does a word at a time.
- Compaction.CompactTerm: the merge mask of `vec_compact` is always NULL in the repository; `ArrayCombine` is proved with and without one.
- HeaderSpaces.Included: for a left operand with diffs the answer is stated by the prefixes of the compacted diffs alone, since compaction may then lose headers (`CompactLossless`).
- `hs_isect_arr`, `hs_potponed_diff_and_rewrite`, the string forms, and the allocation and copying of masks and vectors.
- Forests.LiveNodesApart: node domains are compared as sets of headers, because `Transfer::inverse` ignores ports (`NetworkSpace.cpp:247-254`).
- ForestGrowth.AddChild: of parallel edges from one rule only the first with a preimage gets a child, as in `is_existing_child`.
- FlowPredictors.FlowPredictor.AddEdge: the graph is a map that grows by `SetEdges` before its new edges are added, and loses all edges between two rules by `RemoveEdge`; an edge whose domain changes counts as removed and added, as in the edge diff, so no node refers to an edge that is different now.
- The forest is a value that the methods of `FlowPredictor` replace; descriptors and list positions (`NodePtr`, `DomainPathPtr`) are ids, so aliasing and the order of node lists across rules are not captured.
- Node reclamation (`deleted_nodes_`, `deleteNode`, `clearDeletedNodes`): nodes are never freed. Node multipliers and the copies of source and sink domains in paths.
- Readings.ProcessStatsList: rule queries do not occur (their processing asserts false), link queries do nothing.
- StatsManagers.StatsManager.DiscardPathRequest: only the first recorded query of a path is erased and the record stays, as in the code, so later queries of the path remain; that the recorded query is still in the open bucket is a requirement, since the code erases through the stored iterator.
- StatsManagers.StatsManager.PopStatsList: a timeline that holds the open bucket alone is not popped; `Detector` proves that this does not happen.
- Compaction.CompactLossless: when two elements left by the first loop have the same mask, only the necessary direction is stated; which of the two stays depends on their order.
- Interceptors.InterceptorManager.CreateInterceptor: rules stand for their ids; priorities, domains and the message to the switch are not modelled.
- Grouping of replies (`create_replies`), the fields of port statistics, link statistics.
- Threads, queues and timing: each task of `Detector` is one atomic step, in order of arrival.
- Proxy, connection manager, sender, controller, message parsing and the pipeline handlers.
