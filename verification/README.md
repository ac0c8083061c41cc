# A verified model of the Frenetic NetKAT compiler

Frenetic compiles NetKAT policies to OpenFlow flow tables and installs them on
switches.  This project models its compilers and its update protocol in Dafny,
and proves that they do what they are for.

## What is modelled

**Decision diagrams.**  Forwarding decision diagrams are ordered, reduced trees of
field tests with sets of actions at the leaves (`Prefixes`, `Values`, `Actions`,
`Fdds`).  The order of the fields is a parameter: a field is written as its place
in the current order.  A value is written as its first bits, together with the word
of a mask, and `Values` ties this to the constants and masks of the source.
`Hashcons` and `DiagramStore` model how diagrams are stored: ids of hash-consed
nodes, which are equal exactly when the trees are equal as they are written.

**Local compiler.**  `Semantics` is the interpreter, the reference meaning of
policies.  `Sequencing`, `Stabilization` and `StarLoop` model composition and
iteration of diagrams; the loop for Star is shown to end for all diagrams.
`LocalCompiler` proves compilation correct, `FlowTables`, `TableCorrectness` and
`RowCoverage` table generation, and `EndToEnd` joins them.  `Duplicates` shows that a
table with `dedup` sends each packet once, and `SwitchTables` that a table is that of
one switch.

**Global compiler.**  Policies with links become policies with `Dup`, whose traces
record the packets on links (`Traces`, `NetworkPolicies`).  They are split into a
symbolic automaton (`Splitting`, `SplitCorrectness`, `SplitStates`, `Automata`),
which is minimised (`Minimization`), determinised by a powerset construction on
mutable tables (`Determinization`) and encoded in one diagram with a program
counter in a header field (`ProgramCounter`).  `NetworkRuns` says when the runs of
that diagram over a network are those of the automaton, and `GlobalCompiler` and
`GlobalCorrectness` follow a policy through all the steps, and `NetworkTables` down
to the flow tables of the switches.  `FieldUse` and
`StateFields` show that no step brings in a header field, so that the compiler
accepts every policy that leaves the program counter alone.

**Virtual compiler.**  The product of a virtual and a physical topology is a game:
the program moves away from consistency, the fabric has to restore it.
`ProductGraph` builds it with a worklist, `Pruning` removes what cannot be
repaired, `FabricSelection` chooses one move of the fabric wherever there is a
choice.

**Consistent update.**  `Switches` is the table of a switch under adds and deletes,
as section 4.6 of the OpenFlow Switch Specification 1.0.0 describes them.
`TableSwap` and `EdgeSwap` replace an edge table one message at a time.
`VersionedUpdate` is the update of all switches in two phases, as a state machine
in which switches handle their messages whenever they like, and `InFlight` follows
the packets that are on their way meanwhile.  `OldVersions` shows that an update can
always be finished and leaves nothing behind.  `Specialization` makes the tables of a
version of compiled ones.

**Dataflow.**  `DynGraph` is the graph of nodes that recompute their values when a
producer pushes.

## How to read the results

A diagram maps a packet to a set of actions; an action assigns fields and may name
an automaton state that goes on with the result (`K` in the source).  `Lookup` is
the leaf that a packet reaches.  A trace of a policy holds the packets at its
`Dup`s; `wire` is what the network does with such a packet.  `Accept` says that an
automaton takes a packet over a trace to a final packet, and `NetRun` that
switches which all run the compiled diagram do.

Some properties that one might expect of the code are false.  The model keeps the
code as it is, shows an input on which the property fails, and proves when it
holds:

* An address test with an empty mask (`0.0.0.0/0`) becomes a test of the sign bit,
  because addresses are sign-extended to 64 bits.  A test agrees with the
  interpreter if and only if its mask is not empty or all addresses of the field
  have one sign (`TestAgreesIff`); otherwise a policy can drop packets that it
  should pass (`EmptyMaskDropsAll`).  All theorems from policies to tables hold for
  every policy that has no empty mask on a field, or addresses of one sign there.
  `Naming` says how the addresses of a field are written as integers.
* `compare` on constants mixed with masks need not be an order, although the order of
  tests in a diagram rests on it (`MixedValuesAreNotOrdered`).  It is one if and only
  if no constant, 64-bit mask and shorter mask of the field clash
  (`OrderedIffNoClash`), and so wherever a field is written in one of the two ways
  (`OneKindIsOrdered`), as the source does.  Likewise `meet` depends on the order of
  its arguments exactly for a constant and a shorter mask that holds it
  (`MeetDependsOnOrderIff`).
* `compare` ignores the bits of a mask below its length, and `hash` does not.  So a
  test that is written in two ways can be stored under two ids (`HostBitsTwoIds`),
  and a node can stay whose branches test the same (`HostBitsExtraNode`).  The
  repository's tests have such masks, 192.168.0.1/24 and 192.168.0.5/24.  Ids tell
  tests apart if and only if no two stored nodes that compare equal have different
  hashes (`IdIsTestsIff`), and a caller can ensure this by clearing those bits
  (`TidyIdIsTests`).  The diagrams of all modules keep the words of their masks, so
  `CanonicalRestrict`, `CanonicalApply`, `CanonicalCond` and `CanonicalSeq` speak of
  branches that are equal as they are written, as `mk_branch` compares them, and
  `Settles` and `StarEnds` of sums that are; what a diagram does to packets does not
  depend on how masks are written (`SameTestsMeaning`).
* Table generation counts a dependency between fields as satisfied when any earlier
  path has tested it, and drops the row (`SeenDependencyDropsRow`).  The rows of a
  path match exactly its packets if and only if its pattern is valid, which
  `is_valid_pattern` can tell beforehand (`RowsExactIff`, `ValidIffNeedsNothing`).
  The table theorems hold for every packet that has a row for the path it takes
  (`HasRow`), and all packets have one if and only if all paths that packets take are
  valid (`HasRowIff`).  `LatePolicyDrops` is a policy where one is missing.
* The membership test on the fabric graph is meant to detect that no valid fabric
  exists, and never fails: `select` has added every ingress vertex by then, also one
  that pruning removed.  The code then returns a fabric that gets stuck
  (`PrunedIngress`).  A returned fabric never gets stuck if and only if the pruned
  graph holds all ingress vertices (`GenerateFabric`), and this is so exactly when
  there is such a fabric for each (`KeptIffRepairable`).
* In the encoded automaton the source state acts on every packet, not only on those
  that enter the network.  The encoding is exact if and only if starting over on
  the way adds nothing (`RunsExactIff`), and on one packet if and only if the
  source does nothing there that the packet's own state does not do
  (`LocalStepExactIff`).  Policies that start at the edge of the network meet this
  (`CompileGlobalExact`); `LeakyIsNotExact` is a policy that does not, and that the
  compiler accepts (`CompileLeaky`).
* The comment on `flowtable_diff` asks for tables sorted by descending priority.
  Where priorities repeat, the difference can hold a rule of the new table, which is
  then deleted (`DiffNeedsDescending`).  It is exact if and only if, with each old row
  that stays, the rows of its priority before it stay, in the same order
  (`DiffExactIff`); so it is for strictly descending priorities (`DiffExact`), as the
  controller assigns them (`PrioritizeRows`).
* `specialize_action` repeats what follows an action that is no output.  It sends what
  it was given, apart from the tag, if and only if all outputs come first
  (`SameSentIff`).  Compiled rows assign fields and then output, so with n assignments a
  packet is sent 2^n times, the first time unchanged (`AssignmentsRepeat`), and a policy
  survives exactly where it assigns nothing but the port (`CompiledSameIff`).
* The interface asks `join` for the least upper bound if one exists, and `join` misses
  some (`JoinMissesBound`); `JoinFindsIff` says when it finds one.
* An update is meant to handle each packet by one version all the way.  The old
  version is cleared without waiting for packets that carry its tag
  (`ClearDoesNotWait`), and those that come later miss (`LatePacketMisses`).  A packet
  finds the rules of its version on a switch if and only if the switch has not handled
  the delete by then (`StampedPacketIff`), and one version handles it all the way if
  this is so for each switch on the way (`OneVersionAllTheWay`).
* `attach` accepts any two nodes.  The graph stays acyclic, so that a push ends, if
  and only if the new edge closes no cycle (`AttachAcyclicIff`).
* `clear_cache` may be given any set of ids.  A diagram survives exactly when all
  nodes below it are in the set (`ClearKeepsIff`); the compiler passes such a set.

## Model

| member | source | states |
|---|---|---|
| Values.SubsetEqIsInclusion | lib/Frenetic_Fdd.ml:217-239 | On masks of 1 to 64 bits `subset_eq` holds exactly when every word of the first value is a word of the second. |
| Values.MeetIsIntersection | lib/Frenetic_Fdd.ml:241-267 | The non-tight `meet` contains exactly the words of both masks, and is again a mask. |
| Values.MeetNoneIffDisjoint | lib/Frenetic_Fdd.ml:241-267 | The non-tight `meet` is `None` exactly when no word is in both masks. |
| Values.TightMeet | lib/Frenetic_Fdd.ml:241-267 | With `tight`, `meet` gives the same result where the lengths of the masks differ by one bit at most, and else none. |
| Values.JoinIsLeastUpperBound | lib/Frenetic_Fdd.ml:269-302 | Any `join` of masks of at least 2 bits contains both arguments and lies in every mask that contains both. |
| Values.JoinFindsIff | lib/Frenetic_Fdd.ml:269-302 | `join` finds a result if and only if one mask lies in the other or both have the same length and agree up to their last bit; with `tight`, also only if the lengths differ by one bit at most. |
| Values.JoinIsTight | lib/Frenetic_Fdd.ml:269-302 | The property that the interface asks for with `tight`: whatever lies in a join lies in one of the arguments or is all of the join. It holds without `tight`, too. |
| Values.JoinMissesBound | lib/Frenetic_Fdd.ml:283-287 | The interface asks for the least upper bound if one exists: two words that have one, and for which `join` finds none. |
| Values.CompareIsTotalPreorder | lib/Frenetic_Fdd.ml:307-326 | On masks `compare` is total and transitive, is 0 exactly on masks with the same words, and puts each mask before every mask strictly above it. |
| Values.OrderedIffNoClash | lib/Frenetic_Fdd.ml:307-326 | `compare` is transitive on a set of constants and masks of 1 to 64 bits if and only if the set has no constant, 64-bit mask and shorter mask such that the shorter one comes before the 64-bit one, which is not greater than the constant. |
| Values.OneKindIsOrdered | lib/Frenetic_Fdd.ml:307-326 | So `compare` orders a field that is written with constants only or with masks only. `of_hv` writes each field in one of the two ways, so policies make no mixtures. |
| Values.MixedValuesAreNotOrdered | lib/Frenetic_Fdd.ml:307-326 | A mixture that policies do not make: a cycle of `compare` through a constant and two masks, and a `meet` that depends on the order of its arguments. |
| Values.MeetDependsOnOrderIff | lib/Frenetic_Fdd.ml:241-267 | Whether the non-tight `meet` finds a value depends on the order of its arguments if and only if one is a constant and the other a mask shorter than 64 bits that holds it. |
| Values.SubsetEqIsWithin | lib/Frenetic_Fdd.ml:217-239 | `subset_eq` on two constants, or on two masks of 1 to 64 bits, is inclusion of the bit prefixes that the diagrams test. |
| Values.CompareIsBefore | lib/Frenetic_Fdd.ml:307-326 | `compare` on two constants, or on two masks of 1 to 64 bits, is the order of the bit prefixes that the diagrams test, and is 0 exactly on values that test the same bits, however they are written. |
| Values.LogicalIsArithmetic | lib/Frenetic_OpenFlow.ml:50-53 | Logical and arithmetic right shifts by less than the width tell the same words apart. |
| Actions.Sum | lib/Frenetic_Fdd.ml:534-539 | The sum is the union, also where an argument is the zero. |
| Actions.Prod | lib/Frenetic_Fdd.ml:541-557 | The product is the set of all compositions, also through the shortcuts for zero and one. |
| Actions.RunMerge | lib/Frenetic_Fdd.ml:541-557 | A composed action does what its parts do one after the other. |
| Actions.DemodMeaning | lib/Frenetic_Fdd.ml:629-636 | `demod` changes nothing for a packet that already passes the test. |
| Fdds.MapRMeaning | lib/Frenetic_Vlr.ml:108-110 | `map_r` applies the function to the leaf that any packet reaches. |
| Fdds.RestrictMeaning | lib/Frenetic_Vlr.ml:112-124 | On a packet that passes all tests of the list the restricted diagram reaches the leaf of the whole one, when the list decides each test of its fields. |
| Fdds.RestrictRemoves | lib/Frenetic_Vlr.ml:112-124 | No test of a restricted field is left. |
| Fdds.CanonicalRestrict | lib/Frenetic_Vlr.ml:112-124 | Restriction keeps the order of tests and leaves no node whose branches are equal as they are written, which is what `mk_branch` compares. |
| Fdds.CanonicalApply | lib/Frenetic_Vlr.ml:126-150 | Sum and product of ordered diagrams are ordered, and no node has branches that are equal as they are written; where two masks test the same bits the word of the first stays. |
| Fdds.ApplyMeaning | lib/Frenetic_Vlr.ml:126-150 | Sum and product are computed pointwise, also where two masks of one field are nested. |
| Fdds.CondMeaning | lib/Frenetic_Vlr.ml:167-176 | `cond` is if-then-else on any diagrams, also when it has to go through sums and products. |
| Fdds.CanonicalCond | lib/Frenetic_Vlr.ml:167-176 | `cond` keeps diagrams ordered and leaves no node whose branches are equal as they are written. |
| Fdds.RestrictRun | lib/Frenetic_NetKAT_Compiler.ml:57-72 | Restricting a diagram by the assignments of an action gives what the diagram does after that action, for every packet. |
| Hashcons.GotInv | lib/Frenetic_Hashcons.ml:39-43 | `get` keeps the two tables inverse to each other with all ids below the counter and no stored value that a lookup of another one finds; it returns the id of a value that compares equal in the slot of the hash, or a free id for the value itself, and changes no other id. |
| Hashcons.ClearedInv | lib/Frenetic_Hashcons.ml:25-32 | `clear` keeps the tables inverse with all ids below the new counter, and preserved ids keep their values. |
| Hashcons.RunInv | lib/Frenetic_Hashcons.ml:20-45 | Over every sequence of `get`, `clear` and growth of the hash table, for every hash function, the tables stay inverse to each other with all ids below the counter. |
| Hashcons.IdsAreValuesIff | lib/Frenetic_Hashcons.ml:20-43 | Live ids are equal exactly when their values compare equal, if and only if no two stored values that compare equal have different hashes. |
| Hashcons.RunIdsAreValues | lib/Frenetic_Hashcons.ml:20-45 | In a run whose values have one hash wherever they compare equal, live ids are equal exactly when their values compare equal, at every moment. |
| Hashcons.LiveIdKeeps | lib/Frenetic_Hashcons.ml:20-45 | An id that no `clear` of a sequence drops keeps its value, so no later `get` gives it to another value. |
| Hashcons.LiveIdsDiffer | lib/Frenetic_Hashcons.ml:20-45 | Two live ids are equal exactly when the values stored for them are the same. |
| Hashcons.Table.Get | lib/Frenetic_Hashcons.ml:34-43 | The method does what `get` is specified to do; adding to the inverse table never finds the id there, and a lookup finds one value at most. |
| Hashcons.Table.GetUnget | lib/Frenetic_Hashcons.ml:39-45 | `unget (get v)` compares equal to `v`. |
| Hashcons.Table.Clear | lib/Frenetic_Hashcons.ml:25-32 | The two loops leave exactly the preserved ids, and the counter one above the greatest of them. |
| DiagramStore.IdIsTree | lib/Frenetic_Vlr.ml:72-83 | Two node ids are equal exactly when the diagrams below them are equal trees, with the same words in their masks. |
| DiagramStore.IdIsTestsIff | lib/Frenetic_Vlr.ml:51-60 | Two node ids are equal exactly when the diagrams test the same bits, if and only if no two stored nodes that compare equal have different hashes; for every hash function and every store. |
| DiagramStore.TidyIdIsTests | lib/Frenetic_Fdd.ml:304-326 | A caller ensures this by clearing the bits of a mask below its length and writing each field in one way. |
| DiagramStore.HostBitsTwoIds | lib/Frenetic_Fdd.ml:304-326 | 192.168.0.1/24 and 192.168.0.5/24 compare equal, and get two ids where their hashes fall into different slots; `mk_branch` then keeps a node whose branches test the same. |
| DiagramStore.SameTestsMeaning | lib/Frenetic_Fdd.ml:307-326 | Diagrams that differ only in how their masks are written treat all packets the same. |
| DiagramStore.Store.MkLeaf | lib/Frenetic_Vlr.ml:70-70 | `mk_leaf` gives an id for the leaf and changes the diagram of no other id. |
| DiagramStore.Store.MkBranchId | lib/Frenetic_Vlr.ml:72-83 | `mk_branch`, which compares ids, builds the tree node unless its branches are equal as they are written, and changes the diagram of no other id; the mask of the new node is written as given, unless the lookup finds the node written otherwise. |
| DiagramStore.RefsLeast | lib/Frenetic_Vlr.ml:257-266 | `refs` is the least set that holds the node and with each node its branches. |
| DiagramStore.ClearKeepsIff | lib/Frenetic_Vlr.ml:158-165 | A clear leaves the diagram of a node whole exactly when it preserves all of `refs` of that node. |
| DiagramStore.Store.ClearCache | lib/Frenetic_NetKAT_Compiler.ml:207-216 | Clearing with the `refs` of a diagram keeps that diagram and the two constants, and nothing else. |
| Sequencing.SeqMeaning | lib/Frenetic_NetKAT_Compiler.ml:57-72 | `seq` takes an action of the first diagram followed by an action that the second one takes on its result, and no others. |
| Sequencing.CanonicalSeq | lib/Frenetic_NetKAT_Compiler.ml:57-72 | `seq` keeps diagrams ordered and leaves no node whose branches are equal as they are written. |
| Stabilization.Settles | lib/Frenetic_NetKAT_Compiler.ml:78-88 | Every growing sum of diagrams over finitely many tests and actions stops changing, also where tests are written in several ways. |
| StarLoop.StarEnds | lib/Frenetic_NetKAT_Compiler.ml:78-88 | The loop of `star'`, which compares diagrams as they are written, ends for all diagrams. |
| StarLoop.StarFromMeaning | lib/Frenetic_NetKAT_Compiler.ml:78-88 | `star' lhs t` has the identity and all of `lhs; t`, `lhs; t; t` and so on, and nothing else. |
| StarLoop.StarMeaning | lib/Frenetic_NetKAT_Compiler.ml:78-88 | `star` has exactly the actions of all powers of its argument. |
| Semantics.Eval | lib/Frenetic_NetKAT_Semantics.ml:142-186 | The interpreter ends on every policy, and stays within the packets that the assignments of the policy can make. |
| Semantics.EvalStar | lib/Frenetic_NetKAT_Semantics.ml:176-182 | The loop for Star ends and its result is closed under the policy. |
| Semantics.StarIsLeastClosed | lib/Frenetic_NetKAT_Semantics.ml:176-182 | Star gives the least set that holds the packet and is closed under the policy. |
| Semantics.StarIsSteps | lib/Frenetic_NetKAT_Semantics.ml:176-182 | Star gives exactly the packets of any number of runs of the policy. |
| LocalCompiler.TestAgreesIff | lib/Frenetic_NetKAT_Compiler.ml:27-29 | A compiled address test agrees with the interpreter on all packets exactly when its mask is not empty or all addresses of the field have one sign; an empty mask compares the sign. |
| LocalCompiler.EmptyMaskDropsAll | lib/Frenetic_NetKAT_Compiler.ml:41-48 | With an empty mask and an address of the other sign the compiled conjunction drops everything, although the interpreter lets packets with that address pass. |
| LocalCompiler.HostBitsExtraNode | lib_test/Test_Frenetic_NetKAT_Compiler.ml:381-401 | A conditional on 192.168.0.1/24 and 192.168.0.5/24 keeps a node that decides nothing for any packet. |
| LocalCompiler.PredMeaning | lib/Frenetic_NetKAT_Compiler.ml:41-48 | A compiled predicate reaches the one leaf on packets for which the interpreter says true, and the zero leaf on the others, if each of its tests meets the exact condition of `TestAgreesIff`. |
| LocalCompiler.OfLocalPol | lib/Frenetic_NetKAT_Compiler.ml:107-127 | Compilation gives an ordered diagram in which no node has branches that are equal as they are written, or fails. |
| LocalCompiler.CompileTotal | lib/Frenetic_NetKAT_Compiler.ml:107-127 | Compilation succeeds on every policy without links. |
| LocalCompiler.CompileCorrect | lib/Frenetic_NetKAT_Compiler.ml:107-127 | The compiled diagram sends every packet to exactly the packets that the interpreter gives, for all policies it accepts. |
| FlowTables.RestSmaller | lib/Frenetic_NetKAT_Compiler.ml:324-328 | Each row removes a leaf from the diagram, so the loop of table generation ends. |
| FlowTables.ActionMeaning | lib/Frenetic_Fdd.ml:570-627 | The OpenFlow actions of a leaf, with in-port and redundant assignments resolved by the tests passed, make the packets of the leaf. |
| TableCorrectness.ValidIffNeedsNothing | lib/Frenetic_NetKAT_Compiler.ml:238-261 | Exactly the patterns that `is_valid_pattern` accepts are left as they are, whatever tests have been seen. What is filled in for the others is `PathCatches`. |
| RowCoverage.PathCatches | lib/Frenetic_NetKAT_Compiler.ml:232-272 | The rows of a path catch exactly the packets that pass its tests and are what the open fields ask for: of type 0x800 or 0x806 where an address is tested and the type is not; of type 0x800 where only the protocol is; of protocol 6 or 17 where a port is tested and the protocol is not, and then also of type 0x800 if the type is open and 0x800 has not been seen. Types and protocols that have been tested before are lost. |
| RowCoverage.AddressCatchesIpAndArp | lib/Frenetic_NetKAT_Compiler.ml:242-243 | The first path of a policy for an address alone catches the IPv4 and the ARP packets for that address, and no others. |
| TableCorrectness.RowsExactIff | lib/Frenetic_NetKAT_Compiler.ml:221-272 | The rows of a path are hit by exactly the packets that pass it, if and only if its pattern is valid: a test of addresses or protocol comes with one of the Ethernet type, and a test of ports with one of the protocol. This can be checked before the rows are made. |
| TableCorrectness.SeenDependencyDropsRow | lib/Frenetic_NetKAT_Compiler.ml:230-261 | An input for the other side: a dependency tested on another path counts as seen, the path gets no row, and its packets are dropped. |
| TableCorrectness.FlowsMeaning | lib/Frenetic_NetKAT_Compiler.ml:266-272 | A packet that hits a row of a path is treated as its leaf says, also where the row was made for a dependency, and one that hits none goes on with the other rows. |
| TableCorrectness.OptMeaning | lib/Frenetic_NetKAT_Compiler.ml:300-329 | The optimised table does what the leaf does that the packet reaches, if it has a row for the path of that packet and whatever other paths lack, although each row peels the all-true path off a shrinking diagram. |
| TableCorrectness.NaiveMeaning | lib/Frenetic_NetKAT_Compiler.ml:331-341 | So does the naive table, in front of any further rows. |
| TableCorrectness.ValidHasRow | lib/Frenetic_NetKAT_Compiler.ml:300-341 | If all paths are valid, every packet that arrives has a row for its path, in both tables. |
| RowCoverage.HasRowIff | lib/Frenetic_NetKAT_Compiler.ml:221-341 | A table has a row for every packet that arrives if and only if every path that some packet takes has a valid pattern; for the optimised and the naive table, whatever tests have been seen. |
| RowCoverage.HasRowIffAsked | lib/Frenetic_NetKAT_Compiler.ml:232-341 | Packet by packet: the table has a row for a packet if and only if the packet is what the open fields of its path ask for, given the tests seen on the way. |
| RowCoverage.LatePolicyDrops | lib/Frenetic_NetKAT_Compiler.ml:230-261 | The policy `not (ethTyp = 0x800) and ipProto = 6` compiles to a diagram whose table drops packets that the interpreter lets pass. |
| TableCorrectness.TailMeaning | lib/Frenetic_NetKAT_Compiler.ml:343-352 | Removing drops at the end changes nothing when a table miss drops. |
| TableCorrectness.TailExact | lib/Frenetic_NetKAT_Compiler.ml:343-352 | Exactly the drops at the end are removed: what stays is a prefix that does not end in a drop, and all rows after it are drops. |
| TableCorrectness.DedupMeaning | lib/Frenetic_NetKAT_Compiler.ml:142-156 | `dedup` changes no output of the diagram, in whatever order the assignments are listed. |
| Duplicates.DedupNoDuplicates | lib/Frenetic_NetKAT_Compiler.ml:142-156 | After `dedup` no packet has two actions at its leaf that make the same packet and go on with the same state, if all assignments of a leaf are listed. |
| Duplicates.HarmfulIff | lib/Frenetic_NetKAT_Compiler.ml:147-152 | `dedup` tests exactly the fields that one action of the leaf assigns and another does not. |
| Duplicates.HarmlessLeaf | lib/Frenetic_NetKAT_Compiler.ml:142-156 | A leaf whose actions all assign the same fields is left as it is. |
| Duplicates.TableActing | lib/Frenetic_NetKAT_Compiler.ml:300-359 | Under all options a packet with a row for its path is given exactly the actions of its leaf, made with the tests of that path. |
| Duplicates.SentOnce | lib/Frenetic_NetKAT_Compiler.ml:142-156 | A table made with `dedup` sends no packet twice: two action lists of the row that a packet hits make different packets. |
| Duplicates.NoOutputToIngress | lib/Frenetic_NetKAT_Compiler.ml:274-285 | A row for one ingress port has no output to that port by number, which a switch would ignore. |
| SwitchTables.TableIsOfSwitch | lib/Frenetic_NetKAT_Compiler.ml:300-359 | No row of the table of a switch tests the switch, and no row of an optimised table tests the fabric. |
| TableCorrectness.TableMeaning | lib/Frenetic_NetKAT_Compiler.ml:354-359 | Under all options the table forwards a packet at its switch as the diagram, if it has a row for the path of that packet. That its rows test no switch is `TableIsOfSwitch`. |
| EndToEnd.SemanticsAgreesWithTable | lib_test/Test_Frenetic_NetKAT_Compiler.ml:419-430 | The table compiled for a switch forwards a packet there as the interpreter does, under all options, if it has a row for the path of that packet. |
| EndToEnd.SemanticsAgreesWithValidTable | lib_test/Test_Frenetic_NetKAT_Compiler.ml:419-430 | So it does for all packets there, if all paths of the diagram are valid. |
| Splitting.SplitPol | lib/Frenetic_NetKAT_Compiler.ml:728-763 | All diagrams that splitting makes are ordered, with no node whose branches are equal as they are written. |
| StateFields.SplitFree | lib/Frenetic_NetKAT_Compiler.ml:728-763 | Splitting brings in no field that the policy neither tests nor assigns, neither in the diagrams nor in the policies of the new states. |
| SplitStates.SplitIds | lib/Frenetic_NetKAT_Compiler.ml:728-763 | Splitting uses the ids from the next one on, one for each `Dup`. |
| Splitting.EStepStar | lib/Frenetic_NetKAT_Compiler.ml:750-756 | The final packets of a split Star are those of any number of final steps of its body. |
| SplitCorrectness.OneStepUnion | lib/Frenetic_NetKAT_Compiler.ml:734-740 | If two policies are split into one step each, so is their union. |
| SplitCorrectness.OneStepSeq | lib/Frenetic_NetKAT_Compiler.ml:741-749 | If two policies are split into one step each, so is their sequence, with the states of the first continued by the second. |
| SplitCorrectness.OneStepStar | lib/Frenetic_NetKAT_Compiler.ml:750-756 | If a policy is split into one step, so is its Star, with each state continued by the Star. |
| SplitStates.SplitOneStep | lib/Frenetic_NetKAT_Compiler.ml:728-763 | The traces of any policy are the final packets of its first diagram, and a step of its second one followed by a trace of the state. |
| SplitStates.SplitStateSteps | lib/Frenetic_NetKAT_Compiler.ml:765-771 | The policy stored for each new state, with injected diagrams, is split into one step of what the state means. |
| Automata.StatesCount | lib/Frenetic_NetKAT_Compiler.ml:765-779 | There are exactly as many states as `Dup`s, and the source; each id is defined once. |
| Automata.SplitExact | lib/Frenetic_NetKAT_Compiler.ml:765-779 | The automaton accepts from its source exactly the traces of the policy. |
| Minimization.Automaton.AddTo | lib/Frenetic_NetKAT_Compiler.ml:596-603 | A state with the same diagrams is found, and else a new one is stored under the next id; nothing else changes. |
| Minimization.LexSort | lib/Frenetic_NetKAT_Compiler.ml:655-662 | The list has the states reached from the source, each once and each with its successors. |
| Minimization.Minimize | lib/Frenetic_NetKAT_Compiler.ml:664-684 | At the end each reached old state has a new one with the same diagram for final packets and the same steps with states renamed, also with cycles; no id is defined twice. A state that neither an earlier state of the order nor itself goes on with gets the id of an earlier one wherever an earlier one has the same renamed diagrams. |
| Minimization.DStepMapConts | lib/Frenetic_Fdd.ml:704-710 | `map_conts` renames the state of each step. |
| Minimization.MinimizeExact | lib/Frenetic_NetKAT_Compiler.ml:664-684 | A reached state and its new name accept the same traces. |
| Determinization.Determinizer.UnmergeAll | lib/Frenetic_NetKAT_Compiler.ml:692-695 | The states that the merged ones came from accept together what the merged ones accept. |
| Determinization.Determinizer.Merge | lib/Frenetic_NetKAT_Compiler.ml:693-709 | The merged state accepts what some state of the set accepts, whether it is known, found by its diagrams or new; the assertion that there are several states holds. |
| Determinization.Determinizer.DedupPar | lib/Frenetic_NetKAT_Compiler.ml:711-724 | No two actions of the new leaf assign the same, and for each assignment the leaf goes on with the same traces. |
| Determinization.Determinizer.DedupFdd | lib/Frenetic_NetKAT_Compiler.ml:725-725 | On every packet the new diagram goes on with the same traces, with no two actions of a leaf that assign the same. |
| Determinization.Determinizer.Visit | lib/Frenetic_NetKAT_Compiler.ml:611-624 | The traversal ends although it adds states, changes no state that it has seen, and reaches all successors of what it visits. |
| Determinization.InvAdded | lib/Frenetic_NetKAT_Compiler.ml:705-708 | A merged state keeps what every state stands for. |
| Determinization.InvReused | lib/Frenetic_NetKAT_Compiler.ml:596-603 | So does a state that is found by diagrams which it may no longer have. |
| Determinization.InvRewritten | lib/Frenetic_NetKAT_Compiler.ml:611-624 | Rewriting a state in place keeps what every state stands for. |
| Determinization.Determinize | lib/Frenetic_NetKAT_Compiler.ml:687-726 | Determinisation ends, every state accepts the traces it did before, no leaf of a reachable state has two actions equal apart from the state, and no state uses a field that no state used before. |
| ProgramCounter.StateFddMeaning | lib/Frenetic_NetKAT_Compiler.ml:796-801 | The guarded diagram of a state acts on packets that carry the state, and that of the source on all packets. |
| ProgramCounter.FoldReachable | lib/Frenetic_NetKAT_Compiler.ml:626-637 | The fold adds the diagrams of the states reached, each once, and stops at the first that uses the field itself. |
| ProgramCounter.ToLocal | lib/Frenetic_NetKAT_Compiler.ml:787-802 | Encoding succeeds exactly when no reachable state uses the program counter field, and gives the union over exactly the reachable states. |
| NetworkRuns.LocalStep | lib/Frenetic_NetKAT_Compiler.ml:787-802 | On a packet that carries a state the program does what that state does and what the source does. |
| NetworkRuns.LocalStepExactIff | lib/Frenetic_NetKAT_Compiler.ml:796-801 | It does just what the state does exactly when the source does nothing else on that packet. |
| NetworkRuns.LocalStart | lib/Frenetic_NetKAT_Compiler.ml:796-801 | A packet that carries no state is handled by the source alone. |
| NetworkRuns.RunsExactIff | lib/Frenetic_NetKAT_Compiler.ml:787-802 | Over a network the runs of the program are exactly those of the automaton, up to the program counter, if and only if starting over on the way adds nothing. |
| NetworkPolicies.MeansIsEval | lib/Frenetic_NetKAT_Semantics.ml:142-182 | The meaning with links is that of the interpreter on policies without links. |
| NetworkPolicies.LinkTr | lib/Frenetic_NetKAT_Compiler.ml:527-538 | The encoding of a link by a test, a `Dup` and a test means the link when the network moves packets as the link says. |
| NetworkPolicies.TrMeans | lib/Frenetic_NetKAT_Compiler.ml:520-538 | Translation keeps the meaning of every policy on a network with its links. |
| GlobalCompiler.SplitGuarded | lib/Frenetic_NetKAT_Compiler.ml:728-763 | Every step of a split policy leads to the source of a link. |
| GlobalCompiler.CompileGlobal | lib/Frenetic_NetKAT_Compiler.ml:865-868 | Splitting, minimising, determinising and encoding give an automaton with the traces of the policy. It is encoded exactly when no reachable state uses the field of the program counter, and so for every policy that leaves the field alone; and the program uses no other field that the policy leaves alone, but the location. |
| GlobalCorrectness.CompileGlobalExact | lib/Frenetic_NetKAT_Compiler.ml:865-868 | The compiled program moves packets from outside over the network exactly as the policy says, when the policy starts at the edge of the network; `RunsExactIff` has the exact condition for all policies. |
| GlobalCorrectness.LeakyIsNotExact | lib/Frenetic_NetKAT_Compiler.ml:796-801 | A policy that also handles packets at the end of a link shows that the condition is needed: the source acts again in the middle of the network. |
| GlobalCorrectness.CompileLeaky | lib/Frenetic_NetKAT_Compiler.ml:865-868 | The compiler accepts this policy, and the program that it makes allows runs which the policy does not. |
| GlobalCorrectness.CompileOneLink | lib/Frenetic_NetKAT_Compiler.ml:865-868 | The policy of a single link meets all conditions: the compiler accepts it, and over the network its program moves exactly the packets at the link. |
| NetworkTables.TablesExact | lib/Frenetic_NetKAT_Compiler.ml:354-359 | Where every switch runs the flow table made for it, packets from outside move over the network exactly as the policy says, if each packet on the way has a row for its path. |
| NetworkTables.PlainTablesExact | lib/Frenetic_NetKAT_Compiler.ml:354-359 | So they do with no condition on the tables, for policies that leave protocol, addresses, ports of the transport layer and the virtual fabric alone, on networks that do not change these. |
| ProductGraph.Make | lib/Frenetic_NetKAT_Virtual_Compiler.ml:272-286 | The worklist ends although it pushes a vertex back, and gives exactly the vertices reached by steps and exactly the step edges between them. |
| ProductGraph.MakeProductGraph | lib/Frenetic_NetKAT_Virtual_Compiler.ml:217-290 | The graph holds what packets that enter can reach, and exactly these edges: the program follows one edge of the virtual topology and leaves the packet where it is; the fabric keeps the virtual place and takes the packet over one or more physical edges, or back in at an out-port, to a place that the relation lists for the virtual one, or to any if it lists none. Packets enter at the in-ports given, at a related place; the two kinds of vertices alternate. |
| ProductGraph.StepMeaning | lib/Frenetic_NetKAT_Virtual_Compiler.ml:244-270 | A step of the worklist is such a move of the program or of the fabric, and every such move is a step. |
| ProductGraph.IngressMeaning | lib/Frenetic_NetKAT_Virtual_Compiler.ml:234-242 | The ingress vertices are the in-ports given at related physical places. |
| ProductGraph.ConsistentIsRelated | lib/Frenetic_NetKAT_Virtual_Compiler.ml:217-290 | So every consistent vertex of the graph whose virtual place is listed is at a listed physical place. |
| Pruning.EraseFatal | lib/Frenetic_NetKAT_Virtual_Compiler.ml:304-314 | Erasing a vertex erases only vertices that no safe set holds, and leaves no vertex broken that was not. |
| Pruning.Prune | lib/Frenetic_NetKAT_Virtual_Compiler.ml:297-315 | Pruning keeps exactly the largest safe set and the edges in it, in whatever order it visits the vertices. |
| Pruning.LargestSafeIsSafe | lib/Frenetic_NetKAT_Virtual_Compiler.ml:294-296 | The union of all safe sets is safe. |
| Pruning.KeptIffRepairable | lib/Frenetic_NetKAT_Virtual_Compiler.ml:294-296 | A vertex is kept exactly when some fabric never gets stuck from it, whatever the program does. |
| FabricSelection.MinimizeLeast | lib/Frenetic_NetKAT_Virtual_Compiler.ml:12-21 | `minimize` fails exactly when nothing has a cost, and else finds an element of least cost. |
| FabricSelection.Select | lib/Frenetic_NetKAT_Virtual_Compiler.ml:324-337 | Selection ends, adds the vertex itself and all that it needs from the graph, changes no vertex that was added before, and fails only where no move has a cost. A vertex that is not in the graph is added as well. |
| FabricSelection.FabricGraph | lib/Frenetic_NetKAT_Virtual_Compiler.ml:323-339 | The fabric graph holds every ingress vertex, also those that pruning removed; each consistent vertex keeps all its moves and each inconsistent one has exactly one, of least cost. |
| FabricSelection.FabricNeverStuck | lib/Frenetic_NetKAT_Virtual_Compiler.ml:323-339 | In no play from a vertex that pruning kept does the selected fabric get stuck. |
| FabricSelection.GenerateFabric | lib/Frenetic_NetKAT_Virtual_Compiler.ml:411-487 | From topologies to a fabric, in the order of the source: each kept vertex has a cheapest move of the pruned product; it fails only where no move has a cost, since the membership test on the fabric graph never fails; the fabric it returns never gets stuck from an ingress vertex if and only if pruning kept that vertex, and from all of them if and only if the pruned graph holds them all. |
| FabricSelection.PrunedIngress | lib/Frenetic_NetKAT_Virtual_Compiler.ml:411-413 | A topology whose only ingress vertex is pruned, and for which the code returns a fabric that gets stuck at once. |
| Switches.PrioritizeRows | async/Frenetic_NetKAT_Updates.ml:110-118 | Priorities count down from the first one, so they strictly descend. |
| TableSwap.DiffExactIff | async/Frenetic_NetKAT_Updates.ml:196-211 | For all tables whose priorities do not rise, the difference is the old rows whose priority and pattern are not in the new table, if and only if, with each old row that stays, the rows of its priority before it stay, in the same order. |
| TableSwap.DiffExact | async/Frenetic_NetKAT_Updates.ml:198-211 | So the difference is exact when priorities strictly descend. |
| TableSwap.DiffNeedsDescending | async/Frenetic_NetKAT_Updates.ml:196-211 | Two rules of one priority that change places: the difference holds a rule of the new table. The comment in the source allows such tables; the controller never makes them. |
| TableSwap.SwapOldOrNew | async/Frenetic_NetKAT_Updates.ml:213-242 | After every add and every strict delete a best match is the first match of the old or of the new table, and a miss is a miss of one of them. |
| TableSwap.SwapFinal | async/Frenetic_NetKAT_Updates.ml:213-242 | After the last message the rules are exactly the new ones. |
| EdgeSwap.Controller.SwapUpdateFor | async/Frenetic_NetKAT_Updates.ml:216-242 | The method sends these messages in order, every table the switch has on the way is old or new for each packet, and the new table is recorded. |
| VersionedUpdate.HandleInv | async/Frenetic_NetKAT_Updates.ml:263-286 | A switch that handles its next message keeps the invariant of the update. |
| VersionedUpdate.ControlInv | async/Frenetic_NetKAT_Updates.ml:263-286 | Each action of the controller keeps it. That the controller clears what it has replaced is `OldVersionsGo`, and that it gets to the end `CanFinish`. |
| VersionedUpdate.RunConsistent | async/Frenetic_NetKAT_Updates.ml:263-286 | At every moment of every run, if some switch stamps a version then every switch holds all internal rules of that version. |
| VersionedUpdate.StampedHandled | async/Frenetic_NetKAT_Updates.ml:140-160 | A switch that holds the internal rules of a version handles packets with its tag by the first matching row of that table. |
| VersionedUpdate.RunOldOrNew | async/Frenetic_NetKAT_Updates.ml:244-286 | At every moment of every run each switch handles an untagged packet by the edge table of the current version or of the next one. |
| InFlight.StampedPacketIff | async/Frenetic_NetKAT_Updates.ml:263-286 | A packet that is stamped at one moment of a run finds, at a later moment, all internal rules of its version on a switch if and only if that switch has not handled the delete of the version by then; otherwise it finds none of them. |
| InFlight.OneVersionAllTheWay | async/Frenetic_NetKAT_Updates.ml:263-286 | Per-packet consistency: every switch on the way of a packet treats it by the internal table of the version it was stamped with, if none of them has handled the delete of that version before the packet comes. |
| InFlight.LatePacketMisses | async/Frenetic_NetKAT_Updates.ml:163-181 | A packet that comes after the delete of its version matches no rule. |
| InFlight.ClearDoesNotWait | async/Frenetic_NetKAT_Updates.ml:279-286 | Nothing waits for packets on their way: once the edges are swapped, the delete can be sent and handled in the next two steps. |
| OldVersions.OldVersionsGo | async/Frenetic_NetKAT_Updates.ml:163-181 | At every moment of every run, a version that an update of this run has replaced has no internal rules left on a switch, or the delete of its tag is on the way there; while the last one is being cleared, this holds on the switches already done. |
| OldVersions.QuietIsCurrent | async/Frenetic_NetKAT_Updates.ml:263-286 | Between updates, a switch that has handled all its messages has exactly the internal and edge rules of the current version. |
| OldVersions.CanFinish | async/Frenetic_NetKAT_Updates.ml:263-286 | From every moment of an update, wherever controller and switches are, the run can go on to a point where the update is over, all messages are handled and every switch has exactly the rules of the new version. |
| Specialization.FailsIff | async/Frenetic_NetKAT_Updates.ml:126-138 | Specialising fails exactly where an action is an output that names no port, as to the ingress port. |
| Specialization.TagsRight | async/Frenetic_NetKAT_Updates.ml:126-138 | Whatever the actions do, specialised ones send packets for internal ports with the tag of the version, and all others without a tag. |
| Specialization.SameSentIff | async/Frenetic_NetKAT_Updates.ml:126-138 | Apart from the tag, specialised actions send what the given ones send if and only if all outputs come before all other actions. |
| Specialization.AssignmentsRepeat | async/Frenetic_NetKAT_Updates.ml:126-138 | An output after n assignments is made 2^n times, the first time without any of them. |
| Specialization.CompiledSameIff | async/Frenetic_NetKAT_Updates.ml:126-138 | The actions that a table has for an action of the policy can be specialised if and only if it goes to a port other than the ingress port, and then send the same packets, apart from the tag, if and only if it assigns no other field. |
| Specialization.EdgeMeaning | async/Frenetic_NetKAT_Updates.ml:140-152 | An edge table treats packets from outside by the first row of the compiled table that matches them apart from the tag, with specialised actions; tagged packets miss. |
| Specialization.InternalMeaning | async/Frenetic_NetKAT_Updates.ml:154-160 | An internal table does so for packets with the tag of its version, and all others miss. |
| Specialization.SpecializedPlanOkIff | async/Frenetic_NetKAT_Updates.ml:140-160 | Specialised tables are as the update needs them, with internal rules for one tag and edge rules that stamp no other, if and only if no row for packets from outside assigns a tag other than the version. |
| DynGraph.Receive | async/Frenetic_DynGraph.ml:22-32 | Receiving ends, leaves the node and all that is downstream of it up to date, and changes no other value. |
| DynGraph.Propagate | async/Frenetic_DynGraph.ml:18-20 | Telling the consumers one after the other leaves all that is downstream up to date, although nodes reached twice are stale in between. |
| DynGraph.Push | async/Frenetic_DynGraph.ml:44-46 | Pushing leaves every node downstream equal to its function of the current values of all its producers, and changes no other node. |
| DynGraph.PushKeepsUpToDate | async/Frenetic_DynGraph.ml:44-46 | A graph whose nodes are up to date stays so, whichever node is pushed. |
| DynGraph.Attach | async/Frenetic_DynGraph.ml:48-50 | Attaching adds the edge at both ends, for any two nodes. |
| DynGraph.AttachAcyclicIff | async/Frenetic_DynGraph.ml:48-50 | The graph with the edge is acyclic if and only if the target of the edge did not reach its source. |

## Left out

- The virtual parts of the compiler beside product graph, pruning and selection: parsing of predicates and topologies into graphs, fabric policies of edges, statistics and dot files. The transitive closure of the physical topology comes from ocamlgraph and is an argument with its specification.
- Path costs: `cost` in lib/Frenetic_NetKAT_Virtual_Compiler.ml returns the path and not the distance. Costs are abstract integers, or missing.
- ocamlgraph itself: a vertex that has been erased, or was never there, has no edges, in pruning and in selection alike. A version of the library that raises an exception instead, when asked for the edges of a missing vertex, is not modelled.
- Order of folds over sets: where the source folds over a set, a hash table or the neighbours of a vertex, the methods take any element next, so the results hold for every order. Loops that the source writes as recursion over such folds are methods for that reason.
- Memo tables and continuation-passing style: `seq`, `sum` and `prod` are memoised by ids, and `of_local_pol_k` is in continuation-passing style; both are modelled as direct recursion. A subdiagram that is shared is processed once in the source and once for each place in the model.
- Lazy states: `add_policy` splits a state when it is first needed; the model splits all. The ids are those of the numbering, since only the first split makes new ids. `split_pol` takes the counter as an argument and returns it.
- GlobalCompiler.CompileGlobal: takes the states that splitting makes as an argument that equals `StatesOf`, because the diagrams of `seq` are specified and not computed (the assignments of an action are listed in field order by a specification function). It models the default flags, with minimisation and determinisation.
- The argument `ing` of `of_pol` and `of_policy`, which `compile_global` does not pass.
- Global runs assume that the network neither tests nor changes the program counter field, and that packets come in with values that are no state ids.
- TableCorrectness.OptMeaning: says nothing of a packet that hits no row of its own path; such a packet goes on to the rows of later paths (`FlowsMeaning`).
- EndToEnd.SemanticsAgreesWithTable: also covers policies that assign the switch field. The source raises `Non_local` for these when it emits their actions (lib/Frenetic_Fdd.ml:609), and no table is made.
- StarLoop.StarEnds: a lookup in the hash table can find a node with the same test written otherwise, when both have the same slot, and then gives that node (`MkBranchId`). The functions on trees write the test as given, so they describe runs without such a lookup, as when masks are written with clear bits below their length.
- TableCorrectness.TableMeaning: packets are at the switch of the table, with virtual fabric 1 for the optimised table, all fields present and a physical in-port; a table miss drops.
- Assignments of an address with a mask other than 32 bits: the source rejects them when it emits the action, and the policies considered have none. An assigned address is written as a constant, where the source has a 64-bit mask; the two test the same.
- Values that are pipes, queries or fast-failover groups, and the fields of virtual switches and ports in the interpreter, which ignores them.
- `Let`, mutable and meta fields, `hide`, `specialize_policy`.
- The packet sets of the interpreter compare packets without their switch; the model has sets of whole packets.
- `to_multitable` and its helpers, `pipes`, `queries`, `to_pattern` of a row to text, dot and JSON output.
- The heuristic `auto_order` and the array behind `Field.order`: every order of the fields is allowed, and it stays the same during a compilation.
- The 64-bit width of constants: values are integers, and only shifts of masks are modelled with their width.
- Parallel action lists of one row in the update model: a row has one list of actions, and how OpenFlow 1.0 concatenates several is not modelled. Outputs to a queue and fast-failover groups are not among the actions.
- Switches that disconnect or come up during an update, barriers that fail, and messages that are lost or overtake each other. `barrier` binds the reply of `send_txn` and drops it (async/Frenetic_NetKAT_Updates.ml:105-108); the controller module is not part of this model, and `send_txn` is taken to return only after the switch has handled all messages sent before.
- Masks in the patterns of the update model: a pattern fixes exact values of fields, so rows with address masks are not represented there.
- RowCoverage.HasRowIff: the values of a field are unbounded, so there is always one that no test of the diagram names; with 64-bit words a diagram can name them all.
- Versions that reach 65535, the tag of untagged packets, and tables with more than 65536 rows.
- `BestEffortUpdate`, which empties a switch before it installs the new table.
- Pipes at the ends of a dataflow graph, and types of values; all values are integers. A source node that receives a value fails, and never receives one in a graph with producers at derived nodes only. Pushes in a graph with a cycle, which do not end.
- EdgeSwap.Controller.SwapUpdateFor: the switch handles each message before the next is sent; `VersionedUpdate` has the asynchronous case.
- Sockets, RPC, HTTP, logging, the shell, the parser, the Python bindings and examples.
