# Verification

A Dafny 4.11 model of the algorithmic core of this repository, and proofs about it. Every file is
a module or a class of one program; `dafny verify dfyconfig.toml` checks them all.

## What is modelled

**The regular-expression family** (`c-study/dfa-about`). `RegexSyntax` has expressions, their
languages and their parse trees. `Re2Post` is the infix-to-postfix parser, once as a machine on
values and once on its buffer and paren stack. `Postfix` says what a postfix string denotes and
which strings keep the compiler's stack in bounds. `NfaGraph` says when a graph holds an automaton
of an expression. `Fragments` has the patch lists threaded through dangling arrows. `Simulation`
says what the sets of states are that the matchers follow, and `StateOrder` the order in which their lists
hold them. `Nfa` is the heap program: compiler, `addstate`, `step`, `match`. `CacheTree` and `DfaCache` are the
bounded cache of DFA states, a search tree and a free list in the same nodes. `TwoOrders` has an expression
whose lists come in two orders. `Grep` puts the two programs together.

**The thread pool** (`c-study/cthreadpool`). `RingQueue` has the ring queue, as values and as a
class. `ThreadPool` is the pool as a system of interleaved steps; one step is one lock, unlock, wait,
wake-up, test of the stop flag, queue operation or routine call. `PoolInvariant` and `PoolSteps` have the
invariant, `PoolRuns` runs from the initial state, `PoolSafety` what holds in every reachable state,
`PoolCalls` what becomes of each call, `PoolCells` that free cells are empty, `PoolEnd` how a pool that was told to
stop comes to its end, and `PoolFair` that it does so in every fair run.

**DES and Triple-DES** (`c-study/des/des2.c`). `DesStandard` is the cipher of FIPS PUB 46-2 on strings of bits,
with its positions, for arbitrary substitution tables. `Des` has permutations and rounds of the program, on words;
`DesKeys` the key schedule with its real tables; `DesSymmetry` weak keys and complements; `DesContext` the key setups
and ciphers on their arrays. `DesBits` says where each step takes each bit, and `DesWordStandard` that the program
computes the cipher of the standard.

**The DES of the SMB hashes** (`c-study/des/des.c`). `ByteBits` reads bytes as strings of bits; `DesHash` has
its maps, key rotation and rounds on bits, and `DesHashBytes` the program on byte arrays. `DesHashStandard` has the
same for this program, and `DesAgree` that the two programs agree.

**Reverse-mode differentiation** (`gpt`). `GradGraph` has the forward derivative, the depth-first
search and the sweep on numbered nodes; `Autograd` the heap program of `microgpt.c`, `PyAutograd` that
of `microgpt.py`.

**Smaller cores.** `Brainfuck` (run-folding parser and executor), `NextBigger`, `Lcs`, `Knapsack`
and `Pcap` (the mapped window of the capture reader). `Wrappers` and `Arithmetic` are helpers.

## Where code and comments differ

- `ptrcmp` (c-study/dfa-about/bounded-mem-dfa.c:380-389) is meant to order states by address, but
  compares the places of the two members in the array that is sorted. What the sort does to a list therefore
  depends on its length alone: the model takes any family of rearrangements, one for each length. The answers are
  right all the same; but the cache has one node for each list, not for each set: `Grep.TwoNodes` is an input where
  a set gets two nodes, and `DfaCache.Cache.SameNodeExactly` says exactly when two nodes are one.
- `dstate` records an edge only when it creates a node (c-study/dfa-about/bounded-mem-dfa.c:448-471);
  an edge to a node that was found is computed again each time.
- A run such as `><<` nets against its first character and wraps to a huge unsigned difference
  (c-study/brainfuck/brainfuck.c:330-361), so the folded program stops with an error:
  `Brainfuck.ActExactly` has the exact condition for one run, `Brainfuck.FoldExactly` for a whole program.
- The table of `knapsack_01.c` never fills its column for capacity 0 (c-study/dynamic_p/knapsack_01.c:22), so
  items of weight 0 can be missed: `Knapsack.OptimalExactly`.
- `KeyShift` (c-study/des/des.c:370-421) sets only one byte of the key aside, so it rotates by up to eight
  places; `DesHash.ShiftRotatesExactly` has the condition for more.  It is called with one or two.
- A record of a capture file that ends exactly with the file is refused if it does not end inside
  the current window (pcap_modidy/ewx_pcap.c:313): `Pcap.Reader.Prepare`, `Pcap.RefusedAtEnd`.

## Model

| member | source | states |
|---|---|---|
| `Grep.NfaGrep` | c-study/dfa-about/nfa.c:365-395 | for every expression the compiler can run on and every list of strings: the answer is an error exactly if the expression is too long or has no parse tree, and otherwise says of each string whether it is in the language |
| `Grep.DfaGrep` | c-study/dfa-about/bounded-mem-dfa.c:512-542 | the same answers through the bounded cache, for every limit of at least one DFA state, the cache being kept from one string to the next |
| `Grep.Compile` | c-study/dfa-about/nfa.c:377-389 | parser and compiler together: the graph accepts exactly the 7-bit words of the expression |
| `Grep.RunnableExactly` | c-study/dfa-about/nfa.c:215-276 | the compiler's stack of 1000 neither under- nor overflows exactly if the expression has no literal dot and needs at most that many fragments |
| `Grep.SlippedThrough` | c-study/dfa-about/nfa.c:41-102 | the empty expression and one trailing bar pass the parser, and make the compiler pop an empty stack |
| `Grep.SevenBitExactly` | c-study/dfa-about/nfa.c:348-363 | the strings that the compiled graph accepts are exactly the words of the expression if and only if all its literals are 7-bit: a larger byte is stored sign-extended (line 233) and never equals a character read |
| `Grep.TwoNodes` | c-study/dfa-about/bounded-mem-dfa.c:446-456 | with room for two DFA states, the start of `(a?b?)*` and the step past an `a` get two nodes of the tree for one set of NFA states, whatever the sort does to lists of three |
| `TwoOrders.TwoLists` | c-study/dfa-about/bounded-mem-dfa.c:474-493 | in every automaton of that expression the start and the step past an `a` leave the same three states in two orders, also after the first list was rearranged |
| `Re2Post.Re2Post` | c-study/dfa-about/nfa.c:24-102 | the parser with its buffer and paren stack returns what the machine of counters computes, and stays inside buffer and stack |
| `Re2Post.Parser.Read` | c-study/dfa-about/nfa.c:42-92 | one character changes counters, stack and output like one step of that machine, and fails where the step does |
| `Re2Post.TreeParses` | c-study/dfa-about/nfa.c:41-102 | every expression within the limits is accepted, and its output is the postfix form of its tree |
| `Re2Post.AcceptedHasTree` | c-study/dfa-about/nfa.c:41-102 | whatever is accepted is empty, an expression, or an expression and one trailing bar |
| `Re2Post.AcceptedExactly` | c-study/dfa-about/nfa.c:39-95 | acceptance holds if and only if the input is short enough and one of these |
| `Re2Post.RunSound` | c-study/dfa-about/nfa.c:41-93 | after any prefix, counters, stack and output are explained by well-formed partial trees, one level for each open parenthesis |
| `Re2Post.OutputRoom` | c-study/dfa-about/nfa.c:28-40 | natom never exceeds 2 and the output never outgrows twice the input, so 8000 bytes suffice |
| `Postfix.StackSafeExactly` | c-study/dfa-about/nfa.c:218-269 | for the postfix form of a tree the stack neither under- nor overflows if and only if no literal is a dot and at most 1000 fragments are needed; then one fragment is left, of the tree's expression |
| `Postfix.StrayBarUnderflows` | c-study/dfa-about/nfa.c:242-247 | a trailing bar, or nothing at all, makes the compiler pop an empty stack |
| `RegexSyntax.NonAsciiWord` | c-study/dfa-about/nfa.c:41-91 | an expression with a literal above 127 denotes some word that is not 7-bit |
| `Nfa.Nfa.Post2Nfa` | c-study/dfa-about/nfa.c:214-276 | for any postfix string that keeps the stack in bounds: NULL unless one fragment is left; otherwise the graph is complete and holds an automaton of the expression denoted, ending in the matching state |
| `Nfa.Nfa.Patch` | c-study/dfa-about/nfa.c:185-195 | every dangling arrow of the list, threaded through the arrows themselves, ends up pointing to the given state, and nothing else changes |
| `Nfa.Nfa.Append` | c-study/dfa-about/nfa.c:197-208 | the last slot of the first list links to the second, and nothing else changes |
| `Nfa.Nfa.Switch` | c-study/dfa-about/nfa.c:231-265 | each operator turns the top fragments into one for the larger expression, and every other fragment keeps its expression and its dangling arrows |
| `Fragments.Catenate` | c-study/dfa-about/nfa.c:236-241 | patching the first fragment to the second makes one fragment of the concatenation; all live fragments' arrows stay disjoint and every loose arrow is in one of them |
| `Fragments.Alternate` | c-study/dfa-about/nfa.c:242-247 | a split in front of two fragments, whose arrow lists are joined, is a fragment of the alternation |
| `Fragments.ZeroOrOne` | c-study/dfa-about/nfa.c:248-252 | a split that can skip the fragment is a fragment of the option |
| `Fragments.Loop` | c-study/dfa-about/nfa.c:253-264 | looping the fragment back through a split makes fragments of the two repetitions, cycle included |
| `Fragments.Finished` | c-study/dfa-about/nfa.c:268-273 | the last patch leaves no loose arrow in the whole graph |
| `NfaGraph.PatchedFragment` | c-study/dfa-about/nfa.c:185-195 | patching the exits of a fragment to a state makes an automaton that continues there |
| `NfaGraph.WordsPass` | c-study/dfa-about/nfa.c:214-276 | a 7-bit word of the expression takes its automaton from start to continuation, through cycles as well |
| `NfaGraph.PassesAreWords` | c-study/dfa-about/nfa.c:214-276 | conversely what is accepted from the start of an automaton begins with a 7-bit word of the expression and goes on from the continuation |
| `NfaGraph.AutomatonAccepts` | c-study/dfa-about/nfa.c:214-276 | an automaton that continues at the matching state accepts exactly the 7-bit words of its expression |
| `Nfa.Nfa.AddState` | c-study/dfa-about/nfa.c:312-326 | appends in the order of the search; terminates on cyclic graphs because unmarked states get fewer; adds exactly the labeled states newly reached by unlabeled arrows, none twice, and stays inside the buffer of nstate entries |
| `Nfa.Nfa.StartList` | c-study/dfa-about/nfa.c:290-298 | the list holds, once each, the states reached from the start without reading, in the order of the search |
| `Nfa.Nfa.Step` | c-study/dfa-about/nfa.c:328-346 | the next list holds, once each, the closed step of the first by the character, in the order that the order of the first gives |
| `Nfa.Nfa.Match` | c-study/dfa-about/nfa.c:348-363 | swapping two lists while reading, the answer is whether the graph accepts the string |
| `Nfa.Nfa.IsMatch` | c-study/dfa-about/nfa.c:300-310 | whether the matching state is in the list |
| `Simulation.MarkedIsClosure` | c-study/dfa-about/nfa.c:312-326 | a marking that is closed under unlabeled arrows, contains the origins and nothing unreachable, marks exactly the closure |
| `Simulation.SimDecides` | c-study/dfa-about/nfa.c:348-363 | the matching state is in the set after a word exactly if the graph accepts the word |
| `Simulation.ListRoom` | c-study/dfa-about/bounded-mem-dfa.c:536-537 | a list of labeled states has fewer entries than the graph has states, provided there is a split: so nstate entries suffice although the matching state is not counted |
| `Simulation.NoSplitList` | c-study/dfa-about/bounded-mem-dfa.c:536-537 | without a split no list has more than one entry |
| `DfaCache.Cache.Match` | c-study/dfa-about/bounded-mem-dfa.c:495-510 | following cached edges and computing missing ones gives the answer of the NFA, also when the cache is flushed and the node underfoot recycled in the middle |
| `DfaCache.Cache.QueryAll` | c-study/dfa-about/bounded-mem-dfa.c:538-540 | any sequence of queries on one cache is answered right |
| `DfaCache.Cache.NextState` | c-study/dfa-about/bounded-mem-dfa.c:488-493 | returns a node of the tree whose list is the closed step of the given one, and keeps the cache invariant |
| `DfaCache.Cache.DStateFor` | c-study/dfa-about/bounded-mem-dfa.c:439-472 | returns a node of the tree whose list is that of the simulation as the sort leaves it, and keeps the cache invariant; if the list has a node, or there is room for one, every node that was there stays, with its list |
| `DfaCache.Cache.Create` | c-study/dfa-about/bounded-mem-dfa.c:458-471 | below the limit the new node joins the others, whose lists and edges stay but for the one edge recorded to it; at the limit the tree becomes the new node alone, and no edge is recorded |
| `DfaCache.Cache.Locate` | c-study/dfa-about/bounded-mem-dfa.c:447-456 | the walk finds the node whose list is equal, or the pointer where it belongs, and then no node of the tree has the list |
| `DfaCache.Cache.FreeCache` | c-study/dfa-about/bounded-mem-dfa.c:426-433 | all nodes of the tree go to the free list, once each |
| `DfaCache.Cache.AllocDState` | c-study/dfa-about/bounded-mem-dfa.c:393-409 | reuses a free node if there is one, with its links cleared |
| `DfaCache.Cache.NodeMeans` | c-study/dfa-about/bounded-mem-dfa.c:353-360 | every edge of a node of the tree leads to a node of the tree whose list is the list that the step leaves, as the sort rearranges it, of the states of the closed step |
| `DfaCache.Cache.SameNodeExactly` | c-study/dfa-about/bounded-mem-dfa.c:446-456 | two nodes in the tree for lists that the simulation left are the same node if and only if the lists were equal; their sets are equal if and only if those of the lists were |
| `DfaCache.Cache.StepTwice` | c-study/dfa-about/bounded-mem-dfa.c:488-493 | two steps that between them have room for the lists that have no node yet, so that nothing is thrown away, end in the same node if and only if they leave the same list, order included |
| `DfaCache.Cache.OneNodePerList` | c-study/dfa-about/bounded-mem-dfa.c:447-456 | no two nodes of the tree hold the same list; nor the same set, were their lists in address order as the comment intends |
| `DfaCache.Cache.AllocationBound` | c-study/dfa-about/bounded-mem-dfa.c:393-409 | the nodes ever allocated never exceed maxstates |
| `DfaCache.ListCmp` | c-study/dfa-about/bounded-mem-dfa.c:362-378 | the comparison loop computes the order by length, then by the first differing address |
| `CacheTree.CmpEqual` | c-study/dfa-about/bounded-mem-dfa.c:362-378 | lists compare equal exactly if they are equal, addresses being distinct |
| `StateOrder.ArrangeApart` | c-study/dfa-about/bounded-mem-dfa.c:380-389 | a sort that sees only positions rearranges by length alone, so it leaves different lists different |
| `CacheTree.SearchComplete` | c-study/dfa-about/bounded-mem-dfa.c:447-456 | a list that is in the tree at all is below the place where the walk stands |
| `CacheTree.NodeAdded` | c-study/dfa-about/bounded-mem-dfa.c:464-468 | hanging a node from the free list or the allocator into the hole keeps order, edges and the division of the nodes |
| `CacheTree.Flushed` | c-study/dfa-about/bounded-mem-dfa.c:411-433 | after a flush every node is free, once |
| `RingQueue.EnqueueIs` | c-study/cthreadpool/threadpool.c:85-107 | enqueueing appends to the contents, and fails exactly on a full ring: the check for a non-NULL cell never fires |
| `RingQueue.DequeueIs` | c-study/cthreadpool/threadpool.c:115-141 | dequeueing removes the oldest element, and fails exactly on an empty ring |
| `RingQueue.Queue.Put` | c-study/cthreadpool/threadpool.c:85-107 | the method on head, tail, count and cell array does the same |
| `RingQueue.Queue.Take` | c-study/cthreadpool/threadpool.c:115-141 | likewise |
| `PoolRuns.InitQueues` | c-study/cthreadpool/threadpool.c:389-404 | initialisation enqueues every task cell without error |
| `PoolRuns.InvKept` | c-study/cthreadpool/threadpool.c:187-517 | every step of every thread keeps the whole invariant |
| `PoolRuns.RunKeeps` | c-study/cthreadpool/threadpool.c:187-517 | so does every run, of any interleaving |
| `PoolSafety.OnePlace` | c-study/cthreadpool/threadpool.c:187-517 | in every reachable state each task cell is in exactly one place: free ring, task ring, one worker's or one producer's hands, or lost with a NULL routine; the lost ones are as many as the NULL routines met |
| `PoolSafety.NothingFails` | c-study/cthreadpool/threadpool.c:85-141 | in every reachable state no thread has ended on an error, and no enqueue or dequeue about to be made fails |
| `PoolSafety.FirstComeFirstServed` | c-study/cthreadpool/threadpool.c:218-221 | the jobs workers find, in the order they take them, are the first of the jobs accepted; the rest wait in the ring, in order |
| `PoolSafety.HandledOnce` | c-study/cthreadpool/threadpool.c:259-265 | each job taken was handled once, by a call of its own routine on its own data as accepted, or is in the hands of exactly one worker |
| `PoolCalls.CallsAccounted` | c-study/cthreadpool/threadpool.c:430-517 | every run has an account of the calls of threadpool_add_task: the accepted jobs are, in the order of the enqueues, the tasks of calls of the run, each of the thread whose last call it is; the calls refused do not block and found no free cell; every call of the run is in just one of the two, once, or still being made, as it was made; and a thread waits only for a call that blocks |
| `PoolCalls.HandledAsAsked` | c-study/cthreadpool/threadpool.c:259-265 | each call of a routine is one that some caller asked for, on the data it gave, and no two are for the same call |
| `PoolCalls.CallerSteps` | c-study/cthreadpool/threadpool.c:430-517 | a step of a caller leaves its call as it is, puts its task into the queue, or refuses it, and only a call that does not block while no cell is free |
| `PoolCells.FreeCellsEmpty` | c-study/cthreadpool/threadpool.c:266-267 | in every reachable state the free cells, and those in hands between being cleared and being filled, have neither routine nor data |
| `PoolSafety.NoLostWakeup` | c-study/cthreadpool/threadpool.c:203-213 | while a mutex is free, a thread waiting un-woken implies that its queue is empty, although broadcasts are made only at size one |
| `PoolSafety.NoDeadlock` | c-study/cthreadpool/threadpool.c:187-517 | before stopping, no thread can go on exactly if every worker waits, nothing is queued and no caller is inside (or all cells are lost); every accepted job has then been handled once |
| `PoolSafety.StopGoesOn` | c-study/cthreadpool/threadpool.c:316-357 | after the broadcast no worker waits or is about to, and some thread can go on until the pool is freed |
| `PoolFair.FairFrees` | c-study/cthreadpool/threadpool.c:316-357 | from every reachable state in which the pool is being stopped, an infinite run passes over no thread that can step again and again if and only if it frees the pool |
| `PoolFair.Release` | c-study/cthreadpool/threadpool.c:187-517 | in a fair run every mutex is free again and again, or the pool is freed |
| `PoolFair.Progress` | c-study/cthreadpool/threadpool.c:316-357 | in a fair run, once the workers are told, they and the stopping thread come closer to their ends, until the pool is freed |
| `PoolEnd.StopEnds` | c-study/cthreadpool/threadpool.c:316-357 | from every reachable state in which the pool was told to stop, some run of steps of its threads alone, of at most 11 steps for each worker and 8 more, ends with the pool freed |
| `PoolEnd.Closer` | c-study/cthreadpool/threadpool.c:316-357 | while the pool stops, a step of a worker, of the stopping thread or of a producer that holds a mutex brings the end closer, by a measure of all their places |
| `PoolSafety.FewSteps` | c-study/cthreadpool/threadpool.c:241-305 | after the broadcast a worker makes at most ten more steps, in whatever run |
| `PoolSafety.FreedAfterAll` | c-study/cthreadpool/threadpool.c:345-355 | the pool is freed only when every worker has ended, and no worker steps afterwards |
| `PoolSteps.WorkerWakeupsByStep` | c-study/cthreadpool/threadpool.c:203-213 | no step loses a wake-up of a worker |
| `PoolSteps.ProducerWakeupsByStep` | c-study/cthreadpool/threadpool.c:447-469 | no step loses a wake-up of a producer |
| `PoolSteps.LocksByStep` | c-study/cthreadpool/threadpool.c:187-517 | which thread holds a mutex is always the one whose place says so |
| `PoolSteps.CellsByStep` | c-study/cthreadpool/threadpool.c:187-517 | every step conserves the cells |
| `Des.PermutationsInverse` | c-study/des/des2.c:364-389 | each of initial and final permutation undoes the other, on every block |
| `Des.RoundUndoes` | c-study/des/des2.c:396-406 | a round on the flipped halves undoes it, whatever the tables |
| `Des.RoundsUndo` | c-study/des/des2.c:396-406 | any number of rounds is undone by the same rounds with the subkeys reversed |
| `Des.CryptUndoes` | c-study/des/des2.c:544-566 | decryption undoes encryption for every block and every list of subkeys |
| `Des.WriteRead` | c-study/des/des2.c:411-419 | writing the words read from a block gives the block |
| `DesKeys.SubkeyAt` | c-study/des/des2.c:463-515 | subkey i is permuted choice 2 of the halves after i + 1 rotations |
| `DesKeys.ParityIgnored` | c-study/des/des2.c:438-451 | the lowest bit of each key byte has no effect on any subkey |
| `DesSymmetry.DualSchedules` | c-study/des/des2.c:254-319 | two keys whose halves have period two and lie one rotation apart have reversed schedules |
| `DesSymmetry.WeakKeysCancel` | c-study/des/des2.c:254-319 | encrypting under a semi-weak key and then its partner, or twice under a weak key, is the identity, for all sixteen of them |
| `DesSymmetry.PalindromeInvolution` | c-study/des/des2.c:544-566 | any key with a palindromic schedule makes encryption an involution |
| `DesSymmetry.Complementation` | c-study/des/des2.c:544-566 | complementing key and block complements the result, whatever the tables |
| `DesContext.KeySchedule` | c-study/des/des2.c:432-516 | the loop fills 32 words with the subkeys, from any index of the array, and leaves the rest alone |
| `DesContext.SixteenRounds` | c-study/des/des2.c:554-561 | the alternating rounds on two words are sixteen rounds, each on the halves the one before left |
| `DesContext.DesCtx.SetKey` | c-study/des/des2.c:519-531 | the decryption subkeys are the encryption subkeys, pairwise reversed |
| `DesContext.DesCtx.EcbCrypt` | c-study/des/des2.c:544-566 | the block written is the cipher of the block read under the subkeys of the mode, also in place; `DesWordStandard.DesIsStandard` says what the cipher is |
| `DesContext.FusedIsThree` | c-study/des/des2.c:615-655 | the 48 rounds between one pair of permutations are three runs of the whole cipher |
| `DesContext.TripleIs` | c-study/des/des2.c:615-655 | encryption is E(k1), D(k2), E(k3) and decryption D(k3), E(k2), D(k1), for all keys and blocks |
| `DesContext.TripleUndoes` | c-study/des/des2.c:615-655 | each mode undoes the other |
| `DesContext.TripleCollapses` | c-study/des/des2.c:615-655 | with one key three times Triple-DES is DES, in both modes |
| `DesContext.TripleCtx.Set3Keys` | c-study/des/des2.c:592-613 | the three-key setup fills both arrays with the schedules and their reversals |
| `DesContext.TripleCtx.Set2Keys` | c-study/des/des2.c:568-590 | the two-key setup leaves the subkeys of the three-key setup with the first key as third |
| `DesContext.TripleCtx.EcbCrypt` | c-study/des/des2.c:615-655 | the block written is the fused cipher of the block read, also in place; `DesAgree.TripleIsStandard` says what it is |
| `DesWordStandard.InitialIs` | c-study/des/des2.c:364-373 | bit by bit, the words after the initial permutation are those of the standard, each rotated by one place to the left |
| `DesWordStandard.KeyIs` | c-study/des/des2.c:438-461 | bit by bit, the halves of the key are those of permuted choice 1 |
| `DesWordStandard.KeyTurns` | c-study/des/des2.c:464-469 | after the rotations of each round they are the halves of the standard |
| `DesWordStandard.ChosenIs` | c-study/des/des2.c:471-515 | bit by bit, the two words of a subkey are permuted choice 2, six bits for each table, the tables of even number in the first word |
| `DesWordStandard.ScheduleHolds` | c-study/des/des2.c:432-516 | the subkeys are the keys of the sixteen rounds of the standard |
| `DesWordStandard.EvenAsk` | c-study/des/des2.c:397-401 | tables 8, 6, 4 and 2 are asked for the six bits, cyclically consecutive, that the expansion gives them, each added to its bit of the subkey |
| `DesWordStandard.OddAsk` | c-study/des/des2.c:402-406 | so are tables 7, 5, 3 and 1, from the word rotated by four places |
| `DesWordStandard.MixHolds` | c-study/des/des2.c:396-406 | what a round adds is the function f of the standard, if the tables are those of the standard, permuted and rotated |
| `DesWordStandard.DesIsStandard` | c-study/des/des2.c:544-566 | for every key and block, encryption and decryption are those of FIPS PUB 46-2, for tables that correspond to its tables |
| `DesAgree.TripleIsStandard` | c-study/des/des2.c:615-655 | Triple-DES in both modes is the three passes of the standard's cipher |
| `DesAgree.SomeCorrespond` | c-study/des/des2.c:103-106 | for whatever tables the standard has there are tables, permuted and rotated, that correspond to them |
| `DesHash.FinalUndoes` | c-study/des/des.c:624-683 | the final map undoes the half-swap after the initial one, on every block of 64 bits, and the other way round |
| `DesHash.ShiftRotatesExactly` | c-study/des/des.c:370-421 | the shift is a rotation of both 28-bit halves if and only if no bit that was not set aside with the first byte comes round as a one; so always up to eight places |
| `DesHash.NinthBitLost` | c-study/des/des.c:370-421 | a shift by nine is no rotation of a key whose ninth bit is one |
| `DesHash.KeyReturns` | c-study/des/des.c:627-645 | the sixteen rotations add up to 28 and bring every permuted key back to its start |
| `DesHash.RoundsUndo` | c-study/des/des.c:632-672 | any number of rounds is undone by the same rounds on swapped halves, subkeys reversed, whatever the substitution boxes |
| `DesHash.HashBijection` | c-study/des/des.c:582-683 | for every seven-byte key the hash is a bijection of eight-byte blocks: the inverse is given, from both sides |
| `DesHashBytes.Permute` | c-study/des/des.c:324-368 | clearing the bytes and then setting bits leaves the bits of the source picked by the map, and nothing else changes |
| `DesHashBytes.KeyShift` | c-study/des/des.c:370-421 | the byte-by-byte shift with its kept byte leaves the key shifted so many times |
| `DesHashBytes.Substitute` | c-study/des/des.c:423-497 | each six bits are replaced by the four bits of the entry they number |
| `DesHashBytes.HashRound` | c-study/des/des.c:632-672 | one pass of the loop turns the key on and makes one round of the block in place, under subkey i |
| `DesHashBytes.HashInto` | c-study/des/des.c:582-683 | the bytes written are the hash of key and data as they were, also when written over one of them; the rest of the buffer stays |
| `DesHashBytes.Key8to7` | c-study/des/des.c:531-580 | the seven bytes written are the key without its parity bits, also in place |
| `DesHashStandard.InitialIs` | c-study/des/des.c:117-126 | the initial map has the positions of the standard |
| `DesHashStandard.FinalIs` | c-study/des/des.c:269-278 | the final map has those of the inverse permutation, the halves exchanged |
| `DesHashStandard.ExpansionIs` | c-study/des/des.c:180-187 | each table gets four bits of the half and one of each neighbour, cyclically |
| `DesHashStandard.PBoxIs` | c-study/des/des.c:251-256 | the bits of the tables are permuted as in the standard |
| `DesHashStandard.SubkeysAre` | c-study/des/des.c:141-171 | the subkeys of a seven-byte key are the round keys of the standard for the key with parity bits put in |
| `DesHashStandard.MixIs` | c-study/des/des.c:648-661 | expansion, substitution and permutation are the function f of the standard |
| `DesHashStandard.WideKey` | c-study/des/des.c:531-580 | every seven-byte key is an eight-byte key without its parity bits |
| `DesHashStandard.HashIsStandard` | c-study/des/des.c:582-683 | for every key and block the hash is the block enciphered as FIPS PUB 46-2 says |
| `DesAgree.SameCipher` | c-study/des/des.c:582-683 | both programs compute the same: the hash under the key without parity bits is the encryption of des2.c under the key, for tables that correspond |
| `DesAgree.DecryptsHash` | c-study/des/des2.c:544-566 | the decryption of des2.c undoes the hash |
| `ByteBits.OctetsOfBits` | c-study/des/des.c:286-318 | bytes are determined by their bits, counted from the highest of the first byte |
| `Autograd.Tape.Backward` | gpt/microgpt.c:175-232 | for any graph with sharing and repeated arguments, every value the root depends on ends with the derivative of the root by it; all others keep their gradient |
| `Autograd.Tape.BuildTopo` | gpt/microgpt.c:163-173 | the recursive search with flags lists what the depth-first search of the graph lists |
| `Autograd.Tape.Propagate` | gpt/microgpt.c:190-231 | each operation adds to its arguments their local derivatives times its gradient, also when both are the same value |
| `Autograd.Tape.Add` | gpt/microgpt.c:87-94 | sum rule: the forward derivative of the new value by every older one |
| `Autograd.Tape.Sub` | gpt/microgpt.c:96-104 | difference rule, through a negated value and a sum |
| `Autograd.Tape.Mul` | gpt/microgpt.c:106-113 | product rule |
| `Autograd.Tape.Power` | gpt/microgpt.c:115-122 | power rule for a constant exponent |
| `Autograd.Tape.VLog` | gpt/microgpt.c:124-130 | logarithm rule |
| `Autograd.Tape.VExp` | gpt/microgpt.c:132-138 | exponential rule |
| `Autograd.Tape.Relu` | gpt/microgpt.c:140-146 | the derivative passes exactly where the argument is positive |
| `Autograd.Tape.MulConst` | gpt/microgpt.c:148-156 | product with a constant, although the constant is created after the product |
| `Autograd.Tape.ZeroTape` | gpt/microgpt.c:43-47 | emptying the arena leaves the weights alone, with no flag set and no gradient but theirs |
| `Autograd.Tape.Pass` | gpt/microgpt.c:565-567 | setting the weights' gradients to zero and going back leaves in every value the derivative of the root by it, zero where there is none, and the tape ready to be emptied |
| `Autograd.Tape.SquareTwice` | gpt/microgpt.c:528-567 | a second step after a first finds the derivative of the square of a weight again, not its double |
| `GradGraph.Prefix` | gpt/microgpt.c:50-64 | values made later change no derivative of an earlier one |
| `GradGraph.TopoIs` | gpt/microgpt.c:163-173 | the search lists exactly what the root reaches, each value once and after its arguments, the root last |
| `GradGraph.SweepInvariant` | gpt/microgpt.c:185-231 | while the sweep comes down the list, passed values have their final gradient, and to every other the rest of the list owes all of its derivative |
| `GradGraph.SweepIsDerivative` | gpt/microgpt.c:175-232 | the backward sweep computes the forward chain-rule derivative |
| `GradGraph.OwesNothing` | gpt/microgpt.c:185-231 | no value earlier in the list changes the gradient of a later one: it is final when read |
| `PyAutograd.Backward` | gpt/microgpt.py:58-72 | the sweep over stored local gradients leaves the same derivatives |
| `PyAutograd.Pass.BuildTopo` | gpt/microgpt.py:61-66 | the search with a set of visited values lists what the depth-first search of the graph lists |
| `Brainfuck.Parse` | c-study/brainfuck/brainfuck.c:315-382 | for every program with matched brackets the parser builds the folded form, and stops at the end or at the closing bracket |
| `Brainfuck.ReadRun` | c-study/brainfuck/brainfuck.c:330-361 | a run is read to its end, its difference counted modulo the word size |
| `Brainfuck.Interpret` | c-study/brainfuck/brainfuck.c:315-526 | from text to final context, with no bound on the rounds: where the characters, run one by one, never leave the tape, the program ends in the tape, index, output and input position they end in, if every run of moves ever reached nets in its first direction and within the bounds check; and it stops with an error if one does not |
| `Brainfuck.PrintingRun` | c-study/brainfuck/brainfuck.c:509-512 | a run of n dots appends the current cell n times to the output, and changes nothing else |
| `Brainfuck.ReadingRun` | c-study/brainfuck/brainfuck.c:513-516 | a run of n commas leaves the last of n bytes read in the current cell, and changes no other cell and no output |
| `Brainfuck.CountingRun` | c-study/brainfuck/brainfuck.c:485-490 | a run of plus and minus changes the current cell alone, modulo 256, by what is ahead |
| `Brainfuck.MovingRun` | c-study/brainfuck/brainfuck.c:491-508 | a run of moves that stays on the tape moves by what is ahead, and changes nothing else |
| `Brainfuck.OutputGrows` | c-study/brainfuck/brainfuck.c:477-526 | for every program that ends, within any bound: what was written stays, every byte added is between 0 and 255, and no input is read twice |
| `Brainfuck.LoopEndsOnZero` | c-study/brainfuck/brainfuck.c:517-520 | a loop ends on a zero cell, and does nothing on one |
| `Brainfuck.FoldForever` | c-study/brainfuck/brainfuck.c:477-526 | where the characters never leave the tape, the folded program does what they do, for as long as they go on, if and only if every run of moves ever reached does so, and if and only if it never falls |
| `Brainfuck.FoldExactly` | c-study/brainfuck/brainfuck.c:477-526 | the same for the rounds up to any bound |
| `Brainfuck.MoreFuel` | c-study/brainfuck/brainfuck.c:508-522 | a program that ends or falls within a bound does the same under every greater one |
| `Brainfuck.EndsOnce` | c-study/brainfuck/brainfuck.c:477-526 | a program ends in one state only |
| `Brainfuck.EndsOrFalls` | c-study/brainfuck/brainfuck.c:477-526 | a program that ends does not leave the tape under any bound |
| `Brainfuck.StraightOrNot` | c-study/brainfuck/brainfuck.c:477-526 | for a program that ends, the runs of moves ever reached are those reached within the bound it ends in |
| `Brainfuck.FoldAgrees` | c-study/brainfuck/brainfuck.c:477-526 | where the characters stay on the tape, the folded program does what they do, or stops with an error if some run of moves that is reached nets backwards or too far |
| `Brainfuck.ReturningRunPasses` | c-study/brainfuck/brainfuck.c:330-361 | a run that leaves the tape and comes back falls character by character, and passes once folded |
| `Brainfuck.ActExactly` | c-study/brainfuck/brainfuck.c:484-507 | one folded run does what its characters do if and only if a run of moves nets in its first direction and within the bounds check |
| `Brainfuck.FoldFalls` | c-study/brainfuck/brainfuck.c:491-507 | any other run of moves ends the folded program with an error where the characters go on |
| `Brainfuck.BackwardsRunFalls` | c-study/brainfuck/brainfuck.c:491-507 | one cell right and two left, from the second of three cells, is such a run |
| `Brainfuck.Context.Execute` | c-study/brainfuck/brainfuck.c:477-526 | the executor on the tape computes what the semantics of the folded form says, for every execution that comes to an end |
| `NextBigger.SnoobLeast` | c-study/leetcode/next_bigger.c:8-37 | for a nonzero word with room above its lowest one bit both functions give the least greater number with as many ones |
| `NextBigger.NoRoomNoNext` | c-study/leetcode/next_bigger.c:8-37 | without that room no greater word has as many ones |
| `NextBigger.SnoobIs` | c-study/leetcode/next_bigger.c:8-75 | the sum and the or of the last step are the same, since the two parts share no bits |
| `Lcs.LongestCommon` | c-study/dynamic_p/lcs_01.c:18-36 | the result is the length of a common subsequence, and of no shorter one than any other |
| `Lcs.NoneLonger` | c-study/dynamic_p/lcs_01.c:18-36 | no common subsequence of two prefixes is longer than their table entry |
| `Knapsack.BestWorth` | c-study/dynamic_p/knapsack_01.c:5-52 | the result is the worth of a choice of items within the capacity, for all weights of at least zero; if none is zero, no such choice is worth more |
| `Knapsack.OptimalExactly` | c-study/dynamic_p/knapsack_01.c:5-52 | for given weights the table is optimal for every capacity and all values if and only if no item has weight 0 |
| `Knapsack.WeightZeroMissed` | c-study/dynamic_p/knapsack_01.c:20-42 | with an item of weight 0 the column for capacity 0, which is never filled, misses a choice that is worth more |
| `Knapsack.WeightZeroMissedLater` | c-study/dynamic_p/knapsack_01.c:20-42 | so with weights 0 and 1, values 5 and 7 and a capacity of 1 the result is 7, where 12 is possible |
| `Pcap.Reader.Prepare` | pcap_modidy/ewx_pcap.c:307-325 | moving the window never moves the position; a request is granted exactly if it ends inside the window or before the last byte of the file; granted requests up to a window less a page lie in the window, whose bytes are those of the file; for requests of at most 2147483647 bytes, as a C int turns negative beyond |
| `Pcap.Reader.Preread` | pcap_modidy/ewx_pcap.c:38-98 | the window starts at the page of the offset, and the pointer is where the offset was |
| `Pcap.Reader.Take` | pcap_modidy/ewx_pcap.c:335-340 | a request granted is the bytes of the file at the position, which moves past them; one that ends before the last byte is granted |
| `Pcap.Reader.Read` | pcap_modidy/ewx_pcap.c:327-364 | a record is read as the length field of its header says, byte by byte in either order; a packet too long for the buffer is skipped; a record that ends before the last byte is read or skipped, unless its packet is longer than a window less a page, or than a C int, where the program may read outside its window |
| `Pcap.LengthRead` | pcap_modidy/ewx_pcap.c:257-265 | a length is read if and only if its four bytes are where the byte order puts them |
| `Pcap.Reader.ReadRecords` | pcap_modidy/ewx_pcap.c:327-364 | any number of records that end before the last byte and are no longer than a window less a page, are read one after another, each with its own packet, wherever the windows fall |
| `Pcap.RecordsWritten` | pcap_modidy/ewx_pcap.c:327-364 | records written one after another, with more bytes behind them, are the records of the file |
| `Pcap.Open` | pcap_modidy/ewx_pcap.c:119-176 | a file opens exactly if it begins with the number of a capture file in one of the two byte orders, and that order is taken |
| `Pcap.ReadBack` | pcap_modidy/ewx_pcap.c:119-364 | a file written in either byte order, with at least one byte behind its records, is read back packet by packet |
| `Pcap.Reader.Rewind` | pcap_modidy/ewx_pcap.c:233-255 | after any reads, rewinding goes back to the first record |
| `Pcap.ReadTwice` | pcap_modidy/ewx_pcap.c:233-364 | reading, rewinding and reading again gives the same packets |
| `Pcap.ReadWithin` | pcap_modidy/ewx_pcap.c:307-325 | a file that fits into one window is never mapped again, and can be read to its last byte |
| `Pcap.RefusedAtEnd` | pcap_modidy/ewx_pcap.c:311-314 | of a file of 96 bytes, read through windows of 64, the packet that ends with the file is refused |

## Left out

- Regular expressions: `main`, its messages and `strlen`; failure of `malloc`; overflow of `listid`
  and `nstate` as C integers; addresses are an injective numbering of allocations.
- Regular expressions: literal dots, the empty expression, a trailing bar and more than 1000 stacked
  fragments, on which the C program has undefined behaviour; `Grep.Runnable` excludes them, and
  `Grep.RunnableExactly` and `Grep.SlippedThrough` say exactly which inputs these are.
- c-study/dfa-about/dfa.c: its cache has no limit and no flush, and `nextstate` (c-study/dfa-about/dfa.c:481-486)
  records the edge after every step, also to a node that was found, where the bounded `dstate` records it only for a
  new node.
- c-study/dfa-about/nfa2dfa.c: interactive, and its table test answers 1 both for "not found" and for
  "found at index 1".
- DfaCache.Cache.SortList: which rearrangement qsort makes of a list of each length is a parameter.
- Thread pool: the pool and its threads are values, not a class, because several threads share them
  between steps; the ring queue is also a class.
- Thread pool: failing pthread calls, failing initialisation, routines that themselves add tasks, and
  callers still inside `threadpool_add_task` when the pool is freed.
- PoolFair.FairFrees: that the scheduler and the mutexes of the system are fair is its assumption, not its claim.
- Des.Mix: the substitution tables are a parameter, so none of their entries is modelled; the comparisons with the
  standard are for tables that correspond to its tables, and `DesAgree.SomeCorrespond` has such tables.
- c-study/des/des2.c: the search in the weak-key table and the checks of key lengths.
- DesHash.Mix: the substitution boxes are a parameter here too, as nothing depends on their entries.
- Autograd: floats are reals; `powf`, `logf`, `expf` and the reciprocal are parameters, so rounding and
  infinities are not modelled; the arena has no fixed size, and values made after `zero_tape` are new objects.
- Autograd.Tape.Param: registers every weight. `new_param` (gpt/microgpt.c:67-84) registers only the first
  MAX_PARAMS, 10000; the flag and gradient of a later one would never be reset, so a second pass over it would be
  wrong there.
- Autograd.Tape.Backward: is for values whose flags are clear and whose gradients are zero, which
  `Autograd.Tape.ZeroTape` and the operations establish; a second pass over the same inner values is left out, as the
  program makes none.
- PyAutograd: the operators of the Python class; `Autograd` has the same rules.
- The rest of `microgpt`: layers, sampling, optimiser.
- Brainfuck.Run and Brainfuck.Exec: take a bound on loop rounds, since programs may not end; `Brainfuck.MoreFuel` says
  that it does not matter.
- Brainfuck.Interpret: is for programs that end, or that fall once folded.
- Brainfuck: unmatched brackets, the list-editing functions, the stream parser and `brainfuck1.c`; the
  three equal loops over runs are one method, and the list of instructions is a sequence.
- Knapsack.BestWorth: is for weights of at least zero; a negative one makes the C program read outside its table.
- NextBigger: the printing of `next_greater`.
- Pcap: opening and closing, time stamps and original lengths, and failing `mmap`.
- Pcap.Reader.Read: ends with `Outside` where the program goes on past its window or with a negative length.
- Pcap.Reader.Prepare: its length is a natural number. The parameter of the program is an int, so a header length of
  2^31 or more turns negative there (pcap_modidy/ewx_pcap.c:307-314), and the request is decided by a sum that went
  down, or wrapped around.
- `knapsack_02.c`, `list.h`, sieve, primes, checksums: easier than what is here.
- QUIC, DNS, kernel drivers, eBPF, sockets, event loops, pattern-matching libraries, generated parsers: input and
  output, calls into other libraries, or generated code.
