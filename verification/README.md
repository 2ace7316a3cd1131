# Virtual DOM, copying collection, the ZINC machine and its host loop, verified

Four components of the repository, each modelled as the code runs and proved against a specification of one line.

**Virtual DOM** (`VirtualDom.js`).  The difference of two views is a list of patches numbered in pre-order; a search
that skips subtrees finds their DOM nodes; applying them edits the document in place.  Lazy nodes cache what their
functions return, and keyed children are matched by a scan that looks one key ahead.  The specification: the document
shows the new view.  It holds exactly for *sound* pairs of views (`VdomSound.Sound`), a condition that can be read off
the two views; for the unsound ones the code's behaviour is exhibited.  Views that keep simple rules
(`VdomTame.Tame`) are always sound, in every order.

**Copying collector** (`gc.c`).  Objects of one space are copied to pages of another by walking a linked queue of
pages, with forwarding addresses in headers, a frontier inside the last page, and pages whose walk is put off.  The
specification: the new heap is isomorphic to what the roots reach.  Putting off walks would lose objects if a run of
pages could end where an earlier one begins.  The search for free pages never lets that happen: it stands behind a page
in use (`GcCollect.Heap.Trailing`), which is so at the start and stays so through allocations and collections.  Nor does
a collection fail while the reservation has room for the heap to grow.  What the program reads from its roots on is the
same before and after.

**ZINC machine** (`zincvm.c`).  Expressions are laid out as instructions by the emission table (`plan.md`), and a loop
runs them with an environment, a stack with marks, and frames.  The specification: the machine computes what the
expression means, and calls in tail position use no frames.  The meaning is pinned by laws, and so are the primitives.

**Host loop** (`effectloop.zig`, and `Scheduler.js`).  Tasks are evaluated by machines of frames in a fixed table of
places that are used again; what the system answers, and when, is a parameter.  The specification is a run
(`HostState.Whole`) that the loop follows step by step, and of every such run: each task asked for is spawned once,
each message is what its task means for the answers it got and is delivered once, the model is the fold of the update
function over the messages, every answer reaches the evaluation that waits for it, and the loop does not wait while an
evaluation can go on.  The kernel's scheduler gives the same results.

| files | what they hold |
|---|---|
| `VdomObjects`, `VdomFacts`, `VdomNamespaces` | what objects inherit; facts of an element, their difference, the attributes as the DOM finds them |
| `VdomKeyedPlan`, `VdomKeyedMatch` | the look-ahead scan over keys, as a plan |
| `VdomNodes`, `VdomDiff`, `VdomSound` | nodes, what they draw, the recursive difference, when it is right |
| `VdomDocument`, `VdomPatching` | the DOM, rendering, attaching and applying as functions |
| `VdomSteps` to `VdomActions`, `VdomTurns` | what each single patch does to a tree in its document |
| `VdomReorder*` | the phases of a reorder |
| `VdomTheorem`, `VdomViews`, `VdomTame`, `VdomSnapshots` | the main results: one patch, runs, rules for views |
| `VdomNumbering`, `VdomAttaching` | indices and the search for DOM nodes |
| `VdomCaches`, `VdomSettling` | the caches of lazy nodes |
| `VdomDiffer`, `VdomPage`, `VdomProgram` | the imperative program, method by method |
| `VdomCounterexamples` | pairs of views that patching gets wrong |
| `GcWords`, `GcSpec` | words, headers, objects; the invariant of a collection |
| `GcPages`, `GcLayout` | page tables, the search, the queue, where copies lie |
| `GcPlacing`, `GcRoom`, `GcReserve` | where copies go, from their order alone; when there is room, how runs of pages lie, and growing |
| `GcCopying`, `GcScanning`, `GcDraining` | what moving, scanning and draining keep |
| `GcTracing`, `GcTrace`, `GcBegun` | what has been copied and why; a drain and a collection as a sequence of steps |
| `GcCollector`, `GcCollect`, `GcAllocating` | the collector and the heap, method by method |
| `GcHeap`, `GcReading`, `GcHeads` | the promise; what the program reads; where objects begin |
| `GcLostHeap`, `GcLostCopy`, `GcLostRuns` | heaps with the search between free pages, which lose objects |
| `ZincCode`, `ZincMachine` | expressions, their layout, the machine and its loop |
| `Tasks`, `TaskLaws`, `Scheduler` | tasks, their meaning, its laws, the machine of frames; the kernel's process |
| `HostState`, `HostRuns`, `HostAnswers` | the run of a program; what every run keeps; what becomes of answers and messages |
| `HostTables`, `HostLoop` | the loop's tables; the loop, method by method |
| `ZincMeaning`, `ZincPrims` | the meaning of expressions, that the machine computes it, the primitives |
| `ZincTerms`, `ZincLaws`, `ZincLoop` | laws of expressions and of primitives; a loop |

`dafny verify dfyconfig.toml` checks everything.

## Model

| member | source | states |
|---|---|---|
| VdomFacts.FactsPatched | elm-compiler/.elm-cache/0.19.2/packages/elm/virtual-dom/1.0.5/src/Elm/Kernel/VirtualDom.js:890-952 | On an element that shows the facts x, but for the values that its user has changed, applying the difference from x to y gives the facts that a fresh element would have from y (an entry with a default value counting as none), if and only if names are kept: an entry whose name objects inherit does not go, and does not come where there are others, and namespaced attributes keep their names |
| VdomFacts.SetAgain | elm-compiler/.elm-cache/0.19.2/packages/elm/virtual-dom/1.0.5/src/Elm/Kernel/VirtualDom.js:930-938 | Whatever the element shows, its value and checked are set again: to the new value, or to the default when only the old facts have one |
| VdomNamespaces.AttrsNSPatched | elm-compiler/.elm-cache/0.19.2/packages/elm/virtual-dom/1.0.5/src/Elm/Kernel/VirtualDom.js:555-567 | The namespaced attributes after patching are the new ones if and only if every old one is set again or is removed under its own name, no removal comes after a new pair under that name, and a new one that is passed over, its name being inherited, is shown already |
| VdomNamespaces.SetAgain | elm-compiler/.elm-cache/0.19.2/packages/elm/virtual-dom/1.0.5/src/Elm/Kernel/VirtualDom.js:930-938 | So is a namespaced attribute of one of these names that stays |
| VdomKeyedPlan.PlanGood | elm-compiler/.elm-cache/0.19.2/packages/elm/virtual-dom/1.0.5/src/Elm/Kernel/VirtualDom.js:999-1156 | The look-ahead scan and the two loops behind it give every old child one fate and enter every new child once and in order, with one extra entry precisely when the stale look-ahead was met; inserting at the recorded indices gives the new order |
| VdomKeyedPlan.DistinctOldKeys | elm-compiler/.elm-cache/0.19.2/packages/elm/virtual-dom/1.0.5/src/Elm/Kernel/VirtualDom.js:1044-1123 | With pairwise distinct old keys the stale look-ahead is never met, whatever the new keys are |
| VdomKeyedMatch.SameKey | elm-compiler/.elm-cache/0.19.2/packages/elm/virtual-dom/1.0.5/src/Elm/Kernel/VirtualDom.js:999-1244 | With distinct keys on each side, an old child turns into a new child if and only if both have the same key, wherever they are, through keeps, moves, swaps and postfixed dictionary keys; provided that no key is the postfixed form of another that is an inherited name |
| VdomNumbering.DiffInRange | elm-compiler/.elm-cache/0.19.2/packages/elm/virtual-dom/1.0.5/src/Elm/Kernel/VirtualDom.js:723-992 | Every patch of a difference has an index in the range of the node it is for |
| VdomAttaching.DiffGood | elm-compiler/.elm-cache/0.19.2/packages/elm/virtual-dom/1.0.5/src/Elm/Kernel/VirtualDom.js:723-1156 | Patches come with non-decreasing indices, each of a node of the numbered old tree, and those nested in a patch lie in the range of its node |
| VdomPage.Page.AddDomNodes | elm-compiler/.elm-cache/0.19.2/packages/elm/virtual-dom/1.0.5/src/Elm/Kernel/VirtualDom.js:1256-1259 | Attaching all patches gives each the DOM node that plain pre-order numbering gives its index |
| VdomPage.Page.AddDomNodesHelp | elm-compiler/.elm-cache/0.19.2/packages/elm/virtual-dom/1.0.5/src/Elm/Kernel/VirtualDom.js:1263-1351 | The search that skips subtrees by their counts attaches exactly the patches in its range, each to the node with its index, and stops at the first patch behind |
| VdomSettling.AllFineReady | elm-compiler/.elm-cache/0.19.2/packages/elm/virtual-dom/1.0.5/src/Elm/Kernel/VirtualDom.js:1263-1351 | In a tree that fits the old node, every patch but those of thunks is given a DOM node |
| VdomDiffer.DiffHelp | elm-compiler/.elm-cache/0.19.2/packages/elm/virtual-dom/1.0.5/src/Elm/Kernel/VirtualDom.js:723-850 | The patches pushed are those of the recursive difference; every lazy node of the new view outside other lazy nodes has its field set, rightly, or is in a node that the patches will render |
| VdomDiffer.DiffPlainKids | elm-compiler/.elm-cache/0.19.2/packages/elm/virtual-dom/1.0.5/src/Elm/Kernel/VirtualDom.js:959-992 | The loop with its running index pushes the difference of the children, and one patch for the length |
| VdomDiffer.DiffKeyedKids | elm-compiler/.elm-cache/0.19.2/packages/elm/virtual-dom/1.0.5/src/Elm/Kernel/VirtualDom.js:999-1156 | The scan over updated dictionaries, lists and indices pushes the reorder that the plan of the two key lists describes |
| VdomDiffer.KeyedDiff.InsertNode | elm-compiler/.elm-cache/0.19.2/packages/elm/virtual-dom/1.0.5/src/Elm/Kernel/VirtualDom.js:1166-1205 | Entering a new child changes the dictionary, the insertions and the patches as the plan says, a matching removal turning into a move |
| VdomDiffer.KeyedDiff.RemoveNode | elm-compiler/.elm-cache/0.19.2/packages/elm/virtual-dom/1.0.5/src/Elm/Kernel/VirtualDom.js:1208-1244 | Entering the removal of an old child does so, a matching insertion turning into a move |
| VdomDiffer.KeyedDiff.ScanOnce | elm-compiler/.elm-cache/0.19.2/packages/elm/virtual-dom/1.0.5/src/Elm/Kernel/VirtualDom.js:1016-1126 | One round of the scan is one round of the plan, and the scan stops when the plan does |
| VdomRendering.RenderDraws | elm-compiler/.elm-cache/0.19.2/packages/elm/virtual-dom/1.0.5/src/Elm/Kernel/VirtualDom.js:430-490 | Rendering builds a new tree that looks like the node and touches nothing that was there |
| VdomPage.Page.RenderNode | elm-compiler/.elm-cache/0.19.2/packages/elm/virtual-dom/1.0.5/src/Elm/Kernel/VirtualDom.js:430-490 | The document becomes that of the recursive rendering, and every lazy node in what was rendered has its field set rightly |
| VdomPage.Page.ApplyPatches | elm-compiler/.elm-cache/0.19.2/packages/elm/virtual-dom/1.0.5/src/Elm/Kernel/VirtualDom.js:1369-1382 | The loop applies the patches in order, the root of the patched part being replaced as the patches say; lazy nodes in what is rendered are set |
| VdomPage.Page.Act | elm-compiler/.elm-cache/0.19.2/packages/elm/virtual-dom/1.0.5/src/Elm/Kernel/VirtualDom.js:1384-1456 | One patch changes the document as specified for its action |
| VdomPage.Page.ReorderNode | elm-compiler/.elm-cache/0.19.2/packages/elm/virtual-dom/1.0.5/src/Elm/Kernel/VirtualDom.js:1477-1506 | A reorder takes the end inserts out first, patches, inserts at the indices, and appends |
| VdomPage.Page.TakeEnds | elm-compiler/.elm-cache/0.19.2/packages/elm/virtual-dom/1.0.5/src/Elm/Kernel/VirtualDom.js:1509-1527 | The end inserts go to a fragment, new ones rendered and moved ones taken from their places |
| VdomTheorem.PatchedKeyed | elm-compiler/.elm-cache/0.19.2/packages/elm/virtual-dom/1.0.5/src/Elm/Kernel/VirtualDom.js:999-1527 | Patching keyed elements shows the new element if and only if its facts, its children and its look-ahead were sound, and changes nothing outside |
| VdomTheorem.Patched | elm-compiler/.elm-cache/0.19.2/packages/elm/virtual-dom/1.0.5/src/Elm/Kernel/VirtualDom.js:723-850 | Patching any part of the document from x to y gives a tree in its place that shows y if and only if the pair is sound; the root is a new node if and only if the difference replaces it, and is returned unless it has been lost |
| VdomViews.PatchShows | elm-compiler/.elm-cache/0.19.2/packages/elm/virtual-dom/1.0.5/src/Elm/Kernel/VirtualDom.js:1358-1367 | On a tree that shows x, whose lazy nodes have their nodes, applying the difference from x to y puts a tree in its place that shows y if and only if the pair is sound, returns its root if and only if the root is not lost, and changes nothing else |
| VdomCaches.ResolveGood | elm-compiler/.elm-cache/0.19.2/packages/elm/virtual-dom/1.0.5/src/Elm/Kernel/VirtualDom.js:750-775 | A view whose lazy nodes were set as the difference and rendering set them draws the same, is well-formed, and has all its nodes |
| VdomProgram.Update | elm-compiler/.elm-cache/0.19.2/packages/elm/virtual-dom/1.0.5/src/Elm/Kernel/VirtualDom.js:1358-1367 | Difference, search and application together: the document is the specified one, it shows the new view if and only if the pair is sound, and whether or not it is, every lazy node of the new view has its node, which draws what its own would |
| VdomProgram.ApplyAt | elm-compiler/.elm-cache/0.19.2/packages/elm/virtual-dom/1.0.5/src/Elm/Kernel/VirtualDom.js:1358-1367 | Attaching and applying patches gives the specified document and root, and sets the lazy nodes that the difference left to rendering |
| VdomProgram.Show | elm-compiler/.elm-cache/0.19.2/packages/elm/virtual-dom/1.0.5/src/Elm/Kernel/VirtualDom.js:430-490 | Rendering the first view starts a run |
| VdomViews.RunShows | elm-compiler/.elm-cache/0.19.2/packages/elm/virtual-dom/1.0.5/src/Elm/Kernel/VirtualDom.js:701-706 | Over a whole run of updates, as long as the pairs met are sound and no root is lost, every frame shows its view and every lazy node left in it has its node |
| VdomTame.TameSound | elm-compiler/.elm-cache/0.19.2/packages/elm/virtual-dom/1.0.5/src/Elm/Kernel/VirtualDom.js:723-1156 | Two views that keep the same rules (distinct keys, no inherited names, one namespace for a name, prefixed attributes fixed for a tag, one kind of root for a lazy child with a key) are a sound pair |
| VdomTame.TameRun | elm-compiler/.elm-cache/0.19.2/packages/elm/virtual-dom/1.0.5/src/Elm/Kernel/VirtualDom.js:701-706 | When all views keep one set of rules, every frame of every run shows its view, with all lazy nodes set; lazy roots and lazy keyed children included |
| VdomSnapshots.NextBuilt | elm-compiler/.elm-cache/0.19.2/packages/elm/virtual-dom/1.0.5/src/Elm/Kernel/VirtualDom.js:755-775 | After patching to a view of new lazy nodes, every object is again in one state, so that a next view can be built of what is there and of new nodes: runs go on |
| VdomProgram.NodeNS | elm-compiler/.elm-cache/0.19.2/packages/elm/virtual-dom/1.0.5/src/Elm/Kernel/VirtualDom.js:67-88 | The count of descendants is the number of indices that the children use |
| VdomProgram.KeyedNodeNS | elm-compiler/.elm-cache/0.19.2/packages/elm/virtual-dom/1.0.5/src/Elm/Kernel/VirtualDom.js:98-119 | The same for keyed children |
| VdomProgram.Map | elm-compiler/.elm-cache/0.19.2/packages/elm/virtual-dom/1.0.5/src/Elm/Kernel/VirtualDom.js:145-153 | A mapped node counts itself, draws the same, and adds its tagger to those below |
| VdomCounterexamples.StaleLookAhead | elm-compiler/.elm-cache/0.19.2/packages/elm/virtual-dom/1.0.5/src/Elm/Kernel/VirtualDom.js:1055-1059 | A concrete pair with a repeated old key, on a page that shows the first: what patching leaves does not show the second |
| VdomCounterexamples.ChangedNamespace | elm-compiler/.elm-cache/0.19.2/packages/elm/virtual-dom/1.0.5/src/Elm/Kernel/VirtualDom.js:562-566 | For every name that changes its namespace: what patching leaves does not show the second view |
| VdomCounterexamples.RemovedPrefixed | elm-compiler/.elm-cache/0.19.2/packages/elm/virtual-dom/1.0.5/src/Elm/Kernel/VirtualDom.js:562-566 | For every prefixed name that the second view leaves out: the attribute stays |
| VdomCounterexamples.DocumentedName | elm-compiler/.elm-cache/0.19.2/packages/elm/virtual-dom/1.0.5/src/VirtualDom.elm:194-200 | The documented name xlink:href is such a name |
| VdomCounterexamples.InheritedAdded | elm-compiler/.elm-cache/0.19.2/packages/elm/virtual-dom/1.0.5/src/Elm/Kernel/VirtualDom.js:941-950 | For every inherited name (constructor, say) and every element with attributes: an attribute with that name that the second view adds does not come |
| VdomCounterexamples.InheritedRemoved | elm-compiler/.elm-cache/0.19.2/packages/elm/virtual-dom/1.0.5/src/Elm/Kernel/VirtualDom.js:895-937 | One that the second view leaves out does not go |
| VdomCounterexamples.InheritedKey | elm-compiler/.elm-cache/0.19.2/packages/elm/virtual-dom/1.0.5/src/Elm/Kernel/VirtualDom.js:1166-1244 | A child whose key is an inherited name is entered under the postfixed key, and turns into a child that has that key |
| VdomCounterexamples.LazyRoot | elm-compiler/.elm-cache/0.19.2/packages/elm/virtual-dom/1.0.5/src/Elm/Kernel/VirtualDom.js:1369-1382 | A lazy view whose element changes its tag: the new view is shown, but another node is returned as its root |
| VdomCounterexamples.LazyRootStays | elm-compiler/.elm-cache/0.19.2/packages/elm/virtual-dom/1.0.5/src/Elm/Kernel/VirtualDom.js:1369-1382 | And from then on: patching to a third view leaves the second on the page |
| VdomCounterexamples.MovedLazyChild | elm-compiler/.elm-cache/0.19.2/packages/elm/virtual-dom/1.0.5/src/Elm/Kernel/VirtualDom.js:1425-1440 | A lazy keyed child whose element changes its tag while it moves: what patching leaves does not show the second view |
| GcPages.Pages.constructor | reference/shen-gc/gc.c:2057-2153 | An empty heap has valid page tables: the nursery first, the other pages free, none counted, none queued |
| GcPages.Pages.Queue | reference/shen-gc/gc.c:439-456 | A page enters the linked queue at its end unless it has been in it, and the links stay those of the order of entry |
| GcPages.Pages.FindPages | reference/shen-gc/gc.c:1890-1932 | The cyclic search gives the first run of free pages from its position on that does not wrap, and none exactly when there is none; its position is then behind that run, or as before |
| GcReserve.GrownIs | reference/shen-gc/gc.c:1807-1843 | The heap grows exactly when the reservation allows, to twice its pages or to twice those in use and asked for and 512 more, whichever is more |
| GcReserve.GrowthFinds | reference/shen-gc/gc.c:1854-1946 | With the pages behind the heap free, growing within the reservation makes the search find what it did not find |
| GcPages.Pages.AllocatePage | reference/shen-gc/gc.c:1854-1946 | It succeeds exactly when the search does, if need be after growing; the pages found were free, are tagged as one object page and its tail, counted, and queued once during a collection; where it fails nothing has been taken |
| GcPages.Pages.Release | reference/shen-gc/gc.c:722-728 | Exactly the pages of the space that was left are free again, and the count stays right |
| GcCollector.Collector.Alloc | reference/shen-gc/gc.c:1743-1794 | The copy of an object gets its words in room that nothing uses, behind the frontier or on new pages, and the rest of a page is closed with a filler; where copies come to lie follows from their order alone |
| GcCollector.Collector.MoveInternal | reference/shen-gc/gc.c:1952-1991 | A forwarded object gives the address in its header; another one is copied word for word and forwarded, all that was so far being kept |
| GcCollector.Collector.Move | reference/shen-gc/gc.c:1995-2053 | A pointer to an old object becomes the address of its one copy; null, and pointers out of the heap, into the nursery and into the new space stay |
| GcCollector.Collector.ScanValue | reference/shen-gc/zincvm.c:75-107 | The pointers that the tag of a value names become their images, and nothing else changes |
| GcCollector.Collector.ScanObject | reference/shen-gc/gc.c:501-541 | After scanning a copy by its type, every pointer in it is an image |
| GcCollector.Collector.Walk | reference/shen-gc/gc.c:548-560 | The walk scans the copies of a page in order, those included that are made meanwhile, up to the end of the page or the frontier |
| GcCollector.Collector.Drain | reference/shen-gc/gc.c:563-600 | The drain ends, as a sequence of page walks; every copy has been scanned if and only if it neither got stuck at a page put off nor fell behind on one whose walk had ended, and either needs a run of pages that ends where an earlier one begins |
| GcDraining.AccountEnd | reference/shen-gc/gc.c:563-600 | When the queue is empty, all copies are scanned exactly if no page is to be walked on and none got copies too late |
| GcHeap.Complete | reference/shen-gc/gc.c:548-600 | When all copies are scanned, the new heap is isomorphic to what the roots reach: one copy for each object, the same type, size and contents, pointers replaced by the images, sharing and cycles included, and nothing else |
| GcHeap.NotClean | reference/shen-gc/gc.c:548-600 | When a copy is left that points to an old object, it is not |
| GcHeap.ProperAgain | reference/shen-gc/gc.c:696-728 | What a complete collection leaves is a proper heap for the next one |
| GcRoom.TrailingOrders | reference/shen-gc/gc.c:1890-1932 | If the page before the search position is in use, or that position is the first page, or nothing is in use, then in whatever order objects are copied no run of pages ends where an earlier one begins |
| GcRoom.GuardedOrders | reference/shen-gc/gc.c:1890-1932 | For that it is enough that the search does not stand between two free pages |
| GcRoom.RoomyOrders | reference/shen-gc/gc.c:1743-1794 | If the free pages ahead have room for twice the words of the small objects and one page more than its own for each large one, every order of copying finds room |
| GcReserve.ReservedFits | reference/shen-gc/gc.c:1743-1946 | If the reservation has room for twice the heap, six times the pages in use, and 1024 pages, every order of copying finds room, whatever the objects |
| GcHeads.NoTailAt | reference/shen-gc/gc.c:1517-1535 | A root that points to an object is no pointer into the tail of one, when bodies begin on pages that begin an object |
| GcHeads.HeadsNow | reference/shen-gc/gc.c:1899-1924 | Bodies of copies, and what comes to the frontier, begin on such pages |
| GcReading.SlotAccess | reference/shen-gc/zincvm.c:75-107 | Each word that the collector takes for a pointer is one that the program reads as such |
| GcReading.AccessSlot | reference/shen-gc/zinctypes.h:37-150 | And the other way round, by the layout of values, instructions and frames |
| GcReading.SameReads | reference/shen-gc/gc.c:501-541 | Reading step by step from a root on, through heads and tails, code, environments, operands, items and frames, leads after a collection to the image of what it led to before, and to nothing where it led to nothing |
| GcReading.SameContents | reference/shen-gc/gc.c:1952-1991 | What is found there has the same type, the same size, and the same words but for pointers |
| GcCollect.Heap.ScanRoots | reference/shen-gc/gc.c:1517-1611 | Every root becomes its image |
| GcCollect.Heap.Collect | reference/shen-gc/gc.c:696-728 | After a full collection of a heap whose search position trails a page in use, and all later ones do, the new heap is isomorphic to what the roots reach and is proper, whatever it holds; and a heap with its objects on the right pages, as all later ones have them, within its reservation, is collected without failing; of any proper heap the result is isomorphic exactly when no copy points to an old object, which is so when the drain was not cut short |
| GcCollect.Heap.Allocate | reference/shen-gc/gc.c:1743-1794 | Between collections: a collection is due exactly when the request needs new pages and these would bring the count to half the heap; else it succeeds exactly when the frontier or the search has room, and gives a cleared object of the type there, with words for the bytes asked for and no more; the heap stays proper, the search goes on trailing a page in use, and objects begin on the right pages |
| GcCollect.Heap.PlaceFound | reference/shen-gc/gc.c:1743-1794 | Within the reservation there is room |
| GcLostCopy.GetsStuck | reference/shen-gc/gc.c:563-600 | For every collection of the heap of `GcLostHeap`, whose search position stands between free pages: the drain ends with a page put off, and a reachable object is not copied |
| GcLostCopy.FallsBehind | reference/shen-gc/gc.c:587-592 | With a pointer in its large object the drain falls behind instead, and another object is not copied |
| GcLostRuns.LoseStuck | reference/shen-gc/gc.c:696-728 | Such a heap is built, is proper, is collected, and what is left is not isomorphic to what the roots reached |
| GcLostRuns.LoseBehind | reference/shen-gc/gc.c:696-728 | The same for the second way |
| ZincMeaning.CodeRuns | reference/shen-gc/zincvm.c:3200-3462 | Wherever the code of an expression stands, the machine run through it pushes the value that the expression means, with environment, stack below and frames as before, as long as there is room for the frames of the calls that wait |
| ZincMeaning.TailRuns | reference/shen-gc/zincvm.c:3404-3458 | Code in tail position returns the value to the caller, whatever calls it ends in |
| ZincMeaning.CallReturns | reference/shen-gc/zincvm.c:3404-3447 | A call in tail position leaves the frames as they are: the function called returns to the caller of the one that calls |
| ZincMeaning.ProgramRuns | reference/shen-gc/zincvm.c:3152-3462 | Started at the call snippet with empty registers, the machine stops with the value that the expression means |
| ZincMeaning.EvalMore | reference/shen-gc/zincvm.c:3296-3301 | The meaning does not depend on how many calls or frames are allowed, and a result that is returned needs no more frames than one that is waited for |
| ZincPrims.StandardModels | reference/shen-gc/zincvm.c:2700-2795 | The pure primitives on cells compute what they compute on values, deep equality with its depth limit included |
| ZincLaws.Computes | reference/shen-gc/zincvm.c:2705-2722 | Sums, differences and products are those of the numbers, and there are none exactly where 64 bits do not hold them |
| ZincLaws.Undoes | reference/shen-gc/zincvm.c:2705-2716 | Subtracting undoes adding, and adding undoes subtracting |
| ZincLaws.Commutes | reference/shen-gc/zincvm.c:2703-2720 | Sums and products do not depend on the order of the two |
| ZincLaws.Associates | reference/shen-gc/zincvm.c:2703-2707 | Sums of three do not depend on the grouping, where those of two are in range |
| ZincLaws.Units | reference/shen-gc/zincvm.c:2703-2720 | Adding 0 and multiplying by 1 change nothing |
| ZincLaws.Distributes | reference/shen-gc/zincvm.c:2705-2722 | Products distribute over sums |
| ZincLaws.Divides | reference/shen-gc/zincvm.c:2722-2727 | A quotient times the divisor leaves a remainder smaller than the divisor, with the sign of the dividend |
| ZincLaws.StrictOrder | reference/shen-gc/zincvm.c:2757-2780 | The comparisons are a strict order, total on numbers, its converse, and the negations of both |
| ZincLaws.Monotone | reference/shen-gc/zincvm.c:2705-2766 | Adding keeps the order |
| ZincLaws.Lists | reference/shen-gc/zincvm.c:2268-2280 | Head and tail take apart what cons makes, and the parts of a pair likewise |
| ZincLaws.ListsAgain | reference/shen-gc/zincvm.c:1870-1875 | And cons makes again what head and tail have taken apart |
| ZincLaws.Kinds | reference/shen-gc/zincvm.c:2320-2326 | Every value is of one kind |
| ZincLaws.OwnKinds | reference/shen-gc/zincvm.c:2320-2326 | Numbers, strings, symbols, truth values and functions are of the kind that is called so |
| ZincLaws.Equality | reference/shen-gc/zincvm.c:847-881 | Two values are equal exactly when they are the same, hold no function, and are no deeper than 1000 |
| ZincLaws.LongList | reference/shen-gc/zincvm.c:847-881 | A list of more than 1000 elements is not equal to itself |
| ZincTerms.CallBinds | reference/shen-gc/zincvm.c:3296-3447 | Calling a function of one parameter means binding its argument around its body, waited for or returned |
| ZincTerms.CallBindsTwo | reference/shen-gc/zincvm.c:3285-3447 | Of two parameters the last is the innermost |
| ZincTerms.Variables | reference/shen-gc/zincvm.c:3245-3400 | The innermost variable is what was bound last, and the others are those outside |
| ZincTerms.Branches | reference/shen-gc/zincvm.c:3245-3400 | A condition chooses |
| ZincLoop.LoopMeans | reference/shen-gc/zincvm.c:3404-3458 | A loop of n calls in tail position has its result with no call that waits |
| ZincLoop.LoopRuns | reference/shen-gc/zincvm.c:3200-3462 | The machine started on such a loop stops with the sum of the numbers up to n, for every n whose sum 64 bits hold |
| ZincMachine.Machine.Run | reference/shen-gc/zincvm.c:3200-3462 | The loop over the registers, stopped after a number of rounds, is that many steps of the step function |
| ZincMachine.Machine.Round | reference/shen-gc/zincvm.c:3245-3460 | Each instruction changes the registers as the step function says, or stops |
| ZincMachine.Machine.CollectArgs | reference/shen-gc/zincvm.c:3285-3293 | Popping up to the mark gives the arguments from the top down, or fails without a mark or beyond 64 |
| Tasks.Exactly | src/effectloop.zig:401-563 | Given the answers that the leaves receive, one after the other, the machine of frames ends with a result, delivered or dropped, if and only if the task means it within the bound on frames |
| Tasks.Reaches | src/effectloop.zig:422-563 | A task with a result gets it to the frames that were there before, using the same answers, in some number of rounds |
| Tasks.OneMeaning | src/effectloop.zig:422-563 | A task means one thing for given answers, whatever the bounds |
| TaskLaws.Chains | src/effectloop.zig:519-563 | A task that goes on after another, on its success or on its error, means exactly what the two mean one after the other, the first with the first answers and one frame less, the second with the others; a result of another kind passes |
| TaskLaws.Associative | src/effectloop.zig:519-563 | Going on twice is going on with what does both |
| TaskLaws.Succeeds | src/effectloop.zig:435-437 | A success means its value, without answers |
| TaskLaws.Fails | src/effectloop.zig:438-440 | A failure means its error |
| TaskLaws.Effects | src/effectloop.zig:401-505 | An effect means the one answer that it gets |
| TaskLaws.NotATask | src/effectloop.zig:409-425 | What is not a task is dropped |
| HostLoop.HostLoop.Spawn | src/effectloop.zig:355-374 | The first place without an evaluation gets the task and a new generation; it fails when there is none |
| HostLoop.HostLoop.Deactivate | src/effectloop.zig:387-398 | The place is free again and all its slots are nil; nothing else changes |
| HostLoop.HostLoop.PassOn | src/effectloop.zig:519-563 | A result drops the frames that let it pass, clearing their slots, and goes to the callback of the first that takes it |
| HostLoop.HostLoop.Send | src/effectloop.zig:565-578 | A message makes a new model by update, ends its evaluation, and spawns the tasks of the command |
| HostLoop.HostLoop.StepEval | src/effectloop.zig:401-505 | The evaluation at a place is stepped while it is the one that was there at the start: one spawned into its place meanwhile is not |
| HostLoop.HostLoop.StepAll | src/effectloop.zig:1743-1751 | Every evaluation that does not wait is stepped, also at places that fill up meanwhile |
| HostLoop.HostLoop.SettleAll | src/effectloop.zig:2103-2107 | The sweeps are repeated as long as an evaluation can be stepped |
| HostLoop.HostLoop.Poll | src/effectloop.zig:2130-2146 | It is called only when no evaluation can be stepped; the answers that have come are given to the evaluations that wait for them |
| HostLoop.HostLoop.Drive | src/effectloop.zig:2083-2147 | The loop over the tables does what the run of the specification does, turn by turn: the same state, the same end, the same states at the polls |
| HostLoop.RunProgram | src/effectloop.zig:2077-2150 | A program from its first command on ends in the state of that run; and the books are right: the tasks spawned are those of the first command and of the commands that update returned, in order and once each, and every message delivered is what its task means for the answers it got |
| HostState.PollsIdle | src/effectloop.zig:2103-2128 | In whatever run: whenever the loop polls, or ends for lack of anything to wait for, no evaluation can be stepped |
| HostState.SweepLeaves | src/effectloop.zig:2096-2107 | One sweep is not enough for that: an evaluation spawned at a place already passed is left |
| HostState.DriveMore | src/effectloop.zig:2083-2147 | A run that ends does so in the same state with more turns or rounds allowed |
| HostAnswers.Delivered | src/effectloop.zig:565-578 | When update gives a pair for a message, its first is the model and the tasks of its second are spawned, and no other evaluation is touched |
| HostAnswers.Undelivered | src/effectloop.zig:571-573 | When it gives none, the model stays and nothing is spawned |
| HostAnswers.TasksOfCmd | src/effectloop.zig:378-385 | The tasks of a command made of a list are those of the list, in its order |
| HostAnswers.SpawnFits | src/effectloop.zig:355-385 | Spawning the tasks of a command panics exactly when there are more of them than free places |
| HostAnswers.RoundWent | src/effectloop.zig:401-505 | A leaf that starts is answered at once with what the system gives, or waits; any other evaluation makes a round of its machine; nothing else is touched but that tasks may be spawned |
| HostAnswers.RunEvalEnds | src/effectloop.zig:401-408 | When stepping stops, what could be stepped at the place has just been spawned there, and has made no round |
| HostAnswers.SweepEnds | src/effectloop.zig:1743-1751 | After a sweep, so has everything that could be stepped at all |
| HostAnswers.AllGiven | src/effectloop.zig:1933-1944 | Every evaluation that waits is given the answer of the first event for its place, a success or an error, and goes on with it; one without an event, or that does not wait, is left as it is |
| HostAnswers.TurnGiven | src/effectloop.zig:2084-2095 | In every turn the effects that are complete after the sweep reach the evaluations that wait for them |
| HostAnswers.SettleGiven | src/effectloop.zig:2103-2107 | And after every further sweep |
| HostAnswers.AllAnswered | src/effectloop.zig:2130-2146 | Over a whole run, every answer that a poll has reported for an evaluation that waits has reached it: it is among what the evaluation had heard when it ended, or has heard so far |
| HostAnswers.QuitLast | src/effectloop.zig:2083-2108 | After a quit the sweep is finished and nothing else is done |
| HostAnswers.OneEffect | src/effectloop.zig:2077-2150 | A program of one effect that a poll reports delivers its message and ends |
| HostRuns.FollowHonest | src/effectloop.zig:519-578 | What follows a round of an evaluation keeps the books right |
| HostRuns.DriveHonest | src/effectloop.zig:2083-2147 | So does every run, with answers coming in any order and number: each evaluation has come from a task of the first command or of a command that update returned, no message is delivered twice, and the model is that of folding update over the messages |
| HostRuns.AllEnded | src/effectloop.zig:2083-2147 | When a run has finished and was not quit, every task asked for has been evaluated to its end |
| Scheduler.Process.Run | elm-compiler/.elm-cache/0.19.2/packages/elm/core/1.0.5/src/Elm/Kernel/Scheduler.js:151-195 | The loop of the kernel scheduler is that many rounds of the machine of frames without a bound |
| Scheduler.Process.Return | elm-compiler/.elm-cache/0.19.2/packages/elm/core/1.0.5/src/Elm/Kernel/Scheduler.js:158-170 | A result drops the frames of the other kind and goes to the callback of the next |
| Scheduler.Process.RunAll | elm-compiler/.elm-cache/0.19.2/packages/elm/core/1.0.5/src/Elm/Kernel/Scheduler.js:151-195 | With the answers of its bindings coming one after the other, the process makes the rounds of the machine with these answers |
| Scheduler.SameResult | elm-compiler/.elm-cache/0.19.2/packages/elm/core/1.0.5/src/Elm/Kernel/Scheduler.js:151-195 | A task that ends in the host ends in the kernel scheduler with the same result, and with no other |

## Findings

Properties that one would expect of the code and that it does not have, each with its input and its exact condition:

- A repeated old key: the variables of the look-ahead keep their values when there is no next new child
  (`VirtualDom.js:1055-1059`), so that a later round can match a new child that has been matched before.  Patching then
  leaves one child too many (`VdomCounterexamples.StaleLookAhead`).  The condition in `Sound` is that the scan does not
  meet it; distinct old keys rule it out (`VdomKeyedPlan.DistinctOldKeys`).
- Namespaced attributes are set under their local name and removed under their whole name (`VirtualDom.js:562-566`): a
  prefixed attribute such as the documented `xlink:href` stays when a view leaves it out, and one that changes its
  namespace stays in the old one (`RemovedPrefixed`, `ChangedNamespace`).  The condition is `VdomNamespaces.NamesKept`.
- A root that is redrawn inside a lazy node is lost: the patch of the lazy node has no DOM node to compare with
  (`VirtualDom.js:1369-1382`), the old root is returned, and the page stays as it is from then on (`LazyRoot`,
  `LazyRootStays`).  A keyed lazy child that is moved at the same time is inserted with its old root
  (`MovedLazyChild`).  The condition is `VdomSound.Lost`; a lazy node whose element keeps its tag is never lost
  (`VdomTame.SameShape`).
- Facts and the entries of keyed children are looked up in plain objects, which have what all objects inherit
  (`VirtualDom.js:890-952`, `1166-1244`): an attribute, style or property named `constructor` is not added to others and
  not removed (`InheritedAdded`, `InheritedRemoved`), and a key of that name is taken for another (`InheritedKey`).  The
  conditions are `VdomFacts.FactsKept` and `VdomKeyedMatch.Unmixed`.

- Equality is not reflexive: it gives up beyond a depth of 1000 (`zincvm.c:847-881`), and a list is as deep as it is long,
  so that one of more than 1000 elements is not equal to itself (`ZincLaws.LongList`).  The condition is in
  `ZincLaws.Equality`.

And one that it has for a reason that its parts do not show:

- The drain of a collection is cut short when the frontier is the first word of a page whose walk was put off, and
  falls behind when the walk of such a page copies onto a page whose own walk has ended (`gc.c:548-600`).  Copies then
  keep pointers to pages that are released.  Both need the search for pages to stand between two free pages when the
  collection begins (`GcRoom.GuardedOrders`); then it can happen (`GcLostRuns.LoseStuck`, `LoseBehind`).  No allocation
  and no collection leaves the search there (`Trailing` in `GcCollect.Heap.Allocate` and `Collect`), so that no heap that
  has come about by these, as modelled here, loses an object.

## Left out

- VdomViews.PatchShows: event handlers, taggers as event routing, custom nodes, the filters against scripts, and the reflection of properties as attributes (a plain attribute and a namespaced one with the same local name are two) are not modelled; facts other than namespaced attributes are unordered maps, no two namespaced attributes of an element have one expanded name, and one with a prefix has a namespace.
- VdomTheorem.Patched: what the user has typed is covered for one element (`VdomFacts.FactsPatched`, `SetAgain`); the results about whole views are for pages that show the old view.
- VdomFacts.FactsPatched: facts are those of the object that is made of the list of attributes. The making is not modelled, nor what goes wrong in it: `__proto__` is never an entry of such an object, and no property has one of the four names under which styles, events and attributes are kept.
- VdomViews.RunShows: each view is given in the state in which it meets the page (`Built`): one object has one state. A lazy node that occurs at two places of one view, compared at one and rendered at the other, is not covered: rendering here draws the node that the view gives, not one taken over a moment before. A lazy node from an earlier view whose function is called again is taken to return the node it returned before.
- VdomTame.TameRun: rules are per program; a list whose lazy items change their tags from one view to the next, with the same keys, is not covered.
- VdomPage.Page.AppendAll: appending a fragment moves its children in one step.
- GcCollect.Heap.Collect: phase 0 of a collection (promotion from the nursery), the write barrier and nursery scavenges are not modelled: the nursery is empty of objects, and pointers into it stay. Roots are pointers and values; tables of roots are a list of them.
- GcCollect.Heap.Allocate: the collection that an allocation triggers is the flag `due`, after which the caller collects and asks again; the request has at least one byte, as a request for none puts the body on the next page.
- GcLostRuns.LoseStuck: the heap is built by setting the tables, as it does not come about by allocations and collections.
- GcCollector.Collector.ScanObject: an object of the type of a value has room for one.
- Diagnostics of the collector, signal masks and exits: a failure is the result `ok == false`.
- ZincMeaning.CodeRuns: calls have all their arguments and functions are closures: partial and excess application, primitives as values, error handling and the other primitives are not modelled; arithmetic that overflows has no meaning. Memory is not the collector's: values are trees.
- HostLoop.HostLoop.Drive: what the system does is a parameter (`HostState.System`): which operations answer at once, which evaluations have an answer before a poll, and what each poll brings, in any order and number. File descriptors, children, terminals, sleeps and their timeouts are behind it. Evaluation is cut off after a number of turns and rounds, as it need not end. A panic is the end `Panic`, of which the state is not described.
- ZincMachine.Machine.Round: primitives as values, and errors that are thrown and caught, are not modelled: the machine stops.
- ZincPrims.StandardModels: vectors, and primitives as values, are not modelled; a quotient by zero and a number beyond 64 bits have no value.
- Scheduler.Process.Run: the queue of processes, mailboxes and killing are not modelled.
- The machine's parser, its tables of globals and symbols, the decoder of terminal input, and the Elm effect manager and equality kernels are not part of this model.
