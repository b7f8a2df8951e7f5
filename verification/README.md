# Verification of the ClarAIty cores

This project models the algorithmic and state-machine cores of ClarAIty in Dafny and
proves what they promise. Code that changes state step by step is imperative Dafny
(classes with the program's own fields, loops with invariants); each method is proved
against a specification that is stated without it, and the promises are lemmas about
those specifications. `dafny verify dfyconfig.toml` checks everything.

| files | what is modelled |
|---|---|
| `Graphs`, `Tarjan`, `Layering`, `AutoLayout` | `auto_layout`: Tarjan's algorithm on module graphs with cycles, the condensation, Kahn's ranks, and the grid cells, for modules and for the components inside a module |
| `EdgeTable` | the rows of the edge table that `AutoLayout`, `Impact` and `KnowledgeIndex` share |
| `Impact` | the breadth-first walk of `render_impact` over reversed dependencies |
| `KnowledgeIndex`, `KnowledgeEdges` | the node, edge and full-text tables of the knowledge store, its transactions and its batches, and which edges it keeps apart |
| `Json`, `JsonClasses`, `JsonText`, `JsonGrammar`, `JsonRoundTrip`, `JsonLayout` | the JSON writer and the recursive-descent parser of the prompt-caching demo: what the parser makes of every JSON text, oversized integers and digits of other scripts included, that what is printed is JSON and parses back, and how it is laid out |
| `ToolContext`, `ToolPhases`, `ToolGates`, `LoopBudget` | the agent loop: the repair of orphaned tool calls, one round of gated, interactive and parallel tool execution, what each answer of gate and user leads to, and the iteration and pause budget |
| `Beads`, `BeadSessions`, `BeadReady`, `BeadListing` | the task store: claims interleaved across sessions, the audit trail, the ready queue, and when each operation puts a task on it |
| `CrlfEdit`, `Undo`, `Framing` | the editor side: edits that keep CRLF line endings, undo checkpoints, newline framing of JSON-RPC messages |
| `Registry`, `Retry` | background tasks under every interleaving of their awaits, and the retry controller with its argument normalisation |

How the models are read:

- Concurrency is a state machine. A step is what runs between two awaits (`Registry`,
  `Undo`) or one SELECT or one committed write with its event (`BeadSessions`); a run is any sequence of enabled
  steps, and a claim about runs holds for every such sequence.
- What users, providers, tools, clocks, gates and SQLite's row order decide is an argument.
- A JSON text is a sequence of UTF-16 code units, a table is a map from its key, and a
  transaction that raises leaves the tables as they were.

Where the code does not meet a promise, the exact condition under which it does is proved, as
an if-and-only-if, together with a concrete run or input on which it fails:

- Audit replay. `release_session` reads the ids it will record before its UPDATE. The log
  replays to the table throughout a run if and only if every such UPDATE is covered by what was
  read (`BeadSessions.AuditedRunIff`, `BeadSessions.InterleavedReleaseBreaksAudit`).
- Ready queue. A stale claim of another session is listed, but claiming it is refused
  (`BeadReady.ReadyIsClaimableIff`, `BeadReady.StaleClaimIsRefused`).
- Deferral. The ready list promises tasks whose `defer_until` has passed. That holds for tasks
  added with a date (`BeadListing.AddedListsIff`); a task put off by `defer()` has the status
  deferred and is not listed at any time until something else updates it
  (`BeadListing.DeferredStaysOff`).
- Edge keys. The key of an edge joins its ends and type by colons, and another edge can have the
  same key if and only if one of the three has a colon (`KnowledgeEdges.SharedIdIff`). Adding and
  removing an edge leave all others alone if and only if no stored one has its key
  (`KnowledgeEdges.AddingIsExactIff`, `KnowledgeEdges.RemovingIsExactIff`).
- Cleanup. A background task that `cleanup` cancels before its first step stays RUNNING and takes
  up a place until somebody cancels it (`Registry.CleanedUpStaysRunning`).
- Completed queue. A `cancel()` that lands in the timeout cleanup is swallowed when the task is
  resumed, and the task is queued twice; tasks are queued at most once if and only if that never
  happens (`Registry.QueuedAtMostOnceIff`, `Registry.SwallowedCancelQueuesTwice`).
- Full-text index. In a batch, an operation whose properties are truthy and no dict (a doubly
  encoded string, a list) counts as failed but has stored its node without indexing it. The index
  agrees at every point of a run if and only if no such operation leaves a node stale
  (`KnowledgeIndex.IndexAgreesIff`, `KnowledgeIndex.FailedAddIsStored`). The tool's description
  speaks of a single transaction; the code commits partial success, and the model follows the code.
- Tool results. A round has one message per call if and only if, when the user rejected it, no
  call without an id was processed, and otherwise no outcome was lost to a BaseException
  (`ToolPhases.OneMessagePerCall`, `ToolPhases.MissingIdIsAnsweredTwice`). The next repair mends
  both (`ToolPhases.RepairAfterRound`).
- CRLF edits. New text that begins or ends in half a CRLF can merge with its neighbour
  (`CrlfEdit.ProposalReadsAsReplacement`, `CrlfEdit.SeamExample`).
- JSON integers. An integer that no long holds is read as 0, and a text is read with its meaning
  if and only if it has none (`JsonGrammar.IntegerIsReadIff`, `JsonGrammar.TextMeansWhatIsReadIff`).
  A Long that fits an int comes back as an Integer (`JsonRoundTrip.PrintThenParseIsIdentity`).
- JSON syntax. Much that is no JSON text is read as well (`JsonGrammar.GarbageIsReadAsZero`,
  `JsonGrammar.ForeignDigitIsRead`, `JsonGrammar.BrokenWordIsRead`, `JsonGrammar.OpenStringIsRead`,
  `JsonGrammar.UnknownEscapeIsRead`, `JsonGrammar.BadHexIsRead`).
- Undo records. A snapshot read that outlives its turn can overwrite the next turn's record, and
  a write that fails in an undo is not repeated. The records are right throughout a run if and
  only if every landing and every failure is harmless (`Undo.RecordsRightIff`,
  `Undo.StaleReadBreaksUndo`).
- Undo history. `undo` removes by an index that it found before its awaits. That removes the
  checkpoint that was undone if and only if nothing at or below the index left the history
  meanwhile (`Undo.UndoRemovesItsCheckpointIff`, `Undo.SpliceHitsNextTurnRun`,
  `Undo.OverlappingUndos`).
- Retry records. A failed `run_command` whose command has no length, or is a list or dict longer
  than 50, is counted, but raises before it enters the history
  (`Retry.ErrorRecoveryTracker.RecordFailure`).

## Model

| member | source | states |
|---|---|---|
| Tarjan.SccFinder.constructor | src/claraity/claraity_db.py:926-933 | The algorithm starts with counter 0, empty stack, tables and result. |
| Tarjan.SccFinder.PopComponent | src/claraity/claraity_db.py:951-958 | The pop loop cuts the stack at v, returns the cut-off part in reverse, and takes exactly it off on_stack. |
| Tarjan.SccFinder.StrongConnect | src/claraity/claraity_db.py:935-959 | From any state of the walk in which the whole stack reaches v: the invariants are kept, v and what is newly on the stack are visited, everything newly stacked reaches v, v reaches the stack entry its lowlink names, and no edge from the new part goes below that entry. |
| Tarjan.SccFinder.Run | src/claraity/claraity_db.py:961-963 | For every module graph, cyclic or not, the result lists the strongly connected components of the graph among the modules: every module once, blocks mutually reachable, edges only into the same or an earlier block. |
| Tarjan.SccListIsCorrect | src/claraity/claraity_db.py:926-963 | Two modules share a block exactly when each reaches the other, and an edge never goes to a later block: the result is a partition into components in reverse topological order. |
| Tarjan.ReachGoesDown | src/claraity/claraity_db.py:926-963 | Whatever a module of one block reaches lies in that block or an earlier one. |
| Tarjan.CloseMutual | src/claraity/claraity_db.py:951-959 | The modules popped for one block all reach one another. |
| Tarjan.CloseTopological | src/claraity/claraity_db.py:951-959 | When lowlink[v] equals index[v], no edge leaves the popped block towards the rest of the stack, so appending it keeps the reverse topological order. |
| Tarjan.TopCallEmptiesStack | src/claraity/claraity_db.py:961-963 | A call from the driver loop leaves the stack empty. |
| Layering.NumberComponents | src/claraity/claraity_db.py:965-969 | Every listed module is mapped to the number of the block that holds it. |
| Layering.Condense | src/claraity/claraity_db.py:971-987 | The component graph has exactly the edges between different components, without duplicates, and the in-degree of each component is its number of predecessors. |
| Layering.CondensationGoesDown | src/claraity/claraity_db.py:971-987 | Every edge of the component graph leads to a smaller number, so that graph is acyclic. |
| Layering.RankComponents | src/claraity/claraity_db.py:989-1006 | Kahn's pass dequeues every component exactly once, the assignment for components not reached is dead code, and each rank is the number of edges of a longest path that ends in the component. |
| Layering.DequeuedDepth | src/claraity/claraity_db.py:992-1001 | The rank a component holds when it leaves the queue already is its longest-path depth. |
| Layering.AllDequeued | src/claraity/claraity_db.py:992-1006 | When the queue is empty every component has been dequeued. |
| Layering.DepthFromPreds | src/claraity/claraity_db.py:996-998 | One more than the largest rank among all predecessors is the longest-path depth. |
| Layering.DepthIsUnique | src/claraity/claraity_db.py:989-1001 | A vertex has at most one longest-path depth. |
| Layering.DepthGrows | src/claraity/claraity_db.py:989-1001 | Depth strictly increases along every edge. |
| AutoLayout.MapChildren | src/claraity/claraity_db.py:903-908 | A child belongs to the module whose "contains" row for it comes last. |
| AutoLayout.BuildModuleGraph | src/claraity/claraity_db.py:910-924 | Module a points to module b exactly when some row other than contains and constrains leads, after lifting both ends to modules, from a to b and a differs from b; the second map is the first one reversed. |
| AutoLayout.DependsIff | src/claraity/claraity_db.py:903-924 | In terms of rows: a depends on b, two different modules, exactly when a row of a type other than contains and constrains leads from something that a stands for to something that b stands for; a module stands for itself and for what its contains row, the last one for it, puts into it. |
| AutoLayout.FlowRanks | src/claraity/claraity_db.py:926-1017 | flow_rank of a connected vertex is the longest-path depth of its component plus the offset; vertices without edges share the first row below all connected ones, which is offset + 1 if there are none. |
| AutoLayout.HighestRank | src/claraity/claraity_db.py:1008-1010 | max_rank is the largest depth of a component, attained by one of them, and 0 when there is no component. |
| AutoLayout.IsolatedBelowHighest | src/claraity/claraity_db.py:1008-1017 | Because a component with a positive depth is entered by an edge, the row below the largest depth is the row just below the lowest connected vertex. |
| AutoLayout.AssignRanks | src/claraity/claraity_db.py:1008-1017 | Ranks come from the component's depth, and isolated vertices get one more than the given highest depth. |
| AutoLayout.RanksFollowEdges | src/claraity/claraity_db.py:1008-1017 | Along an edge a to b flow_rank strictly increases, unless b also reaches a, and then the two ranks are equal. |
| AutoLayout.CountEdges | src/claraity/claraity_db.py:1024-1028 | Every module's count is the number of its outgoing plus the number of its incoming edges. |
| AutoLayout.GroupByRank | src/claraity/claraity_db.py:1019-1022 | Row r lists, once each and in the order of the modules, exactly the modules with rank r. |
| AutoLayout.SortedRow | src/claraity/claraity_db.py:1030-1031 | A sorted row is a permutation of the row with the most connected modules first. |
| AutoLayout.SortedInOrder | src/claraity/claraity_db.py:1030-1031 | The sort is stable: of two modules with as many edges the one listed first comes first. |
| AutoLayout.SortRows | src/claraity/claraity_db.py:1030-1031 | Sorting the rows keeps the grouping, puts every row in descending order of edges, and keeps the order of the modules among equals. |
| AutoLayout.AssignColumns | src/claraity/claraity_db.py:1019-1037 | flow_col is a module's place in its sorted row. |
| AutoLayout.CellsAreUnique | src/claraity/claraity_db.py:1033-1037 | No two modules share a cell, and every row is filled from column 0 on. |
| AutoLayout.ColumnIs | src/claraity/claraity_db.py:1030-1037 | flow_col is the number of modules of the same rank that have more edges, or as many and are listed earlier, so every cell is determined by the rows. |
| AutoLayout.LayoutModules | src/claraity/claraity_db.py:896-1037 | The whole module layout: the graph lifted from the rows; the rank of a connected module is the longest-path depth of its component plus 1, the row of the system node, so ranks follow every edge unless it lies on a cycle; isolated modules share the first row below; and every module has a cell of its own, determined by edge counts and listing order. |
| AutoLayout.BuildComponentGraph | src/claraity/claraity_db.py:1110-1122 | The component graph of a module has exactly the dependency rows between two different components of it. |
| AutoLayout.LayoutComponents | src/claraity/claraity_db.py:1091-1223 | The component layout of one module makes the same promises with depths that start at rank 0, and 1 for the isolated ones if no component has an edge; a single component gets cell (0, 0). |
| Impact.ImpactChain | src/claraity/claraity_db.py:3308-3323 | On every graph, cyclic or not, the walk ends, and the chain is sorted by depth, lists exactly the nodes other than the start that depend on it directly or indirectly, shows each at its shortest distance the first time, and each line shows the type of a dependency row from its node to one a step nearer. |
| Impact.WalkIsImpact | src/claraity/claraity_db.py:3308-3323 | When the queue is empty, the visited distances and the chain are that answer. |
| Impact.DistBoundsWalk | src/claraity/claraity_db.py:3312-3323 | No walk against dependency edges reaches a node in fewer steps than its visited depth. |
| Impact.OneMoreEdge | src/claraity/claraity_db.py:3308-3323 | A further row changes who is affected only if its type is neither contains nor constrains and its source is a known node. |
| KnowledgeIndex.ImplStep | src/claraity/claraity_db.py:204-324 | From tables in agreement, one operation keeps exactly one full-text row per node with its type, name and description if and only if it does not raise between storing a node and indexing a changed name, type or description. |
| KnowledgeIndex.ImplSound | src/claraity/claraity_db.py:204-324 | No operation, whether it raises or not, leaves an edge without one of its nodes. |
| KnowledgeIndex.CommitStep | src/claraity/claraity_db.py:82-97 | A public write that raises is rolled back, so it always leaves the index in agreement. |
| KnowledgeIndex.UpsertSyncs | src/claraity/claraity_db.py:160-176 | Indexing a node leaves it with exactly one row that describes it and touches no other node's rows. |
| KnowledgeIndex.StoringUnindexed | src/claraity/claraity_db.py:217-237 | Storing a node without indexing it keeps it in step with its row exactly when type, name and description stay the same. |
| KnowledgeIndex.ExtraTextStep | src/claraity/claraity_db.py:141-158 | An operation that does not raise keeps every row's extra text up to date exactly when it changes no label of an edge at a node it does not index. |
| KnowledgeIndex.EdgeFresh | src/claraity/claraity_db.py:239-256 | Replacing or deleting one edge keeps all extra text up to date exactly when the label and the ends with a label stay the same. |
| KnowledgeIndex.RebuildRestores | src/claraity/claraity_db.py:189-200 | Whatever the index held, a rebuild that does not raise gives one row per node with its type, name, description, current edge labels and property texts. |
| KnowledgeIndex.EveryOpIsCounted | src/claraity/claraity_db.py:428-501 | succeeded plus failed grows by the number of operations. |
| KnowledgeIndex.OpFailsIff | src/claraity/claraity_db.py:428-501 | An operation counts as failed exactly when it adds a node with misshapen properties, updates a missing node or one left with misshapen properties, adds an edge between unknown nodes, or is unusable. |
| KnowledgeIndex.BatchAgreesIff | src/claraity/claraity_db.py:418-501 | Index and nodes agree before, between and after all operations of a batch exactly when none of them leaves a node stale. |
| KnowledgeIndex.NeverDangles | src/claraity/claraity_db.py:204-501 | In every run of writes, layouts, rebuilds and batches no edge ever dangles. |
| KnowledgeIndex.IndexAgrees | src/claraity/claraity_db.py:204-501 | In every run whose batch operations have properties that are a dict or falsy, the index has exactly one row per node, with its type, name and description. |
| KnowledgeIndex.IndexAgreesIff | src/claraity/claraity_db.py:204-501 | In every run the index agrees with the nodes at every point, before, between and after the operations of batches too, if and only if no operation of a batch leaves a node stale. |
| KnowledgeIndex.CallAgreesIff | src/claraity/claraity_db.py:328-501 | From tables in agreement, a public call agrees at every point exactly when it is no committed batch one of whose operations leaves a node stale. |
| KnowledgeIndex.LayoutKeeps | src/claraity/claraity_db.py:1055-1066 | Writing layout properties changes the properties of that one node only, and keeps the index in agreement. |
| KnowledgeIndex.FailedAddIsStored | src/claraity/claraity_db.py:435-499 | A batch that adds a node with doubly encoded properties reports it as failed, stores it, and leaves it without its row. |
| KnowledgeIndex.ClaraityStore.BuildExtraText | src/claraity/claraity_db.py:141-158 | The extra text is made of the labels of all edges at the node and the flattened property values; it raises exactly for truthy properties that are no dict. |
| KnowledgeIndex.ClaraityStore.FlattenValues | src/claraity/claraity_db.py:152-157 | Strings are taken as they are, lists item by item, everything else is skipped, in order. |
| KnowledgeIndex.FlattenIs | src/claraity/claraity_db.py:152-157 | A text is among them exactly when it is a string value or an item of a list value. |
| KnowledgeIndex.ClaraityStore.UpsertFts | src/claraity/claraity_db.py:160-176 | Replaces the rows of the node by one row, or raises before touching them. |
| KnowledgeIndex.ClaraityStore.AddNodeRow | src/claraity/claraity_db.py:204-237 | Stores the node and then indexes it; an exception leaves the stored node behind. |
| KnowledgeIndex.ClaraityStore.UpdateNodeRow | src/claraity/claraity_db.py:258-309 | Changes only the given fields, reports 0 or 1 rows, and indexes the node again when anything was given. |
| KnowledgeIndex.ClaraityStore.RemoveNodeRow | src/claraity/claraity_db.py:311-318 | Removes the node, its row and all its edges, and reports whether it existed and how many edges went. |
| KnowledgeIndex.ClaraityStore.AddEdgeRow | src/claraity/claraity_db.py:239-256 | Stores the edge under its key, or raises when one of its nodes is missing; KnowledgeEdges says which other edges survive. |
| KnowledgeIndex.ClaraityStore.Write | src/claraity/claraity_db.py:328-414 | A public write has the effect of its operation, or none at all when it raises. |
| KnowledgeIndex.ClaraityStore.BatchOperations | src/claraity/claraity_db.py:418-501 | The operations take effect in order with exceptions caught, the counts add up to the length, and an element that is no dict rolls everything back. |
| KnowledgeIndex.ClaraityStore.RebuildFtsIndex | src/claraity/claraity_db.py:189-200 | Empties the table and inserts one row per node, in whatever order the nodes come; raises and is rolled back exactly when some node's properties are truthy and no dict. |
| KnowledgeEdges.SharedIdIff | src/claraity/claraity_db.py:249-249 | Another triple of ends and type has the same key if and only if one of the three parts has a colon. |
| KnowledgeEdges.SharedId | src/claraity/claraity_db.py:249-249 | Two different triples with one key have an end that is the same end of the other, a colon and more. |
| KnowledgeEdges.KeptApartIff | src/claraity/claraity_db.py:249-249 | Edges between given nodes, of whatever types, never share a key if and only if no node id is another one, a colon and more. |
| KnowledgeEdges.AddingIsExactIff | src/claraity/claraity_db.py:239-256 | On the table as a set of triples: adding an edge stores it as given, and keeps every other edge if and only if no other stored edge has its key. |
| KnowledgeEdges.RemovingIsExactIff | src/claraity/claraity_db.py:320-324 | Removing an edge removes it, and nothing else if and only if no other stored edge has its key. |
| KnowledgeEdges.RemovingNodeIsExact | src/claraity/claraity_db.py:311-318 | Removing a node removes exactly the edges at it. |
| KnowledgeEdges.EdgesStayKeyed | src/claraity/claraity_db.py:239-501 | In every run each edge is stored under the key made from it. |
| KnowledgeEdges.EdgesAreKeptApart | src/claraity/claraity_db.py:239-501 | In every run, while no node id extends another by a colon, removing an edge removes exactly it, and adding one between known nodes keeps all others. |
| Json.SkipWs | examples/PromptCachingDemo.java:1277-1283 | The cursor stops at the first unit that is no space, line feed, carriage return or tab, and never moves back. |
| Json.Expect | examples/PromptCachingDemo.java:1289-1295 | Succeeds only just after the expected unit. |
| Json.ScanString | examples/PromptCachingDemo.java:1210-1240 | The string loop ends on every text and never moves the cursor back. |
| Json.ParseNumber | examples/PromptCachingDemo.java:1253-1275 | On every text, reading a number answers instead of raising and never moves the cursor back. |
| Json.ParseValue | examples/PromptCachingDemo.java:1164-1174 | On every text the recursive descent ends, and the cursor never moves back. |
| Json.ParseElements | examples/PromptCachingDemo.java:1195-1208 | The array loop ends on every text, and the cursor never moves back. |
| Json.ParseMembers | examples/PromptCachingDemo.java:1176-1193 | The object loop ends on every text, and the cursor never moves back. |
| JsonClasses.JsonWriter.WriteEscaped | examples/PromptCachingDemo.java:1138-1155 | The loop over the units appends the escaped text. |
| JsonClasses.JsonWriter.WriteJson | examples/PromptCachingDemo.java:1093-1136 | Appends exactly the printed form of the value, at any indent and depth. |
| JsonClasses.JsonWriter.WriteArray | examples/PromptCachingDemo.java:1121-1133 | The element loop appends the printed array, separators and line breaks included. |
| JsonClasses.JsonWriter.WriteObject | examples/PromptCachingDemo.java:1106-1120 | The entry loop appends the printed object. |
| JsonClasses.JsonParser.SkipWhitespace | examples/PromptCachingDemo.java:1277-1283 | The loop moves the cursor to where the specification says. |
| JsonClasses.JsonParser.ExpectUnit | examples/PromptCachingDemo.java:1289-1295 | Skips whitespace, and steps over the unit or fails in front of it. |
| JsonClasses.JsonParser.ReadString | examples/PromptCachingDemo.java:1210-1240 | The loop reads the string the specification reads, escapes included, and leaves the cursor at the same place. |
| JsonClasses.JsonParser.ReadNumber | examples/PromptCachingDemo.java:1253-1275 | The loops read the number the specification reads. |
| JsonClasses.JsonParser.ReadBoolean | examples/PromptCachingDemo.java:1242-1246 | Reads true or false, and answers false without moving for anything else. |
| JsonClasses.JsonParser.ReadNull | examples/PromptCachingDemo.java:1248-1251 | Moves over null, and answers null in any case. |
| JsonClasses.JsonParser.ReadValue | examples/PromptCachingDemo.java:1164-1174 | The mutually recursive methods return the specified value or failure and cursor. |
| JsonClasses.JsonParser.ReadArray | examples/PromptCachingDemo.java:1195-1208 | The array loop refines the specification. |
| JsonClasses.JsonParser.ReadObject | examples/PromptCachingDemo.java:1176-1193 | The object loop refines the specification, repeated keys included. |
| JsonRoundTrip.PrintThenParse | examples/PromptCachingDemo.java:1082-1296 | For every value of null, booleans, 32 and 64 bit integers, arbitrary strings, lists and maps, and every indent, parsing the printed text gives the value back, each number in the smallest box, with the cursor at the end of the text. |
| JsonRoundTrip.PrintThenParseIsIdentity | examples/PromptCachingDemo.java:1082-1296 | The round trip is the identity exactly for the values without a Long that fits an int. |
| JsonRoundTrip.CanonicalIsIdentity | examples/PromptCachingDemo.java:1269-1271 | Choosing the smallest box changes nothing exactly for those values. |
| JsonRoundTrip.RoundTrip | examples/PromptCachingDemo.java:1164-1174 | A printed value parses back wherever it stands in a text, as long as no digit, point or exponent letter follows. |
| JsonRoundTrip.PrintedIsJson | examples/PromptCachingDemo.java:1082-1155 | For every printable value and every indent the printed text is a JSON text by RFC 8259, and it means the value, each integer in its smallest box. |
| JsonRoundTrip.ValueDerives | examples/PromptCachingDemo.java:1093-1136 | The same for every value printed at any depth and place of a text. |
| JsonRoundTrip.UnitIsChar | examples/PromptCachingDemo.java:1138-1155 | Every code unit is written in a way section 7 allows: quotes, backslashes and all control characters escaped. |
| JsonRoundTrip.EscapedIsChars | examples/PromptCachingDemo.java:1138-1155 | So is every text, lone surrogates included. |
| JsonRoundTrip.NumberDerives | examples/PromptCachingDemo.java:1093-1105 | Every integer is written as section 6 demands, without leading zeros, and means itself. |
| JsonRoundTrip.ElementsDerive | examples/PromptCachingDemo.java:1121-1133 | The element loop prints a list of the grammar that means the elements. |
| JsonRoundTrip.EntriesDerive | examples/PromptCachingDemo.java:1106-1120 | The entry loop prints an object of the grammar that means the entries, in their order. |
| JsonLayout.NestedIsShifted | examples/PromptCachingDemo.java:1093-1136 | A value nested deeper is printed as the same lines, as many indents further right. |
| JsonLayout.CompactIsOneLine | examples/PromptCachingDemo.java:1093-1155 | Without an indent the text has no control character, whatever characters the strings have. |
| JsonGrammar.EveryTextIsRead | examples/PromptCachingDemo.java:1164-1295 | Every JSON text by the grammar of RFC 8259, with whitespace anywhere it is allowed, every spelling of a string character, fractions and exponents, and repeated keys, is read to the end of its value, with its meaning except that an integer no long holds becomes 0. |
| JsonGrammar.TextMeansWhatIsReadIff | examples/PromptCachingDemo.java:1164-1295 | A JSON text is read with its meaning if and only if every integer in that meaning fits a long. |
| JsonGrammar.IntegerIsReadIff | examples/PromptCachingDemo.java:1253-1275 | An integer, its value given by its sign and decimal digits, is read as that value if and only if it lies between the smallest and the largest long; otherwise it is read as 0. |
| JsonGrammar.ClippedIsIdentity | examples/PromptCachingDemo.java:1269-1273 | Putting 0 for the integers no long holds changes nothing exactly when every integer of the value, at any depth, fits a long. |
| JsonGrammar.ValueIsRead | examples/PromptCachingDemo.java:1164-1174 | The same for every value inside a text, up to exactly its end. |
| JsonGrammar.CharIsRead | examples/PromptCachingDemo.java:1213-1238 | A character is read however it is written: as itself, by a two-character escape, or by four hexadecimal digits in either case; an unescaped control character and hexadecimal digits of other scripts are read as well. |
| JsonGrammar.CharsAreRead | examples/PromptCachingDemo.java:1210-1240 | The string loop reads any spelling of any character sequence. |
| JsonGrammar.NumberIsRead | examples/PromptCachingDemo.java:1253-1275 | Every number by the grammar, with or without fraction and exponent, is read to its end; an integer as its value, or 0 if no long holds it. |
| JsonGrammar.ItemsAreRead | examples/PromptCachingDemo.java:1195-1208 | The array loop reads every list of values the grammar allows. |
| JsonGrammar.FieldsAreRead | examples/PromptCachingDemo.java:1176-1193 | The object loop reads every list of fields the grammar allows; a repeated key keeps its place and gets the last value. |
| JsonGrammar.GarbageIsReadAsZero | examples/PromptCachingDemo.java:1164-1275 | A unit that can start no value, and is no digit of any script, point or exponent letter, is not refused but read as 0, and the cursor stays. |
| JsonGrammar.ForeignDigitIsRead | examples/PromptCachingDemo.java:1253-1271 | A decimal digit of another script, which starts no JSON value, is read as its value. |
| JsonGrammar.NoValueStartsHere | examples/PromptCachingDemo.java:1164-1174 | A value of the grammar starts with an ASCII digit, a quote, a bracket, a brace, a minus sign or one of the letters t, f, n. |
| JsonGrammar.PutIsLast | examples/PromptCachingDemo.java:1176-1193 | A repeated key keeps its first place and gets its last value; the other entries stay. |
| JsonGrammar.BrokenWordIsRead | examples/PromptCachingDemo.java:1242-1251 | What begins like true, false or null but is none of them is read as false or null, and the cursor stays. |
| JsonGrammar.NothingIsReadAsNull | examples/PromptCachingDemo.java:1164-1174 | Nothing but whitespace is read as null where a value is expected. |
| JsonGrammar.OpenStringIsRead | examples/PromptCachingDemo.java:1210-1240 | A string that is never closed is read up to the end of the text. |
| JsonGrammar.UnknownEscapeIsRead | examples/PromptCachingDemo.java:1213-1238 | An unknown escape stands for the character after the backslash. |
| JsonGrammar.BadHexIsRead | examples/PromptCachingDemo.java:1224-1234 | A unicode escape without four hexadecimal digits stands for a question mark. |
| ToolContext.RepairIsNormal | src/core/agent.py:1355-1480 | Whatever the context, the repaired one has every assistant message directly followed by one result per identified call in call order, no other results, and all other messages kept in order. |
| ToolContext.RepairIsIdentityIff | src/core/agent.py:1355-1480 | The repair changes nothing exactly when the context is in that form and repeated ids carry the same result. |
| ToolContext.RepairIsIdempotent | src/core/agent.py:1355-1480 | Repairing twice is repairing once. |
| ToolContext.RepairKeepsResults | src/core/agent.py:1355-1480 | Each result in the output answers a call; it is the context's last result for that id, or a synthetic one if there was none. |
| ToolContext.ResultsAreTheLast | src/core/agent.py:1383-1450 | By position: a result in the output is the last one of the context for its id; if there is none, it says that the call was interrupted, under the name of the last call with that id. |
| ToolContext.ContextFixer.CollectCalls | src/core/agent.py:1383-1394 | The first pass finds the ids of all identified calls, each with the name of its last call. |
| ToolContext.ContextFixer.CollectResults | src/core/agent.py:1396-1402 | It finds the last result for each id. |
| ToolContext.ContextFixer.FillOrphans | src/core/agent.py:1404-1450 | Every call without a result gets one synthetic result, and exactly these are persisted, once each. |
| ToolContext.ContextFixer.RebuildContext | src/core/agent.py:1452-1471 | The rebuild loop drops all results and places each call's result after its assistant message. |
| ToolContext.ContextFixer.FixOrphanedToolCalls | src/core/agent.py:1355-1480 | The passes together are the repair, and persist one result per orphaned id. |
| ToolPhases.OneMessagePerCall | src/core/agent.py:2435-2966 | For every mix of blocked, denied, approved, rejected, timed out, interactive and parallel calls, with or without ids, the round adds as many tool messages as it has calls if and only if, when it was rejected, no processed call lacks an id, and otherwise no parallel outcome was lost. |
| ToolPhases.MessagesTotal | src/core/agent.py:2435-2966 | A rejected round has one message more than calls for each processed call without an id; any other round one less for each lost outcome. |
| ToolPhases.MessagesForCall | src/core/agent.py:2435-2966 | A call with an id gets exactly one message, unless its outcome is lost in a round that is not rejected; then it gets none. |
| ToolPhases.MessagesForUnnamed | src/core/agent.py:2448-2450 | A call without an id gets its reply under the made-up id when it is processed, and a rejected round adds a skip message under the empty id. |
| ToolPhases.MessageOf | src/core/agent.py:2900-2966 | The message under the id of a call is its reply, or its skip message when the round was rejected before it was processed. |
| ToolPhases.OnlyTheCallsAreAnswered | src/core/agent.py:2900-2966 | Every message the round adds is a result for one of its calls, under that call's name. |
| ToolPhases.MessagesInCallOrder | src/core/agent.py:2897-2902 | When nothing is rejected or dropped, the messages answer the calls in call order. |
| ToolPhases.RoundStaysNormal | src/core/agent.py:2952-2966 | A well-formed context followed by the assistant message and the messages of a round in which every call has an id and nothing is rejected or lost is left unchanged by the next repair. |
| ToolPhases.RepairAfterRound | src/core/agent.py:1355-1480 | After any round, rejected or with lost outcomes or with calls without ids, the next repair keeps the context before it and leaves, for each call with an id and in call order, exactly one result: its reply, its skip message or a synthetic one. |
| ToolPhases.MissingIdIsAnsweredTwice | src/core/agent.py:2448-2450 | The smallest such round: one rejected call without an id leaves two messages. |
| ToolGates.EachCallGetsItsOutcome | src/core/agent.py:2435-2966 | Call by call, from the gates and answers alone: a refused call gets its refusal unless the user ended the round before it; an allowed or approved one gets its own result unless the user ended the round or rejected a plan; all others are told they were skipped if the round was rejected, and get nothing if their outcome was lost. |
| ToolGates.RefusedLeavesNoTrace | src/core/agent.py:2459-2680 | Whatever a blocked, denied, rejected, timed out or cancelled call would have answered, the messages of the round are the same. |
| ToolGates.RefusedIsNotQueued | src/core/agent.py:2682-2693 | Only calls that the gate allowed or the user approved are queued, clarify and request_plan_approval for the handlers and all others for execution. |
| ToolGates.RejectedIff | src/core/agent.py:2562-2680 | A round is rejected exactly when the user refuses a call without feedback, interrupts, or rejects a plan. |
| ToolPhases.PhaseA | src/core/agent.py:2442-2693 | The gate loop resolves exactly the calls that need no execution up to the first stop, and queues the others in call order as interactive or executable. |
| ToolPhases.PhaseB1 | src/core/agent.py:2696-2780 | The interactive loop resolves its calls in order and stops after the first rejected plan. |
| ToolPhases.PhaseC | src/core/agent.py:2782-2895 | The merge loop resolves exactly the parallel calls whose outcome was not dropped. |
| ToolPhases.FillSkipped | src/core/stream_phases.py:114-150 | One message for each call whose id has no result yet, in call order. |
| ToolPhases.RunTools | src/core/agent.py:2435-2966 | The phases, the sort by call index and the filling together produce the specified messages. |
| LoopBudget.CallsAreBounded | src/core/agent.py:1948-2030 | With the iteration limit on, whatever user, provider and tools do, at most four times the limit streaming calls are made, and after 4 * limit + 4 passages the loop has ended. |
| LoopBudget.StepKeepsInv | src/core/agent.py:1949-2023 | Each passage that goes on lowers the continues left, or keeps them and lowers the iterations left. |
| LoopBudget.BoundIsReached | src/core/agent.py:1958-2023 | For every limit some run makes exactly four times the limit calls. |
| LoopBudget.BoundedIffLimited | src/core/agent.py:1934-1958 | The number of streaming calls is bounded at all if and only if the limit is switched on. |
| LoopBudget.AnsweredGoesOnIff | src/core/agent.py:2024-2424 | A passage whose call was answered is followed by another exactly when nobody interrupted, there were tool calls, and the user rejected none of them; otherwise no call is ever made again. |
| LoopBudget.FailureGoesOnIff | src/core/agent.py:2030-2330 | After a provider call that fails the loop goes on, with its budgets as they were, exactly when the user continues. |
| LoopBudget.PauseGoesOnIff | src/core/agent.py:1949-2023 | A pause gives a fresh iteration budget when the user continues and fewer than three pauses were continued before; otherwise no call is ever made again. |
| LoopBudget.StreamLoop | src/core/agent.py:1948-2424 | The loop with its breaks and continues ends by the measure (continues left, iterations left) and keeps to both bounds. |
| Beads.AuditedOneMore | src/claraity/claraity_beads.py:268-285 | A row update together with its event keeps the log replaying to the table. |
| Beads.ReplayOneMore | src/claraity/claraity_beads.py:268-285 | One more event changes only its own bead's replayed status. |
| Beads.ParseStatusInverts | src/claraity/claraity_beads.py:38-48 | The seven status texts are the only ones accepted, each for its own status. |
| Beads.BeadStore.AddBead | src/claraity/claraity_beads.py:289-345 | A valid new task is stored open with a created event; an existing id changes nothing; an unknown type or parent is refused. The log still replays to the table. |
| Beads.BeadStore.UpdateStatus | src/claraity/claraity_beads.py:347-384 | A known status is stored with its event, an unknown status or task is refused, and the log still replays to the table. |
| Beads.BeadStore.Claim | src/claraity/claraity_beads.py:386-425 | The compare-and-swap succeeds exactly for a task that is no epic and is free; then assignee, status and event change together, otherwise nothing does. |
| Beads.BeadStore.Reopen | src/claraity/claraity_beads.py:427-442 | The task becomes open and undeferred, with its event. |
| Beads.BeadStore.Defer | src/claraity/claraity_beads.py:444-466 | The task becomes deferred until the given time, with its event. |
| Beads.BeadStore.Touch | src/claraity/claraity_beads.py:569-576 | Renews the last activity of a known task and nothing else. |
| Beads.BeadStore.AddDependency | src/claraity/claraity_beads.py:468-488 | A dependency between known tasks is stored once; an unknown type or task is refused. |
| Beads.BeadStore.ReleaseSession | src/claraity/claraity_beads.py:590-629 | As one transaction, exactly the session's tasks go back to 'agent' and open, one released event each, and the log replays to the table. |
| BeadSessions.NoHandover | src/claraity/claraity_beads.py:386-425 | Under any interleaving of the SQL steps of claims and releases with all other operations, a task never passes from one claimant to another without a release by the first, back to 'agent', in between. |
| BeadSessions.HolderStep | src/claraity/claraity_beads.py:590-629 | In one step a holder keeps its task or gives it back to 'agent' by its own release. |
| BeadSessions.SecondClaimIsRefused | src/claraity/claraity_beads.py:386-425 | Of two sessions that both read a task as free, the one that updates second changes nothing. |
| BeadSessions.ClaimNeverMovesEpics | src/claraity/claraity_beads.py:386-425 | However its steps interleave, claim never changes an epic. |
| BeadSessions.AuditStep | src/claraity/claraity_beads.py:268-466 | Every step other than the UPDATE of a release keeps the log replaying to the table. |
| BeadSessions.ReleaseAuditIff | src/claraity/claraity_beads.py:590-629 | The UPDATE of a release keeps the log replaying to the table if and only if the ids read before still cover what it frees, and whatever else they name is open. |
| BeadSessions.AuditedRunIff | src/claraity/claraity_beads.py:289-629 | In every run, with every SELECT and UPDATE of all sessions interleaved in any way, the log replays to the table at every state if and only if every UPDATE of a release meets that condition. |
| BeadSessions.InterleavedReleaseBreaksAudit | src/claraity/claraity_beads.py:590-629 | A run in which a task is closed between the two statements of its session's release ends with a log that does not replay to the table. |
| BeadReady.ReadyIsClaimableIff | src/claraity/claraity_beads.py:749-794 | A listed task can be claimed exactly when it is no epic and is free or already the caller's. |
| BeadReady.StaleClaimIsRefused | src/claraity/claraity_beads.py:749-794 | A task another session claimed 31 minutes ago is listed and refused. |
| BeadReady.CycleIsNotReady | src/claraity/claraity_beads.py:749-794 | A task on a cycle of unresolved blockers is not ready. |
| BeadReady.SomethingIsReady | src/claraity/claraity_beads.py:749-794 | If only acyclic blockers matter and something is unresolved, the ready list is not empty. |
| BeadReady.EveryScheduleCanFinish | src/claraity/claraity_beads.py:749-794 | However far closing ready tasks has got, it can go on until everything is resolved. |
| BeadReady.FullScheduleRespectsBlockers | src/claraity/claraity_beads.py:749-794 | Closing ready tasks until none is left closes each once, blockers before what they block. |
| BeadReady.ScheduleExistsIffAcyclic | src/claraity/claraity_beads.py:749-794 | Everything can be resolved by closing ready tasks one by one if and only if the blocking dependencies among the unresolved tasks are acyclic. |
| BeadReady.FindSource | src/claraity/claraity_beads.py:749-794 | In an acyclic blocking graph some task has no unresolved blocker. |
| BeadListing.ClaimedListsIff | src/claraity/claraity_beads.py:386-425 | Whatever else happens, a claimed task is off the ready list for thirty minutes; later it is listed exactly when it is no epic and not pinned, deferred or blocked, but other sessions that claim it are refused. |
| BeadListing.TouchedListsIff | src/claraity/claraity_beads.py:569-576 | Each touch keeps a claimed task off the list for another thirty minutes. |
| BeadListing.AddedListsIff | src/claraity/claraity_beads.py:289-345 | A new task is listed exactly from the time it is deferred to, if nobody has it and nothing blocks it. |
| BeadListing.DeferredStaysOff | src/claraity/claraity_beads.py:444-466 | A task put off by defer() is never listed, whatever its date, before something else updates it. |
| BeadListing.ReopenedListsIff | src/claraity/claraity_beads.py:427-442 | Reopening lifts the deferral but keeps the assignee; the task is listed exactly when nobody has it and it is neither pinned nor blocked. |
| BeadListing.StatusListsIff | src/claraity/claraity_beads.py:347-384 | update_status lists a task by open if nobody has it, by in_progress after thirty minutes, and hides it by any other status. |
| BeadListing.ReleasedListsIff | src/claraity/claraity_beads.py:590-629 | A released task is listed at once unless it is pinned, deferred or blocked. |
| BeadListing.OneMoreDependency | src/claraity/claraity_beads.py:785-791 | One more dependency takes exactly its target off the list if its type blocks and its source is neither closed nor pinned, and changes nothing otherwise. |
| BeadListing.NothingBlocks | src/claraity/claraity_beads.py:785-791 | Without dependencies nothing is blocked. |
| CrlfEdit.NormalizeConcat | claraity-vscode/src/sidebar-provider.ts:967-968 | Normalising a concatenation is concatenating the normal forms, unless the seam makes a new CRLF, which costs one character. |
| CrlfEdit.NextToken | claraity-vscode/src/sidebar-provider.ts:977-985 | One step of a cursor loop goes from a token boundary to the next and counts one normalised character. |
| CrlfEdit.Advance | claraity-vscode/src/sidebar-provider.ts:977-997 | A cursor loop stops at the place where the original reads as the wanted number of normalised characters, never inside a CRLF. |
| CrlfEdit.ProposeEdit | claraity-vscode/src/sidebar-provider.ts:967-1003 | Finds the first match if there is a non-empty one and replaces exactly the piece of the original it maps to; otherwise appends the note and the new text. |
| CrlfEdit.CutIsUnique | claraity-vscode/src/sidebar-provider.ts:977-997 | Only one cut of the original reads as a given prefix, so the replaced piece is determined. |
| CrlfEdit.ReplacedPieceIsFirstMatch | claraity-vscode/src/sidebar-provider.ts:972-998 | The replaced piece reads as the searched text, and no earlier piece does. |
| CrlfEdit.ProposalReadsAsReplacement | claraity-vscode/src/sidebar-provider.ts:967-998 | The proposed file reads as the normalised file with its first match replaced if and only if the new text forms no new CRLF at either end. |
| CrlfEdit.SeamExample | claraity-vscode/src/sidebar-provider.ts:998-998 | Replacing X in a carriage return followed by X by a line feed reads as one line feed, not as the replacement. |
| Undo.UndoIsInverse | claraity-vscode/src/undo-manager.ts:51-148 | After any run in which each write follows a snapshot of its path that has landed, and every landing and every failed write of an undo is harmless, undoing the retained checkpoints newest to oldest gives the files exactly as they were when the oldest retained turn began. |
| Undo.RecordsRightIff | claraity-vscode/src/undo-manager.ts:51-148 | In every run in which turns begin between turns and undos, writes follow a landed snapshot, and the newest turn is undone first, the records of all retained turns and of the open one lead back to the files at the beginning of their turns at every state if and only if every read that lands and every write that fails in an undo is harmless. |
| Undo.RightStep | claraity-vscode/src/undo-manager.ts:51-148 | One step keeps all records right if and only if it is no harmful landing and no harmful failure. |
| Undo.LandingIff | claraity-vscode/src/undo-manager.ts:75-83 | A landing keeps the records of the open turn right if and only if it brings the recorded content again or, without a record, the content the file has now, and takes no record that is still needed from another spelling of the path. |
| Undo.SkipRight | claraity-vscode/src/undo-manager.ts:141-143 | A write that fails in an undo leaves the records right if and only if the file has the recorded content anyway or the history was cleared. |
| Undo.FirstReadIsHarmless | claraity-vscode/src/undo-manager.ts:66-83 | The first snapshot of a path in a turn does no harm when it brings the content the file has when it lands. |
| Undo.UndoIsLocal | claraity-vscode/src/undo-manager.ts:122-148 | An undo with nothing running in between restores its own paths, changes no other file and keeps the other checkpoints; an unknown turn changes nothing. |
| Undo.UndoRemovesItsCheckpointIff | claraity-vscode/src/undo-manager.ts:122-148 | In every run, interleaved in any way, the splice of an undo removes the checkpoint that was undone if and only if no entry at or below its index left the history since the undo started; otherwise that checkpoint stays if it is still there. |
| Undo.HeldOrMoved | claraity-vscode/src/undo-manager.ts:122-146 | Until something at or below the index leaves the history the checkpoint stays at its index; from then on it is below it or gone. |
| Undo.SpliceHitsNextTurn | claraity-vscode/src/undo-manager.ts:98-101 | With a full history, a turn committed while the newest one is being undone is the one the splice removes. |
| Undo.SpliceHitsNextTurnRun | claraity-vscode/src/undo-manager.ts:51-148 | A whole run from the start in which undoing the newest of fifty turns leaves the undone checkpoint in the history and removes that of the next turn. |
| Undo.OverlappingUndos | claraity-vscode/src/undo-manager.ts:145-146 | When the undo of the second newest turn ends first, the undo of the newest turn removes nothing. |
| Undo.HistoryIsBounded | claraity-vscode/src/undo-manager.ts:99-101 | The history never exceeds fifty checkpoints, in any run at all. |
| Undo.StaleReadBreaksUndo | claraity-vscode/src/undo-manager.ts:66-83 | A read left over from one turn can land after the next turn's write and overwrite its record; that landing is harmful, and undo then keeps the written content. |
| Undo.RecordsAreKeyed | claraity-vscode/src/undo-manager.ts:71-83 | In every run, every record is filed under its own normalised path. |
| Undo.SamePathIff | claraity-vscode/src/undo-manager.ts:18-21 | Two spellings count as one file exactly when they agree character by character up to the kind of slash and, on Windows, the case of ASCII letters. |
| Undo.RunBornInOrder | claraity-vscode/src/undo-manager.ts:54-59 | In every run, checkpoints enter the history in the order in which they were created, and the open one is the newest. |
| Undo.UndoManager.constructor | claraity-vscode/src/undo-manager.ts:40-48 | A new manager has no history and no open turn. |
| Undo.UndoManager.BeginCheckpoint | claraity-vscode/src/undo-manager.ts:51-60 | Opens the next turn with an empty checkpoint. |
| Undo.UndoManager.SnapshotFile | claraity-vscode/src/undo-manager.ts:66-75 | Starts a read exactly when a turn is open and the path was not snapshotted in it. |
| Undo.UndoManager.SnapshotRead | claraity-vscode/src/undo-manager.ts:75-83 | The content read, or its absence, is recorded in whatever turn is open by then. |
| Undo.UndoManager.CommitCheckpoint | claraity-vscode/src/undo-manager.ts:89-106 | Keeps a non-empty checkpoint as the newest and drops the oldest beyond fifty. |
| Undo.UndoManager.UndoStart | claraity-vscode/src/undo-manager.ts:122-127 | Finds the checkpoint and its index, the locals the later pieces use; an unknown turn changes nothing. |
| Undo.UndoManager.UndoWrite | claraity-vscode/src/undo-manager.ts:129-143 | Writes or deletes one file as recorded, or fails and changes nothing, and goes on with the others. |
| Undo.UndoManager.UndoEnd | claraity-vscode/src/undo-manager.ts:145-148 | Removes the entry at the index found at the start, whatever stands there now. |
| Undo.UndoManager.UndoTurn | claraity-vscode/src/undo-manager.ts:122-148 | When nothing runs in between and no write fails, the pieces of undo together write every record of the turn back and remove its checkpoint, or report that there is none. |
| Undo.UndoManager.Clear | claraity-vscode/src/undo-manager.ts:151-156 | Forgets all history, starts counting turns again and leaves the files alone. |
| Framing.UnwrapInvertsWrapIff | claraity-vscode/src/jsonrpc.ts:21-47 | A wrapped message is a JSON-RPC envelope, and unwrapping gives the message back exactly when it has a type. |
| Framing.EnvelopeIs | claraity-vscode/src/jsonrpc.ts:15-29 | The envelope has version 2.0, the type as the method, and everything else as params, if there is anything. |
| Framing.LinesConcat | claraity-vscode/src/stdio-connection.ts:134-141 | Reading two chunks gives the same lines and leftover as reading their concatenation. |
| Framing.TailIsAfterLastNewline | claraity-vscode/src/stdio-connection.ts:136-141 | The leftover is the text after the last newline. |
| Framing.LineOf | claraity-vscode/src/stdio-connection.ts:245-249 | What send writes for one message is one line, and delivers that message. |
| Framing.StreamDelivers | claraity-vscode/src/stdio-connection.ts:245-249 | The lines of a written message sequence deliver that sequence and leave nothing over. |
| Framing.PaddingDoesNotMatter | claraity-vscode/src/stdio-connection.ts:141-160 | Whitespace around a line, a carriage return included, does not matter; blank lines, null and lines that do not parse deliver nothing, envelopes are unwrapped, and any other value is delivered as it is. |
| Framing.Receiver.OnData | claraity-vscode/src/stdio-connection.ts:133-168 | After any chunk the buffer is the text after the last newline received, and exactly the complete lines have been delivered, in order. |
| Framing.ReceiveAll | claraity-vscode/src/stdio-connection.ts:133-168 | For every message sequence and every way of chunking the stream, exactly the messages sent are fired, in order. |
| Registry.RegistryInvariant | src/core/background_tasks.py:90-411 | In every interleaving at most five tasks run, and what was drained, removed and is still queued adds up to everything ever queued. |
| Registry.NeverRunsAgain | src/core/background_tasks.py:90-411 | A task that has left RUNNING never runs again. |
| Registry.QueuedAtMostOnceIff | src/core/background_tasks.py:352-411 | In every run each task enters the completed queue at most once if and only if no cancel() lands in the timeout cleanup of a running task that is then resumed. |
| Registry.ResultsAreReported | src/core/background_tasks.py:400-411 | In every run whatever completed, failed or timed out has entered the completed queue. |
| Registry.FinalStatusIff | src/core/background_tasks.py:289-411 | In every run a task is completed exactly when some step waited for its process uncancelled and got 0, timed out exactly when some step killed and reaped it, and failed exactly when some step failed to spawn, wait or kill or got another return code. |
| Registry.ReapedCancelIff | src/core/background_tasks.py:359-368 | A task in its timeout cleanup has been cancelled while running exactly when a cancel() landed in that cleanup. |
| Registry.CancelIsFinal | src/core/background_tasks.py:189-212 | A running task that cancel() hits ends as cancelled, whatever happens later; only if it is in its timeout cleanup can it end as timed out instead. |
| Registry.CleanedUpStaysRunning | src/core/background_tasks.py:255-263 | A task that cleanup cancels before its first step stays RUNNING, and counts as such, until a later cancel. |
| Registry.WithoutIsExact | src/core/background_tasks.py:220-227 | Removing a task from the queue removes all its entries and no other. |
| Registry.WithoutConcat | src/core/background_tasks.py:220-227 | It treats each entry by itself, so the others keep their order. |
| Registry.SecondQueueing | src/core/background_tasks.py:360-411 | A step queues a task a second time exactly when it swallows the cancel of a task that cancel() had queued. |
| Registry.SwallowedCancelQueuesTwice | src/core/background_tasks.py:363-368 | A run of seven steps in which the only task is queued twice. |
| Registry.OneTaskStep | src/core/background_tasks.py:289-411 | What one step of the coroutine can do to its task: it never makes it running again, and queues it only when it is not. |
| Registry.BackgroundTaskRegistry.ActiveCount | src/core/background_tasks.py:277-280 | The loop counts the running tasks. |
| Registry.BackgroundTaskRegistry.Start | src/core/background_tasks.py:113-150 | Starts a task under the next id exactly when fewer than five are running. |
| Registry.BackgroundTaskRegistry.CancelOne | src/core/background_tasks.py:189-212 | Cancels and queues a running task; anything else is refused and changes nothing. |
| Registry.BackgroundTaskRegistry.CancelEvery | src/core/background_tasks.py:229-242 | The loop cancels every running task and queues none. |
| Registry.BackgroundTaskRegistry.DrainCompleted | src/core/background_tasks.py:214-218 | Returns the queue in order and empties it. |
| Registry.BackgroundTaskRegistry.RemoveFromCompleted | src/core/background_tasks.py:220-227 | Takes every entry of the task out of the queue and keeps the others in order. |
| Registry.BackgroundTaskRegistry.CleanUp | src/core/background_tasks.py:255-263 | Requests the cancel of every unfinished known task and forgets the asyncio tasks. |
| Registry.BackgroundTaskRegistry.RunCommand | src/core/background_tasks.py:289-411 | From one await to the next the coroutine does what the specification says, on every answer of the process, timeout, cancellation and error included. |
| Retry.NormalizeArgsIsIdempotent | src/core/error_recovery.py:106-139 | Normalising twice is normalising once, for every tool and all arguments. |
| Retry.NormalizedCommandIsItsWords | src/core/error_recovery.py:128-129 | A normalised command is its whitespace-separated words with one space between them. |
| Retry.SameCommandIffSameWords | src/core/error_recovery.py:128-129 | Two commands normalise alike exactly when they have the same words. |
| Retry.WhitespaceDoesNotMatter | src/core/error_recovery.py:128-129 | Exchanging any run of whitespace in a command for any other keeps the normalised call. |
| Retry.NormalizedPathIsItsParts | src/core/error_recovery.py:130-133 | A normalised path is its parts joined by single slashes, with one slash for those at either end. |
| Retry.NormalizedArgumentIs | src/core/error_recovery.py:74-139 | The command of run_command is reduced to its words, the path of the file tools and of list_directory to its parts, the pattern of search_code loses its outer whitespace, and every other argument counts as it is. |
| Retry.StrippedIs | src/core/error_recovery.py:129-135 | Stripping takes exactly the whitespace at both ends off. |
| Retry.RepeatedIffFailedBefore | src/core/error_recovery.py:184-205 | A signature is known exactly when a failure of that tool with the same normalised arguments was recorded since the last full reset, whatever partial resets came between. |
| Retry.ErrorRecoveryTracker.IsRepeatedFailedCall | src/core/error_recovery.py:159-215 | Reports a call exactly when it failed before in that sense, with the summary of its arguments, or raises when that summary raises. |
| Retry.ErrorRecoveryTracker.RecordFailure | src/core/error_recovery.py:229-295 | Keeps all fields in step with the log. attempt_number counts the failures of this tool with this error since its last reset, the history is the last ten summarised failures at most, previous_attempts the last three, and the tails are the last 500 characters. It raises exactly when the summary does, after signature and counters are updated. |
| Retry.ApproachIs | src/core/error_recovery.py:159-182 | What is remembered of a failure: its message up to a hundred characters, and as its arguments the first fifty characters of a command, or else the file_path or path. |
| Retry.TailIs | src/core/error_recovery.py:290-291 | A tail is the end of the output, 500 characters long if there are as many. |
| Retry.ErrorRecoveryTracker.ResetToolErrorCounts | src/core/error_recovery.py:316-338 | Clears the counters of one tool or of all, and keeps signatures, history and total. |
| Retry.ErrorRecoveryTracker.ResetForRequest | src/core/error_recovery.py:340-350 | Clears everything. |

## Left out

- SQLite itself: WAL, migrations, busy retries, FTS5 ranking and query syntax, and the order of rows without ORDER BY. Tables are maps, transactions take effect or are rolled back, foreign keys are guards.
- JSONL export and import of both stores, hashing and uuids; ids are unique names, an edge id is the text that is hashed, and a retry signature determines the call.
- NULL node ids and JSON numbers in text columns of the knowledge store, and the order of the words in a row's extra text.
- auto_layout's reading of stored properties and the cells of system nodes; which components a module lists is an argument of the component layout. Python's recursion limit on deep graphs is not modelled.
- The markdown `render_impact` makes of its chain.
- Json.ParseNumber: doubles are kept as their source text and are not part of the round trip, because floating point is not modelled.
- JsonClasses.JsonParser.ReadNumber: doubles are kept as their source text here too.
- Which units outside ASCII are decimal digits is fixed to the blocks of a recent Unicode version; older Java versions know fewer.
- The writer's fallback to toString for other objects.
- BeadReady.EveryScheduleCanFinish: the time is fixed during a schedule and the ready list is a set, because ORDER BY does not change what is listed.
- Notes, refs, metadata, parents set later, and the free-form add_event of the bead store; add_event can record anything and would make replay meaningless.
- The error-budget pause inside phase C, which cannot be reached because should_allow_retry always allows; tool state for rendering, tracing and hooks; a CancelledError that escapes the execution of a single tool.
- What happens to the context between rounds other than tool calls and results: compaction, reminders, injected notes and partial responses.
- Undo.UndoIsInverse: the undos counted at the end run one after the other with no write failing, and two names of one file other than spellings of its path (links) are not modelled.
- Undo.RecordsRightIff: a turn that begins while another is open, an undo of an older turn and a write without a snapshot are outside the promise; the history is bounded, ordered and spliced as proved in those runs too.
- Non-ASCII lower-casing of Windows paths, and the log messages and the restored list of undo.
- JSON.parse and JSON.stringify of the transport, which are any codec that writes one line per object; params that are strings or arrays.
- Framing.Receiver.OnData: connection events, timeouts and restarts are not modelled, because they do not touch the buffer.
- Surrogate pairs in the editor-side strings, which are compared character by character in both worlds.
- Process spawning, shells and output limits of background tasks, and the safety check before a launch, which refuses without touching the registry.
- Retry.ErrorRecoveryTracker.RecordFailure: an argument that is no string is shown in a summary as its JSON text, where Python's str differs in quotes and key order.
