# GraphARC: verified models of its layout, memory, retrieval, agent loop and protocols

GraphARC draws agent graphs, remembers claims with their provenance, finds and shows them to agents,
and runs those agents behind a permission gate and a budget. This project models the parts of it whose
correctness is hardest to see from the code, and proves what they promise. Each Dafny method follows
the branches of the code it stands for and is proved against a specification; lemmas then state what
the specification means over whole runs.

## How the project is organised

| files | what they model |
|---|---|
| Digraph, DepthFirst, Ranking, RowOrder | removing back edges by depth-first search, longest-path ranks, barycenter sweeps |
| Geometry, Scope, Placement, Layout | coordinates, edge routes, cluster frames and the whole drawing, written into node, edge and cluster objects |
| SameLayout | two snapshots of the same topology drawn side by side |
| Claims, ClaimLog | claims, and the insertion-ordered log with supersession that every claim store implements |
| MemoryBackend, Tables, SqliteBackend | the dictionary store and the row-table store |
| Supersession, LadybugBackend | the property-graph store, which keeps each correction twice: as a column and as an edge |
| StoreAgreement, Forest | the three stores side by side, importing in any order, the clock, and chains of corrections |
| Conflicts | detecting, reporting and resolving contradictions |
| Corpus, Index, Retrieval, Search | the inverted index, BM25F, blended and graph-expanded search, and why each hit was found |
| Relevance | what a score rewards, what an expansion reaches and what a result lists, said of claims and their words |
| SearchBands, BandLimits, HopCounts | the score bands, the largest decays for which they hold, and what the hop counts say |
| DeadEndRetrieval, Brief | showing corrections, and fitting a brief into a token budget |
| Artifacts, ArtifactStores | content-addressed writes as crashable, interleaved steps, and the two artifact stores |
| Permissions, Gate | deny/ask/allow policies and the gate in front of every tool |
| Turns, Agent | the agent loop: transcripts, progress, named exits |
| Spend | the spending ceiling with calls in flight |
| Options, Seqs, Sorting, Texts | optional values, filtering, stable sorting, and the order of texts |

Things the program gets from outside are parameters: name normalisation, tokenisation, the
logarithm (strictly increasing, and zero at one, where a property needs it), rounding, the embedder, the digest, the text encoding,
glob matching, hooks, approvals, the executor, the model and the budget meter. Those that may answer
differently each time take a counter as an argument. Floats are exact reals. A timestamp is the number
of microseconds it stands for; its text is fixed-width, so the two have the same order.

## Where the code and what is said about it differ

* `MemoryStore.current` drops an empty predicate, while the other stores look for it
  (store.py:203, sqlite_store.py:242, ladybug_store.py:400). `ClaimLog.CurrentAgreesIff` says the stores
  agree exactly when the predicate is absent or not empty.
* `LadybugMemoryStore.dead_ends` walks edges, so it misses a correction whose superseder is not stored;
  `LadybugBackend.DeadEndsAgreeIff` says it agrees with the others exactly when every named superseder is.
* The stale-edge statement cannot tell "no superseder" from a superseder whose id is the empty text
  (ladybug_store.py:349-353). `Supersession.ReconciledAgrees` gives the exact condition, and
  `Supersession.StaleEdgeHappens` an edge that survives.
* The backfill of an older graph database only fills columns that are null (ladybug_store.py:253-258).
  It brings columns and edges into agreement exactly when each claim has at most one edge, to what its
  column names if it names anything, and each stored superseder has its edge;
  `Supersession.BackfillAgreesIff`. `Supersession.ColumnWithoutEdge` is a database for which it does not.
* `matches` is documented as unable to loosen a policy. An ask rule that names a tool literally does
  turn a default denial into a question; `Permissions.LiteralMatchNarrowsIff` says exactly when, and
  `Permissions.LiteralAskLoosens` shows a rule that does.
* Only the first reply without a tool call is meant to be the answer. If that reply is empty, the last
  text said mid-work is returned as the answer; `Turns.AnswerIsLastReplyIff` says when the two coincide,
  and `Turns.UtteranceBecomesAnswer` shows a run in which they do not.
* Reading an artifact back rests on the digest having no collisions, and on nothing else;
  `Artifacts.ReadsBackIffInjective`.
* Corrections are meant to form chains in order of time that end at a current claim (store.py:137-148),
  yet a claim may be stored as already superseded, and a store may be reopened under a clock that has
  stepped back. Two properties, two exact conditions, for a run from any stored log:
  every chain ends at a current claim exactly when each written claim is current or its own chain ends
  without passing what the operation writes, whatever the clock does (`Forest.StepEndsCurrentIff`,
  `Forest.RunEndsCurrentIff`); and corrections strictly increase in time along every chain exactly when,
  besides, each written claim and each corrected claim was superseded after all that it corrected
  (`Forest.StepKeepsForestIff`, `Forest.RunIsForestIff`). `Forest.StaleReplacementMakesCycle` breaks the
  first; `Forest.ClockBehindBreaksOrder` only the second.
* `hops` is documented as the number of edges to a direct match (retrieval.py:84-91). A direct match that
  is overwritten through the graph in the hop in which it is expanded itself makes it one too few:
  `HopCounts.LineIsShort`. It is never too many (`HopCounts.FinalHopsWithin`), and is exact along an
  explanation exactly when each hit is recorded one hop further than the next
  (`HopCounts.HopsAlongExplanation`). No positive decay rules the difference out
  (`HopCounts.HopsCountEdgesIff`).
* The score bands (retrieval.py:65-71) depend on the hop decay, which the caller may set. Graph hits stay
  at 0.9 or below in every search exactly for decays up to 9/19, and claims about a named entity come
  first in every unrounded search exactly for decays below 10/19; `BandLimits.BandsHoldIff`,
  `BandLimits.NamedFirstIff`. The default of 0.45 is below both.

## Model

| member | source | states |
|---|---|---|
| DepthFirst.BackEdges | grapharc/observe/layout.py:48-76 | The search ends, and the edges it returns are a minimal cut: without them no cycle is left, and each one is closed into a cycle by edges that stay. They are also the one outcome of the search as a relation. |
| DepthFirst.EveryRemovalIsNeeded | grapharc/observe/layout.py:48-49 | Putting back any single removed edge makes the graph cyclic again. |
| DepthFirst.SearchCutIsUnique | grapharc/observe/layout.py:7-8 | The same graph listed in the same order always loses the same edges. |
| Digraph.DescendingIsAcyclic | grapharc/observe/layout.py:48-76 | A graph whose every edge goes down in some numbering has no cycle. |
| Ranking.Ranks | grapharc/observe/layout.py:79-104 | Every node is dequeued exactly once; each rank is the length of the longest path of kept edges into the node; the removed edges are a minimal cut. |
| Ranking.TightIsLongest | grapharc/observe/layout.py:93-103 | Ranks that every kept edge raises by at least one, and some edge by exactly one, are the longest-path lengths. |
| Ranking.RanksAreUnique | grapharc/observe/layout.py:79-104 | There is one longest-path rank, however the queue was worked off. |
| Ranking.NoRankSkipped | grapharc/observe/layout.py:111-113 | Below the rank of any node every rank is taken by some node. |
| Ranking.AllDequeued | grapharc/observe/layout.py:93-103 | When the queue is empty, no node was left waiting: the queue's order lists every node once. |
| RowOrder.OrderedRows | grapharc/observe/layout.py:107-139 | The in-place sweeps are three passes, down, up and down, over the rows of the ranks: each row is ordered by the mean place of its nodes' joined neighbours in the row it follows, counted edge by edge, a node without one keeping its place and ties their order. |
| RowOrder.OrderedKeepsRows | grapharc/observe/layout.py:121-130 | No sweep moves a node to another row, drops one or repeats one. |
| RowOrder.SweepKeepsTies | grapharc/observe/layout.py:110-130 | Nodes of a row with equal barycenters keep their order through a sweep in either direction. |
| RowOrder.SweepDownSettles | grapharc/observe/layout.py:121-136 | A downward sweep settles every row against the final state of the row above it. |
| Geometry.BoxesApart | grapharc/observe/layout.py:159-173 | Any two boxes of a placed scope keep the horizontal gap in a row, or the vertical gap between rows. |
| Geometry.BoxInside | grapharc/observe/layout.py:159-174 | Every box lies inside the block's width and height. |
| Geometry.RowIsCentred | grapharc/observe/layout.py:162-173 | In a row the boxes stand exactly one gap apart, centred in the block, with their middles on one line. |
| Geometry.RowsStack | grapharc/observe/layout.py:163-173 | The tallest boxes of neighbouring rows stand exactly one row gap apart. |
| Geometry.RowsFillBlock | grapharc/observe/layout.py:162-174 | The first row starts at the top of the block and the last ends at its bottom. |
| Geometry.WidestRowFillsBlock | grapharc/observe/layout.py:158-165 | The widest row starts at the left of the block. |
| Geometry.ForwardRunsDown | grapharc/observe/layout.py:195-199 | Between boxes at least the row gap apart, the route goes monotonically down from bottom to top edge. |
| Scope.PlanRowNotEmpty | grapharc/observe/layout.py:111-113 | No row of a non-empty scope is empty. |
| Scope.ForwardEdgeDescends | grapharc/observe/layout.py:142-173 | Every kept edge leads from a box to one at least the row gap below it, so it is no self-loop. |
| Scope.EdgeIsNear | grapharc/observe/layout.py:176-199 | Every route, self-loops and back-edge arcs included, stays within a fixed reach of the block. |
| Scope.PlanIsDetermined | grapharc/observe/layout.py:7-9 | Removed edges, ranks and row order of a scope are a function of its ids and edges. |
| Placement.PlaceRows | grapharc/observe/layout.py:163-173 | The coordinates written into the nodes are those of the row layout, for every row. |
| Placement.PlaceScope | grapharc/observe/layout.py:142-200 | Nodes and edges of one scope end at their planned places; edges that leave the scope keep their points. |
| Layout.DrawScope | grapharc/observe/layout.py:217-233 | A scope moved to a frame stands exactly where its plan puts it: boxes apart and inside the frame; kept edges run down; each removed edge runs from the right of its source around the right of every node to the right of its target; self-loops bulge; edges that leave the scope are only shifted. |
| Layout.MembersArePadded | grapharc/observe/layout.py:224-236 | The members of a cluster stand at least the padding inside its frame. |
| Layout.StackClusters | grapharc/observe/layout.py:215-239 | Cluster frames follow each other downwards exactly one gap apart and the widest is known; drawing one cluster disturbs no other; state edges, edges in no scope and nodes in no cluster are left alone. |
| Layout.DrawStateEdges | grapharc/observe/layout.py:240-249 | Every state edge between two clusters joins the frames as they now stand, also if it is listed twice; all others keep their points. |
| Layout.LayoutClusters | grapharc/observe/layout.py:214-251 | Every cluster contains its members, frames are disjoint, the canvas is the stack of frames and its margins, and all of it is on the canvas. |
| Layout.LayoutSingle | grapharc/observe/layout.py:252-260 | Without clusters the whole snapshot is one scope, and the canvas is its block and margins. |
| Layout.LayoutGraph | grapharc/observe/layout.py:203-261 | End to end: in every scope no two boxes overlap, removed edges are a minimal cut and each runs from the middle of its source's right side, at one x right of every box, to the middle of its target's right side; self-loops bulge out of their node; all others run down with the row gap; frames are disjoint and contain their members, every computed point is on the canvas, and an empty snapshot changes nothing but the size. |
| SameLayout.SameTopologySameGeometry | grapharc/observe/layout.py:7-9 | Two drawings of one scope with the same ids, sizes and edges have identical boxes and routes. |
| SameLayout.LayoutBoth | grapharc/observe/layout.py:7-9 | Laying out two snapshots with the same ids, sizes, edges, kinds and clusters gives identical node boxes, cluster frames, routes of scoped and of state edges, width and height, whatever else the snapshots carry. |
| ClaimLog.CorrectionKeepsProvenance | grapharc/memory/store.py:190-198 | A correction stores the new claim, marks and links the old one and keeps everything else about it, and leaves every other claim as it was. |
| ClaimLog.PutChangesOneClaim | grapharc/memory/store.py:137-139 | Writing never removes or moves a claim and changes at most the one with that id. |
| ClaimLog.GetPut | grapharc/memory/store.py:182-188 | What is written under an id is read back, and reads of other ids do not change. |
| ClaimLog.CurrentAgreesIff | grapharc/memory/store.py:200-210 | The stores agree on the current claims for every log and subject if and only if the predicate is absent or not empty. |
| MemoryBackend.MemoryStore.Supersede | grapharc/memory/store.py:190-198 | The dictionary steps as the log does, and refuses exactly an unknown claim, a superseded one, naming its superseder, and a self-correction. |
| MemoryBackend.MemoryStore.CurrentClaims | grapharc/memory/store.py:200-210 | Exactly the stored claims about the subject, and the predicate unless it is absent or empty, that nothing has superseded, in insertion order. |
| MemoryBackend.MemoryStore.HistoryOf | grapharc/memory/store.py:212-218 | Exactly the claims about the key: those observed earlier first, and of those observed together the one first stored first. |
| Tables.SortByTime | grapharc/memory/sqlite_store.py:247-253 | Ordering rows by time and then rowid is the stable sort by time. |
| Tables.FetchedInAnyOrder | grapharc/memory/ladybug_store.py:296-300 | An ordered query gives the same answer whatever order its rows are fetched in. |
| Tables.AnswersAgree | grapharc/memory/sqlite_store.py:238-260 | Filtering and ordering the stored columns answers what filtering the log would. |
| SqliteBackend.SqliteStore.Upsert | grapharc/memory/sqlite_store.py:213-216 | An upsert keeps an existing row's place and puts a new row last, as the log does. |
| SqliteBackend.SqliteStore.Supersede | grapharc/memory/sqlite_store.py:222-236 | The row table steps as the log does, with the same refusals. |
| SqliteBackend.SqliteStore.HistoryOf | grapharc/memory/sqlite_store.py:247-253 | The same history as the dictionary store, read off the claims' own fields. |
| Supersession.MergeBackward | grapharc/memory/ladybug_store.py:359-363 | Every stored predecessor gets its edge, no edge is doubled and no other changes, in whatever order they are visited. |
| Supersession.ReconciledAgrees | grapharc/memory/ladybug_store.py:332-363 | After a write the edges are exactly one for each stored pair the columns link, if and only if the write does not clear a column whose edge ends at the claim with the empty id. |
| Supersession.StaleEdgeHappens | grapharc/memory/ladybug_store.py:344-353 | A claim superseded by the one with the empty id and stored again as current keeps its edge, in whatever order the rest is merged. |
| Supersession.BackfillAgreesIff | grapharc/memory/ladybug_store.py:253-258 | Filling null columns from edges makes them agree if and only if each claim has at most one edge, to what its column names if it names anything, and every stored superseder has its edge. |
| Supersession.ColumnWithoutEdge | grapharc/memory/ladybug_store.py:253-258 | A database whose column names a stored claim without an edge is not migratable, and stays in disagreement after the backfill. |
| Supersession.Backfill | grapharc/memory/ladybug_store.py:253-258 | Every null column with an edge takes the end of one of its edges, and nothing else changes. |
| Supersession.CreateAgrees | grapharc/memory/ladybug_store.py:383-393 | The explicit creation of an edge in a correction never doubles one, and the edges agree again afterwards. |
| Supersession.AgreementDetermines | grapharc/memory/ladybug_store.py:332-342 | Graphs over the same claims whose edges agree with the columns have the same edges. |
| LadybugBackend.UpsertHolds | grapharc/memory/ladybug_store.py:302-311 | Upserting a node is putting the claim in the log; a new one takes the next number and an old one keeps its own. |
| LadybugBackend.Query | grapharc/memory/ladybug_store.py:296-300 | A filtered, ordered query over nodes visited in any order answers what the log's rows would. |
| LadybugBackend.WalkedRows | grapharc/memory/ladybug_store.py:421-430 | With agreeing edges, the walk reaches each superseded claim with a stored superseder exactly once. |
| LadybugBackend.DeadEndsAgreeIff | grapharc/memory/ladybug_store.py:421-430 | Walking edges finds the dead ends the other stores report, for every subject, if and only if every named superseder is stored. |
| LadybugBackend.RebuiltIsFaithful | grapharc/memory/ladybug_store.py:312-329 | Rebuilding the entity edges of a written claim keeps them exactly those of the stored claims, even when its subject changed. |
| LadybugBackend.LadybugStore.Write | grapharc/memory/ladybug_store.py:302-330 | A write steps the log and keeps the edges in step with the columns exactly when it leaves no stale edge, and always when the id is new or no id is empty. |
| LadybugBackend.LadybugStore.Supersede | grapharc/memory/ladybug_store.py:374-394 | The graph steps as the log does, with the same refusals, and its edges stay in step. |
| LadybugBackend.LadybugStore.DeadEndsOf | grapharc/memory/ladybug_store.py:421-430 | The claims about the subject that an edge leads out of, once for each edge; with edges in step, the superseded claims whose superseder is stored, in insertion order. |
| LadybugBackend.LadybugStore.Reopen | grapharc/memory/ladybug_store.py:243-264 | Reopening any database fills null columns from edges, resumes the counter above every stored number and changes nothing else; columns and edges agree afterwards if and only if the database could be migrated, and one that agreed before is left as it was. |
| StoreAgreement.Replay | grapharc/memory/store.py:130-152 | After any sequence of operations with the same clock answers, the three stores hold the same log and refused the same operations for the same reasons; without empty ids the graph's edges agree with its columns. |
| StoreAgreement.AskAll | grapharc/memory/ladybug_store.py:370-433 | Asked the same questions, the three stores answer alike: always for `get`, `history` and `all_claims`, and for `current` unless the predicate is empty, whatever the graph's edges. |
| StoreAgreement.AskDeadEnds | grapharc/memory/ladybug_store.py:421-430 | For dead ends the dictionary and the row table always answer alike, and the graph with them once its edges are in step and every superseder is stored. |
| StoreAgreement.ImportInAnyOrder | grapharc/memory/ladybug_store.py:332-347 | Importing a set of claims in any two orders gives the same supersession edges, one for each stored pair, and the same entity edges. |
| Forest.Clock.Now | grapharc/memory/store.py:32-63 | The stamp is the reading, or one past the last stamp where the clock has not moved on. |
| Forest.TicksIncrease | grapharc/memory/store.py:45-49 | Stamps increase strictly, whatever the clock reads, even stepping backwards. |
| Forest.TicksStayClose | grapharc/memory/store.py:56-61 | A stamp is never behind its reading, and ahead of the highest reading by less than one tick per call. |
| Forest.StepEndsCurrentIff | grapharc/memory/store.py:182-198 | An operation keeps every chain of corrections ending at a current claim if and only if it is refused, or the claim it writes is current, or that claim's own chain ends without passing what the operation writes; no clock plays a part. |
| Forest.RunEndsCurrentIff | grapharc/memory/store.py:182-198 | From any log whose chains end at current claims they do so at every point of a run if and only if every write meets that condition where it is made. |
| Forest.RunEndsCurrent | grapharc/memory/store.py:190-198 | So they do over every run whose written claims are current, whatever the clock answers. |
| Forest.PutKeepsForestIff | grapharc/memory/store.py:182-184 | Writing a claim keeps the forest, in which each superseded claim names a stored claim superseded later, if at all, if and only if the claim is current, or its superseder is another stored claim, it was superseded before that one and after every claim it superseded. |
| Forest.StepKeepsForestIff | grapharc/memory/store.py:182-198 | Whatever the clock answers, an operation keeps the forest if and only if it is refused, or adds a claim that fits so, or corrects with one that does, all that the corrected claim had corrected was superseded before, and the new claim, if it is superseded itself, was so later and by another claim. |
| Forest.RunIsForestIff | grapharc/memory/store.py:182-198 | From any forest and with any clock answers, supersession is a forest at every point of a run if and only if every write fits where it is made. |
| Forest.RunIsForest | grapharc/memory/store.py:190-198 | Over every run whose written claims are current, from any forest that the clock is ahead of, an empty store among them, supersession stays a forest. |
| Forest.Session | grapharc/memory/store.py:169-198 | A store and its clock, driven on from where they stand, hold the log of that run; with current claims written its chains end at current claims, and it stays a forest if the clock was ahead of every stored stamp. |
| Forest.ChainEndsCurrent | grapharc/memory/store.py:145-148 | Following corrections is finite, in strictly increasing time of correction, and ends at the chain's only current claim. |
| Forest.ChainIsTheOnlyWalk | grapharc/memory/store.py:137-139 | There is one way to follow corrections to a current claim. |
| Forest.CurrentAndDeadEndsPartition | grapharc/memory/store.py:200-227 | Every claim about a subject is in exactly one of the current claims and the dead ends, as often as it is stored. |
| Forest.ForestEndsCurrent | grapharc/memory/store.py:137-148 | In a forest every chain ends at a current claim. |
| Forest.ClockBehindBreaksOrder | grapharc/memory/store.py:56-63 | Under a clock that stands behind a stored stamp, correcting the claim that stamp names breaks the order of time, though every chain still ends at a current claim. |
| Forest.StaleReplacementMakesCycle | grapharc/memory/store.py:190-198 | Correcting with a claim that already names the corrected one makes the two supersede each other. |
| Conflicts.GroupConflicts | grapharc/memory/contradiction.py:143-166 | Any two current claims about one key with different values are in a group; each group is exactly the current claims of its key, oldest first with ties by id; the groups are in key order, one for each key. |
| Conflicts.ReportIsUnique | grapharc/memory/contradiction.py:154-166 | Claims that agree key by key have one and the same report, whatever order they come in. |
| Conflicts.Unresolved | grapharc/memory/contradiction.py:169-188 | Unscoped, every contradiction in the store; scoped to entities, the full report restricted to the named subjects. |
| Conflicts.RivalIffReported | grapharc/memory/contradiction.py:92-109 | A stored current claim has a rival if and only if the full scan reports a group under its key. |
| Conflicts.Detect | grapharc/memory/contradiction.py:92-109 | Exactly the stored current claims under the key with another id and another value, oldest first, each paired with the claim; for a stored current claim with a non-empty predicate some exist exactly when a group is reported. |
| Conflicts.AddAndDetect | grapharc/memory/contradiction.py:112-124 | The claim is stored whatever it disagrees with, and the report describes the store with it. |
| Conflicts.ReportedHasContradictions | grapharc/memory/contradiction.py:77-89 | A reported group always has a pair to resolve. |
| Conflicts.Resolve | grapharc/memory/contradiction.py:127-140 | Resolving every pair of a reported group is never refused. It keeps the newest claim, by time and then id; marks with it, each at its own tick, exactly the claims of the group that say otherwise; changes nothing else; and removes exactly that group from the report. |
| Conflicts.StalePairIsRefused | grapharc/memory/contradiction.py:135-138 | From the moment a pair's existing claim is superseded, by anything, until its id is written again, resolving the pair is refused, names that superseder and changes nothing. |
| Conflicts.CorrectionMakesStale | grapharc/memory/contradiction.py:135-138 | Any correction of the claim that was not refused, of this pair or of another, has that effect, in a run from any log. |
| Corpus.AverageLengthPositive | grapharc/memory/index.py:106-110 | The average length is positive wherever a term is found, so the division by it is safe. |
| Index.ClaimIndex.constructor | grapharc/memory/index.py:78-110 | The index describes the set of claims loaded: postings, lengths, entity lists and average do not depend on their order. |
| Relevance.AverageIsMean | grapharc/memory/index.py:106-110 | The average length is the mean of the claims' lengths, in words weighted by field. |
| Relevance.FirstLoadedWins | grapharc/memory/index.py:92-96 | Of claims loaded under one id the first is kept. |
| Index.ClaimIndex.Bm25Scores | grapharc/memory/index.py:152-178 | The accumulated scores are BM25F over the set of claims, each query term counted once. |
| Relevance.OneTermScore | grapharc/memory/index.py:157-177 | A claim found by one term of the query scores that term's contribution once, however often the query repeats it. |
| Relevance.RarerScoresHigher | grapharc/memory/index.py:172-173 | Of two claims alike in length and frequency, each found by one term of the query, the one whose term fewer claims say scores strictly higher. |
| Relevance.OftenerScoresHigher | grapharc/memory/index.py:174-177 | Of two claims alike in length, found by the same term, the one that says it more often in some field and no less in any scores strictly higher. |
| Relevance.BetterFieldScoresHigher | grapharc/memory/index.py:35-40 | An occurrence in the subject outweighs one in the object, and that outweighs one in the predicate. |
| Relevance.ShorterScoresHigher | grapharc/memory/index.py:175-177 | Of two claims that say the term equally often, the shorter scores strictly higher. |
| Index.ClaimIndex.NeighbourList | grapharc/memory/index.py:214-228 | Exactly the other claims whose subject is this one's object, or whose object is its subject, each once. |
| Retrieval.RankTellsApart | grapharc/memory/index.py:275-283 | Ranking ties only a claim with itself, whatever rounding does to the scores. |
| Retrieval.RankingIsOrderFree | grapharc/memory/index.py:286-288 | Sorting by rank forgets the order the ids came in. |
| Search.BlendScores | grapharc/memory/index.py:248-272 | Only the lexical side is rescaled; a missing channel leaves the other. |
| Relevance.BlendWeighsBoth | grapharc/memory/index.py:248-272 | With both channels a blended score is the weighted sum of the claim's part of the best lexical score and its similarity. |
| Relevance.BlendClampsWeight | grapharc/memory/index.py:267 | A weight outside its range counts as the end it is beyond. |
| Relevance.BlendOfOne | grapharc/memory/index.py:261-266 | With one channel silent the other speaks alone, the lexical one in parts of its best score. |
| Relevance.SimilarAboveFloor | grapharc/memory/index.py:180-202 | The similarity channel knows exactly the claims whose cosine, or zero if it is negative, reaches the floor. |
| Relevance.SeedMeans | grapharc/memory/retrieval.py:165-187 | The direct matches are the kept claims about a named entity, worth 1, or with a text score, worth nine tenths of it, or the sum for both, and the channel says which. |
| Search.ExpandGraph | grapharc/memory/retrieval.py:197-208 | Expanding hop by hop, with offers in any neighbour order, gives the order-free expansion. |
| Relevance.GraphHitsShareNames | grapharc/memory/retrieval.py:197-208 | At the end each hit with a via is another claim than it and shares a name with it, object to subject in either direction. |
| Relevance.ExpansionReaches | grapharc/memory/retrieval.py:197-208 | Whatever is expanded passes on its score: in the end every kept claim it shares a name with has at least that score decayed once. |
| Relevance.HopPromotes | grapharc/memory/retrieval.py:199-205 | A hop promotes exactly the claims it found or raised, at the scores they then have. |
| Relevance.PromotedReach | grapharc/memory/retrieval.py:206-208 | The strongest of what one hop promotes are expanded in the next. |
| Relevance.StrongestAreExpanded | grapharc/memory/index.py:286-288 | As many are expanded as claims were asked for, one at least, and none that is not ranks before one that is. |
| Search.Search | grapharc/memory/retrieval.py:113-213 | The ranked hits, with via, hops and channel, are a function of the set of claims loaded. |
| Relevance.ResultIsListed | grapharc/memory/retrieval.py:210-213 | The result is in descending order of rounded score, then recency, then id. |
| Relevance.ResultLeavesOutLast | grapharc/memory/retrieval.py:210-213 | No hit that is left out ranks before one that is listed. |
| Relevance.ResultLength | grapharc/memory/retrieval.py:210-213 | The list holds as many hits as were asked for, or all there are; a negative number leaves as many off the end. |
| Relevance.NothingAskedNothingFound | grapharc/memory/retrieval.py:142-144 | A search that asks for nothing finds nothing. |
| Search.LoadOrderIsForgotten | grapharc/memory/index.py:92-96 | Any permutation of claims with distinct ids loads as the same corpus. |
| Retrieval.FinalHitsExplained | grapharc/memory/retrieval.py:157-208 | At the end, despite overwrites, each hit reached through the graph scores at most the decayed final score of the hit it was reached through. |
| Retrieval.EveryHitIsExplained | grapharc/memory/retrieval.py:84-91 | With a decay below one, following via from any hit climbs in score and ends at a direct match. |
| HopCounts.FinalHopsWithin | grapharc/memory/retrieval.py:197-208 | At the end, despite overwrites, each hit is recorded at most one hop further than the hit it was reached through. |
| HopCounts.HopsAlongExplanation | grapharc/memory/retrieval.py:84-91 | The hops of a hit are at most the edges of its explanation, and equal them if and only if each hit along it is recorded one hop further than the next. |
| HopCounts.LineIsShort | grapharc/memory/retrieval.py:84-91 | For every positive decay, three claims in a line and a weak match in the middle: the last is recorded as one hop away and stands two edges from a direct match. |
| HopCounts.HopsCountEdgesIff | grapharc/memory/retrieval.py:84-91 | In every search with a given decay each hit is recorded exactly one hop further than its via, if and only if the decay is not positive. |
| SearchBands.FinalHitsInBands | grapharc/memory/retrieval.py:65-71 | Every kept claim about a named entity is a direct match scoring at least 1, and every other hit scores at most 0.9 or 1.9 decays, whichever is more, where that is below 1. |
| BandLimits.BandsHoldIff | grapharc/memory/retrieval.py:55-71 | In every search with a given decay named claims score at least 1 and all others at most 0.9, if and only if the decay is at most 9/19. |
| BandLimits.NamedFirstIff | grapharc/memory/retrieval.py:65-71 | In every unrounded search with a given decay no claim about anything else is listed before one about a named entity, if and only if the decay is below 10/19. |
| SearchBands.NamedComeFirst | grapharc/memory/retrieval.py:65-71 | No claim about anything else is listed before a claim about a named entity, wherever rounding tells the top of the lower band from 1. |
| SearchBands.ParentsComeFirst | grapharc/memory/retrieval.py:210-213 | A hit with a lower rounded score than another is listed after it. |
| SearchBands.ResultClosedUnderVia | grapharc/memory/retrieval.py:210-213 | On unrounded scores, a listed hit's via is listed before it, wherever the list was cut. |
| SearchBands.TextAtMostOne | grapharc/memory/index.py:231-272 | Blended text scores are at most one, whatever weight is asked for. |
| DeadEndRetrieval.RetrieveDeadEnds | grapharc/memory/retrieval.py:241-295 | The superseded claims of the named entities, each once: more relevant ones first, of equally relevant ones the later corrected, then the later observed, then by id downwards; the shown ones start that list, and the rest is counted. |
| DeadEndRetrieval.RankingForgetsOrder | grapharc/memory/retrieval.py:252-268 | Which corrections are shown, and in which order, does not depend on storing order or on how the entities are listed. |
| DeadEndRetrieval.AnswerForgetsOrder | grapharc/memory/retrieval.py:252-263 | Stores that hold the same claims in any order answer alike, cut and count included. |
| Brief.Fit | grapharc/memory/retrieval.py:339-380 | Each block shows, after a blank line unless it is the first, its header and a prefix of its entries, or nothing; the note stands last exactly when something was left out, and says how much; nothing is left out that would have fitted beside the reserve; and with a note within the reserve all lines together fit the budget. |
| Brief.CostIsOfLines | grapharc/memory/retrieval.py:353-376 | Where a blank line costs one token, what is charged is the sum of what the lines cost. |
| Brief.KeepsNoMore | grapharc/memory/retrieval.py:351-378 | A cut never keeps more entries than there are, so what was dropped is the rest. |
| Artifacts.Prepare | grapharc/memory/artifacts.py:116-158 | Blank names and sources are refused, the name first; otherwise the payload is the content given, encoded if it is text; digest and size are the payload's; the media type is the one asked for, or the default for its kind of content; and every other field is the request's own. |
| Artifacts.RunIsSound | grapharc/memory/artifacts.py:336-361 | For any interleaving of writers with crashes at any step: a blob path never holds partial content, every row has its blob, and the rows are the puts that succeeded. |
| Artifacts.ReadsBack | grapharc/memory/artifacts.py:430-440 | Without digest collisions, reading any id gives the bytes put under it and never finds content missing. |
| Artifacts.PutThenRead | grapharc/memory/artifacts.py:413-424 | The id a put returned reads back its bytes at every later time, whatever else happens. |
| Artifacts.LedgerOnlyGrows | grapharc/memory/artifacts.py:166-169 | A recorded put is never lost, moved or changed. |
| Artifacts.ReadsBackIffInjective | grapharc/memory/artifacts.py:344-346 | Reading back holds for every run if and only if the digest has no collisions. |
| ArtifactStores.MemoryArtifactStore.Put | grapharc/memory/artifacts.py:238-265 | The put is recorded, or refused with nothing changed, as the shared contract says. |
| ArtifactStores.MemoryArtifactStore.ReadBytes | grapharc/memory/artifacts.py:270-274 | The bytes put under the id, or unknown. |
| ArtifactStores.SqliteArtifactStore.WriteBlob | grapharc/memory/artifacts.py:336-361 | The content is in place at the end, whatever other writers do between any two steps. |
| ArtifactStores.SqliteArtifactStore.Put | grapharc/memory/artifacts.py:391-424 | Among other writers, what a put returns can be read back and no recorded put is disturbed; alone, it answers exactly as the in-memory store. |
| ArtifactStores.SqliteArtifactStore.ReadBytes | grapharc/memory/artifacts.py:430-440 | The same answer as the in-memory store for the same recorded puts. |
| ArtifactStores.LatestIsNewest | grapharc/memory/artifacts.py:178-179 | There is a latest version when there is an artifact of that name, and every other of them is older, or as old with a smaller id. |
| ArtifactStores.MemoryArtifactStore.Versions | grapharc/memory/artifacts.py:279-284 | Exactly the stored artifacts of the name, each once, the older before the newer and ties by id. |
| ArtifactStores.SqliteArtifactStore.Versions | grapharc/memory/artifacts.py:445-452 | The same versions, from the rows on disk. |
| ArtifactStores.VersionsIgnoreInsertion | grapharc/memory/artifacts.py:215-222 | The order of versions does not depend on the order of insertion. |
| Texts.DictionaryOrder | grapharc/memory/artifacts.py:215-222 | Ids are ordered as in a dictionary: a text before its extensions, and otherwise by the first difference. |
| Permissions.RuleOrderIsIrrelevant | grapharc/harness/permissions.py:87-92 | A verdict depends on which rules there are, not on their order or repetition. |
| Permissions.DenyBeatsAll | grapharc/harness/permissions.py:5-6 | A matching deny anywhere in a policy, also deep inside combinations, denies. |
| Permissions.StrictestRuleDecides | grapharc/harness/permissions.py:87-92 | A policy denies where a deny rule names the tool, asks where none does and an ask rule does, allows where only an allow rule does, and otherwise decides its default. |
| Permissions.LiteralMatchNarrowsIff | grapharc/harness/permissions.py:57-74 | Matching deny and ask rules literally never loosens a verdict, except exactly where no glob matches, the default denies, and an ask rule but no deny rule names the tool. |
| Permissions.LiteralAskLoosens | grapharc/harness/permissions.py:57-74 | Under a default denial, an ask rule for a bracketed name turns the denial into a question. |
| Permissions.CombinedIsGreatestLowerBound | grapharc/harness/permissions.py:139-150 | A combination decides the greatest lower bound of its members. |
| Permissions.StrictestMemberDecides | grapharc/harness/permissions.py:139-150 | A combination denies exactly when a member denies or there is none, and allows exactly when all do. |
| Permissions.MemberOrderIsIrrelevant | grapharc/harness/permissions.py:100-102 | Members may be listed in any order and any number of times. |
| Gate.ToolRegistry.Register | grapharc/harness/tools.py:33-37 | A taken name is refused and keeps its tool. |
| Gate.ToolRegistry.Visible | grapharc/harness/tools.py:42-48 | Exactly the registered tools the policy does not deny, each once, by name. |
| Gate.CalledIsHandled | grapharc/harness/core.py:72-104 | A call that is not permitted, or that the first hook with an opinion denies or fails, runs nothing and fails for just that reason; any other runs the tool once, with the arguments asked for or the first opinion's own, and its outcome goes once through every post-hook in order. |
| Gate.OnlyOpenGatesRun | grapharc/harness/core.py:72-100 | The executor runs if and only if the tool is registered, allowed or asked about and approved, and either no hook has an opinion or the first that has one rewrites; and then for the named tool, visible to the model, with those arguments. |
| Gate.CombinationOnlyNarrows | grapharc/harness/permissions.py:104-110 | With the same hooks and approvals, a call a combination lets through goes through each member alone, to the same outcome. |
| Gate.Harness.Call | grapharc/harness/core.py:72-104 | The call is handled just so, whatever loops the harness runs; every executor run so far went through an open gate; a denial hook that raises is counted and changes nothing else. |
| Turns.StalledMeans | grapharc/harness/agent.py:583-584 | Turns have stalled for n exactly when none of the last n had a success that differs in tool, arguments or result from every success of the turns before it. |
| Turns.TurnBound | grapharc/harness/agent.py:556-587 | A run that goes on only while it has not stalled for s turns has at most as many turns as outcomes times s, plus the last stall. |
| Turns.FallbackIdsDistinct | grapharc/harness/agent.py:919-932 | Fallback ids never repeat within a run. |
| Turns.DigitsWrite | grapharc/harness/agent.py:927-930 | The numbers in fallback ids and in the note on a cut are written in decimal. |
| Turns.TranscriptFollows | grapharc/harness/agent.py:561-581 | After each turn the transcript goes on with what the model said and one answer to each of its calls, in order: its result, a success if it was one, under the id it came with. |
| Turns.RecordsByTurn | grapharc/harness/agent.py:561-581 | The records that carry a turn's number are those of that turn, in their order, and turns follow each other. |
| Turns.LastTextWasSaidLast | grapharc/harness/agent.py:553-555 | What is kept as the answer is the last text that is not empty. |
| Turns.AnswerIsLastReplyIff | grapharc/harness/agent.py:553-558 | The answer is the last reply's text exactly when that is not empty or nothing was said before. |
| Turns.UtteranceBecomesAnswer | grapharc/harness/agent.py:553-558 | What was said beside a tool call is the answer of a run whose last reply is empty. |
| Agent.AgentNode.Execute | grapharc/harness/agent.py:828-884 | A call whose arguments are no object is an error and reaches no gate. Any other is a success exactly when the gate returned a value, and then shows it or its cut; it is denied by the policy, or refused by the sandbox, exactly when that is what failed; any other failure is the tool's error; and only the run's ceiling is raised. |
| Agent.AgentNode.AnswerCalls | grapharc/harness/agent.py:560-573 | Every well-formed call becomes such a record, in order, numbered as it reaches the gate, and is answered under its id; the turn progressed exactly when it brought an outcome not seen before; only the run's ceiling cuts it short. |
| Agent.AgentNode.AnswerInvalid | grapharc/harness/agent.py:575-581 | Every malformed call gets its parse error, or its arguments if there is none, after the others, runs nothing and adds no outcome. |
| Agent.AgentNode.Loop | grapharc/harness/agent.py:496-587 | The loop's variables agree with its turns at every head; it is left for the reason that then holds, or by the run's ceiling, before it has stalled. |
| Agent.AgentNode.Run | grapharc/harness/agent.py:468-618 | The model is first given the system prompt and the task, and after each turn what it had been given, what it said, and one answer to each call in order. Every record tells how the gate ended its call; the records are those of the turns in order; every return has one reason; the output is the last thing said if the target was met and empty otherwise; every executor run passed the gate; and however the run ends, the ceiling included, its model calls are bounded by its outcomes and the stall limit. |
| Agent.CallBound | grapharc/harness/agent.py:496-587 | However a run ends, it made at most (k + 1) s model calls for k distinct successful outcomes and stall limit s, whatever the iteration cap. |
| Agent.KeysAreRecorded | grapharc/harness/agent.py:571-573 | The outcomes seen so far are exactly those of the recorded successes. |
| Agent.StopsForNoProgressIff | grapharc/harness/agent.py:583-587 | The run stops for lack of progress exactly when none of its last s tool turns had a fresh success. |
| Spend.SpendMeter.EnsureHeadroom | grapharc/gateway/spend.py:45-58 | Refused exactly when the amount charged so far has reached the ceiling. |
| Spend.SpendMeter.Charge | grapharc/gateway/spend.py:60-85 | The charge lands, in the total and under its model's name, before it is reported as crossing the ceiling; an unpriced bill only counts. |
| Spend.PerModelSumsToNamedSpend | grapharc/gateway/spend.py:72-74 | The per-model totals sum to the spend of the priced calls that name a model. |
| Spend.CallsAddUp | grapharc/gateway/spend.py:67-70 | Priced and unpriced calls make up all calls. |
| Spend.OverspendBound | grapharc/gateway/spend.py:29-37 | In any interleaving of checks, charges and failed calls with at most k calls in flight at a time, each costing at most c, the spend stays below the ceiling plus k c. |
| Spend.ChargedIffPending | grapharc/gateway/claude_cli.py:279-334 | In a run a bill is charged if and only if its caller passed a check below the ceiling and has neither charged nor failed since. |
| Spend.Drive | grapharc/gateway/claude_cli.py:279-334 | The meter, driven by any interleaving of checks, charges and calls that fail uncharged, holds exactly that run's ledger. |

## Left out

- Layout.LayoutGraph: requires distinct node ids, cluster ids and edge objects; of nodes with one id only the last is placed, and an edge object listed twice is shifted twice.
- Placement.PlaceScope: requires distinct node ids, for the same reason.
- Layout.DrawScope: requires distinct node ids and edge objects, for the same reasons.
- Layout.StackClusters: requires distinct node ids, cluster ids and edge objects, for the same reasons.
- Layout.LayoutClusters: requires distinct node ids, cluster ids and edge objects, for the same reasons.
- Layout.LayoutSingle: requires distinct node ids and edge objects, for the same reasons.
- Layout.DrawStateEdges: requires distinct cluster ids; of clusters with one id only the last is joined.
- SameLayout.LayoutBoth: requires distinct ids and edge objects as LayoutGraph does, and two snapshots that share no objects.
- SearchBands.NamedComeFirst: needs rounding to be monotone and to tell the top of the lower band from 1; rounding that ties the two can list another claim first.
- SearchBands.ResultClosedUnderVia: stated for unrounded scores; rounding to nine places can tie a hit with its parent.
- StoreAgreement.ImportInAnyOrder: for distinct ids; an import that repeats an id keeps the last claim of it, so its order matters.
- LadybugBackend.LadybugStore.Reopen: requires that edges join stored nodes, as a graph database guarantees.
- Search: a prebuilt index passed by the caller, custom field weights and BM25 constants, and embedders that return the wrong number of vectors or dimensions.
- Rounding errors of floating point, and scores that differ in their last bits between stores.
- What name normalisation, tokenisation, encodings, digests, JSON and globs compute.
- SQL and Cypher text, busy waiting, locks, journals and file permissions: each transaction is one step. Power loss and the order of flushed writes are not modelled; process crashes are.
- Agent.AgentNode.Run: the run handed to an external command-line agent, trace events, durations, token counts and the notes beside a reason; the budget meter is an answer before each call.
- Rendering of a brief's lines and of artifact listings, and reading artifacts as text.
- Planner, admission, materializer, runtime graph, tracing, gateways, sandbox and executors, servers and command line.
