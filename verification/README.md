# Verified core of the review service

This project models the algorithmic core of the pull-request review service under `backend/app` and
proves what its parts promise, over every input, every run and every interleaving. Where the source
keeps mutable objects (graph store, parser, limiter, guard, budget, audit log, feedback store, Tarjan
search), the model is a class with the same fields, and each method is proved against a function of
the old state or of the history of calls; the laws are then proved about those functions.

| file | models |
|---|---|
| `SortedText`, `Reachability`, `Tarjan`, `RepoGraph`, `GraphStore` | the dependency graph: reverse index, breadth-first search, strongly connected components, per-tenant state |
| `Text`, `Pieces`, `Diff`, `Parsed` | the unified-diff parser, its line splitting, and what a parsed diff can contain |
| `UnifiedFormat`, `UnifiedReading`, `Marks`, `UnifiedRoundTrip`, `UnifiedQuirks`, `UnifiedCases` | the parser against an edit-script semantics (POSIX `diff`, section "Diff -u or -U Output Format") |
| `Delimiters`, `Patch` | the delimiter machine against a grammar, the rewrite rules, the patch generator and printer |
| `Findings`, `Consensus`, `ConsensusLaws`, `Agreement`, `Feedback`, `Review` | grouping, weighting, gating and sorting of findings; learned multipliers; from findings to verdict |
| `TokenBudget`, `Router` | one budget shared by parallel agents; provider failover |
| `RateLimit`, `ReplayGuard` | lazy token bucket and evicting map against their full call histories |
| `AuditLog`, `Prompting` | the hash chain and the fence around untrusted text |
| `Wrappers`, `Collections` | option and result types, facts about sets and sequences |

## What a reader may find surprising

Each of these is a lemma: where the code does less than its text or its intention says, the exact
condition is proved.

- Diff positions. The parser splits with `str.splitlines`, so a form feed, a lone carriage return or a
  Unicode line separator inside a line of a file cuts it into pieces, and the parser reads each piece as
  a line of its own. With no restriction on what the lines hold, a rendered edit script is read back
  exactly if no line or piece opens a file that is not there, insertions and paths are single lines that
  do not look like headers, no insertion stands behind a piece that closes its file, no other piece is
  read as added, the line counter is right at every insertion, and the removed lines read are as many as
  those deleted; and only then, unless a file is forged: an insertion is lost and a piece of another line
  stands in for it (`ParseOfRender`, `ForgedIsReadRight`). Where pieces are at most read as context or
  skipped this comes down to: clean paths and insertions, no removed line starting with `-- `, and no
  insertion after an extra piece or a no-newline marker of its hunk (`ParseOfTame`). Both failures are
  ordinary: replacing a last line that had no newline shifts the reported line by one
  (`MarkerShiftsReplacement`), and a form feed before `diff --git` hides every later insertion of the file
  (`FormFeedHidesInsertion`). CR LF endings do no harm, but the carriage return is not part of the
  reported line (`CrLfReadsAsLf`, `ParseOfCrLf`).
- Audit chain. The docstring says that any insertion, deletion, reordering or mutation is detected.
  Cutting off the end is not, and it is the only deletion, reordering or repetition that is not
  (`OnlyPrefixesVerify`, `DeletionDetectedIff`). A single insertion passes only at the end, a single
  replacement only if it changes nothing but the number, which no hash covers, or the last event with
  fitting hashes (`InsertionDetectedIff`, `MutationDetectedIff`, `NumbersUncovered`). Whoever recomputes
  the hashes can rewrite a chain from any event on (`RewrittenEndVerifies`).
- Consensus. The order in which agents report shows in the result if and only if some identity has
  equally ranked findings that weigh differently (`OrderMattersIff`; `OrderShows` is such a case). A later finding lifts a block if
  and only if it outranks the representative of the only blocking identity and is itself below the
  high-impact threshold (`LateFindingUnblocksIff`; an instance is `GraverReportCanUnblock`).
- Learner. One more acceptance raises a category's multiplier or keeps it, except exactly when it is
  the acceptance that completes the minimum sample of a category with other than full acceptance
  (`AcceptanceRaisesIff`).
- Token budget. The ceiling is described as hard. With n agents at most n - 1 reservations, and what
  providers use beyond their reservations, can be used on top, and some run uses exactly that much
  (`OvershootIsBounded`, `OvershootIsAttained`). The ceiling holds in every run with honest
  providers if and only if there is at most one agent or nothing can be reserved (`LimitHoldsIff`).
- Replay guard. It reads the clock before it takes the lock. It decides as the sliding window does, except
  exactly when every acceptance of the id within the window has been overtaken by a reading more than a
  window later (`WrongIffAllOvertaken`); that needs a reading ahead of the present one
  (`DuplicateIffWithinWindow`), and then an id can pass again inside its window
  (`LateReadingLetsReplayPass`).
- Rate limiter. The first call of a key always passes, so the limiter is the sliding-window limiter
  exactly when the capacity is at least one, or the key was called before (`ExactIffCapacity`).
- Secrets. A detected secret always blocks the review, unless a finding of source `hybrid` stands for it
  and weighs too little (`SecretBlocks`, `SecretItemBlocksIff`); nothing in the service creates a hybrid
  one, and one could hide the secret (`HybridWouldHideSecret`). But first the agent has to report it. It
  does so exactly if every line with a secret or a rule match has a position that a finding can carry, and
  the model pass raises nothing; otherwise it reports nothing at all (`SecretsReportedIff`). A rule match on
  a line numbered 0, as every added line before the first hunk header is, drops a secret elsewhere in the
  diff, and the review may even be approved (`RuleMatchHidesSecret`).
- Model findings. `_parse_llm_findings` is documented never to raise, but catches only two kinds of
  exception when it reads the answer; others end the agent's run. Its cap of 50 counts malformed entries
  (`MalformedEntriesHideGood`).
- Prompt fence. Only the untrusted content is neutralized. The user message is fenced unambiguously if and
  only if the instruction before it, which may quote repository memory, mentions neither mark
  (`MessageFencedIff`).

## Model

| member | source | states |
|---|---|---|
| SortedText.LessIff | backend/app/memory/graph/inmemory.py:74 | strings are ordered by the first character in which they differ, and a proper prefix comes first |
| SortedText.AscendingUnique | backend/app/memory/graph/inmemory.py:74 | a strictly ascending list is determined by its members, so "the sorted list of a set" has one meaning |
| SortedText.SortSet | backend/app/memory/graph/inmemory.py:74 | sorting a set, drained in any order, gives the strictly ascending list of exactly its members |
| Tarjan.PushKeepsInv | backend/app/memory/graph/inmemory.py:95-98 | opening a visit keeps the search invariant: stack entries reach an open vertex at or below them, open vertices reach everything above them, finished components are closed |
| Tarjan.VisitAfterChild | backend/app/memory/graph/inmemory.py:100-102 | taking the minimum with a visited child's low link keeps the link real (some reachable stack entry) and complete (no edge from the new part of the stack leads lower) |
| Tarjan.VisitAfterVisited | backend/app/memory/graph/inmemory.py:103-104 | the same for an already visited successor, which counts only while it is on the stack |
| Tarjan.VisitEnds | backend/app/memory/graph/inmemory.py:105 | once all successors are handled the low link bounds every edge out of the vertex's part of the stack |
| Tarjan.TopIsComponent | backend/app/memory/graph/inmemory.py:105-112 | when nothing above v leads below v, the stack from v upwards is exactly one strongly connected component |
| Tarjan.PopKeepsInv | backend/app/memory/graph/inmemory.py:106-112 | popping that component keeps the invariant and adds it to the finished vertices |
| Tarjan.RetireKeepsInv | backend/app/memory/graph/inmemory.py:105 | a vertex whose low link is below its number may stay on the stack: it is anchored by an open vertex |
| Tarjan.CyclicTest | backend/app/memory/graph/inmemory.py:113 | the size-or-self-loop test is true exactly for components whose members lie on a cycle |
| Tarjan.CycleSearch.StrongConnect | backend/app/memory/graph/inmemory.py:94-114 | the recursive visit terminates, keeps the invariant, leaves the older stack and the low links of older vertices alone and ends with a real and complete low link |
| Tarjan.CycleSearch.FollowAll | backend/app/memory/graph/inmemory.py:99-104 | the loop over successors, in any order, handles all of them |
| Tarjan.CycleSearch.Follow | backend/app/memory/graph/inmemory.py:100-104 | one round of the loop handles one more successor |
| Tarjan.CycleSearch.FollowNew | backend/app/memory/graph/inmemory.py:100-102 | an unvisited successor is visited and its low link taken over |
| Tarjan.CycleSearch.FollowVisited | backend/app/memory/graph/inmemory.py:103-104 | a visited one counts only while it is on the stack |
| Tarjan.CycleSearch.Close | backend/app/memory/graph/inmemory.py:105-114 | the end of a visit either reports and pops a whole component or leaves the vertex waiting, and keeps the invariant |
| Tarjan.CycleSearch.Open | backend/app/memory/graph/inmemory.py:95-98 | numbers the vertex, pushes it and starts its low link at its own number |
| Tarjan.CycleSearch.PopComponent | backend/app/memory/graph/inmemory.py:106-114 | pops down to v and keeps the report exact for the vertices finished so far |
| Tarjan.CycleSearch.PopDownTo | backend/app/memory/graph/inmemory.py:106-112 | pops exactly the entries from v upwards, and the stack set follows the stack list |
| RepoGraphs.UpsertOneKeepsInverse | backend/app/memory/graph/inmemory.py:31-36 | re-inserting one file keeps the reverse index the exact inverse of the forward edges |
| RepoGraphs.ReplayInverse | backend/app/memory/graph/inmemory.py:25-36 | after every history of updates, f is in dependents[d] if and only if d is in depends_on[f] |
| RepoGraphs.ReplayKeepsLastSnapshot | backend/app/memory/graph/inmemory.py:27-34 | what is known of a file (forward edges, symbols, module) is what its newest node in the history says, also for repeated paths within one batch, and nothing when it has no node |
| RepoGraphs.TouchesAreRecorded | backend/app/memory/graph/inmemory.py:38-41 | after every history a pull request is among the touches of a path if and only if some update recorded it |
| RepoGraphs.RepoGraph.Upsert | backend/app/memory/graph/inmemory.py:25-36 | the loop over the batch changes the graph as the specification says |
| RepoGraphs.RepoGraph.UpsertFile | backend/app/memory/graph/inmemory.py:28-36 | one file: module, symbols, forward edges and reverse entries |
| RepoGraphs.RepoGraph.Unlink | backend/app/memory/graph/inmemory.py:32-33 | takes the file out of the entries of its former dependencies only |
| RepoGraphs.RepoGraph.Link | backend/app/memory/graph/inmemory.py:35-36 | puts the file into the entries of its new dependencies only |
| RepoGraphs.RepoGraph.Touch | backend/app/memory/graph/inmemory.py:38-41 | adds the pull request to every touched path, and nothing else changes |
| RepoGraphs.RepoGraph.Bug | backend/app/memory/graph/inmemory.py:58-61 | counts one more bug and remembers its pull request, and nothing else changes |
| RepoGraphs.RepoGraph.BlastRadius | backend/app/memory/graph/inmemory.py:63-74 | the search over the reverse index terminates and returns, sorted and without duplicates, exactly the files outside the paths with a non-empty dependency path into them |
| RepoGraphs.BlastIsExact | backend/app/memory/graph/inmemory.py:68-74 | a set closed under the reverse index that holds only hitting files is the answer |
| RepoGraphs.RepoGraph.FindCycles | backend/app/memory/graph/inmemory.py:84-119 | for every graph and visiting order the result is exactly the strongly connected components that contain a cycle, each sorted, pairwise disjoint, none missing |
| GraphStore.InMemoryGraphStore.GraphOf | backend/app/memory/graph/inmemory.py:22-23 | looking a graph up creates at most an empty one and never replaces another tenant's or repository's |
| GraphStore.InMemoryGraphStore.UpsertFiles | backend/app/memory/graph/inmemory.py:25-36 | every repository's graph stays what its own updates alone produce |
| GraphStore.InMemoryGraphStore.RecordPrTouch | backend/app/memory/graph/inmemory.py:38-41 | the same for pull-request touches |
| GraphStore.InMemoryGraphStore.RecordBugAt | backend/app/memory/graph/inmemory.py:58-61 | the same for bugs |
| GraphStore.InMemoryGraphStore.BlastRadius | backend/app/memory/graph/inmemory.py:63-74 | whatever was interleaved, the answer is the blast radius in the graph of the tenant's and repository's own updates |
| GraphStore.InMemoryGraphStore.FindCycles | backend/app/memory/graph/inmemory.py:84-119 | whatever was interleaved, the answer is the exact cycle report of the tenant's and repository's own updates |
| GraphStore.InMemoryGraphStore.RegressionRisk | backend/app/memory/graph/inmemory.py:76-82 | the answer counts the repository's own bug records for the path and names the newest one |
| GraphStore.BugHistoryReplay | backend/app/memory/graph/inmemory.py:58-61 | counters kept update by update equal counting the history |
| GraphStore.NoReportIffAcyclic | backend/app/memory/graph/inmemory.py:84-119 | no cycle is reported if and only if no file depends on itself, directly or not |
| GraphStore.ReportUnique | backend/app/memory/graph/inmemory.py:84-119 | any two exact reports of a graph contain the same cycles, so iteration order affects only their order |
| GraphStore.TogetherIffMutualBlast | backend/app/memory/graph/inmemory.py:63-119 | two distinct files share a reported cycle if and only if each lies in the other's blast radius |
| GraphStore.BlastIsLeastClosed | backend/app/memory/graph/inmemory.py:63-74 | the paths with their blast radius are the least set around them closed under dependents |
| Text.SplitTerminated | backend/app/review/diff.py:81 | splitting newline-terminated lines gives them back if and only if none holds a line break of its own |
| Text.BreakCharacters | backend/app/review/diff.py:81 | between two letters exactly ten characters start a new line, named here |
| Text.SpaceCharacters | backend/app/review/diff.py:90 | exactly the 29 white-space characters named here are stripped from both ends |
| Text.ParseDecimal | backend/app/review/diff.py:103 | reading a printed decimal gives the number back |
| Pieces.SplitTerminatedLines | backend/app/review/diff.py:81 | splitting newline-terminated lines, whatever they hold, gives the pieces of each, in order |
| Pieces.PiecesCr | backend/app/review/diff.py:81 | a carriage return at the end of a line belongs to its line break |
| Pieces.FirstPiecePrefix | backend/app/review/diff.py:81-99 | whether a line starts with a given text shows in its first piece |
| Diff.ParseUnifiedDiff | backend/app/review/diff.py:74-115 | the loop over lines, with `current` aliasing the last entry of the result, computes the parser's specification within the line limit |
| Diff.ParseLine | backend/app/review/diff.py:82-113 | one line: every branch, in order, updates files, current file, line counter and new-file flag as specified |
| Diff.TakeLine | backend/app/review/diff.py:107-113 | added, removed and other lines change the current file object and the counter |
| Diff.OpenFile | backend/app/review/diff.py:95-97 | a header appends a new, empty, distinct file object |
| UnifiedFormat.InsertedArePositions | backend/app/review/diff.py:38-41 | the expected positions are right: that line of the produced file is the inserted text |
| UnifiedFormat.HeaderRead | backend/app/review/diff.py:13 | the hunk pattern reads back the new-file start of every well-formed header, in long or short form and with any section text |
| UnifiedFormat.HunkStartIff | backend/app/review/diff.py:13 | a line is read as a hunk header if and only if it matches the pattern group by group, and the start is the number behind the plus |
| Marks.ClosedRun | backend/app/review/diff.py:82-98 | with no file open, lines leave the records alone and add one for each that opens a file |
| Marks.RunLive | backend/app/review/diff.py:81-113 | the exact effect on the open file of any lines none of which opens a file: what is recorded, counted and numbered, up to the line that closes it |
| Marks.LiveIsExact | backend/app/review/diff.py:102-113 | the recorded lines are the insertions if none is lost, none false and the counter right at each; and only then unless a false one stands in for a lost one |
| UnifiedReading.BodyIsRead | backend/app/review/diff.py:81-113 | the pieces of a rendered file's hunks are read as exactly these marks: headers, first pieces by kind, extra pieces as lines of their own, markers as context |
| UnifiedReading.BodyExpects | backend/app/review/diff.py:107-109 | the marks stand for exactly the insertions of the script at their true positions |
| UnifiedRoundTrip.FileAdds | backend/app/review/diff.py:82-98 | a file's diff leaves the records before it alone and adds one for each line or piece that opens a file |
| UnifiedRoundTrip.HeaderRun | backend/app/review/diff.py:82-98 | after its header a shown file is open and empty, with its path and new-file flag |
| UnifiedRoundTrip.FileIsExact | backend/app/review/diff.py:82-113 | from any state, one file is read as wanted if it is readable, and only then unless it is forged |
| UnifiedRoundTrip.WantedAreClean | backend/app/review/diff.py:89-108 | whatever the lines hold, only single-line paths and insertions that do not look like headers can be read as wanted |
| UnifiedRoundTrip.ParseOfRender | backend/app/review/diff.py:74-115 | for every list of edit scripts within the line limit, whatever their lines hold: parsing the rendered diff yields, per shown file and in order, exactly the insertions at their true positions and the removed counts if every file is readable, and only then unless a file is forged |
| UnifiedQuirks.TameReadable | backend/app/review/diff.py:99-113 | where extra pieces are at most context or skipped, readable means: clean path and insertions, no removed line starting with `-- `, no insertion after an extra piece or marker of its hunk |
| UnifiedQuirks.ParseOfTame | backend/app/review/diff.py:74-115 | for all such diffs parsing yields exactly what the scripts insert and remove, if and only if every file meets that condition |
| UnifiedCases.CrLfReadsAsLf | backend/app/review/diff.py:81 | for every list of edit scripts, the parser does not see whether lines end in LF or CR LF, in any mixture |
| UnifiedCases.ParseOfCrLf | backend/app/review/diff.py:74-115 | CR LF files are read at their true positions, without their carriage returns |
| UnifiedCases.FormFeedHidesInsertion | backend/app/review/diff.py:81-84 | of two insertions, the first with a form feed before `diff --git`, half the first is reported and the second is lost |
| UnifiedCases.ForgedIsReadRight | backend/app/review/diff.py:81-109 | a kept line whose pieces renumber the hunk, mimic the insertion and close the file: read right although not readable |
| UnifiedCases.MarkerShiftsReplacement | backend/app/review/diff.py:107-113 | replacing a last line without newline is reported one line too low |
| Delimiters.DelimitersBalanced | backend/app/patch/generator.py:56-71 | the stack loop returns true exactly for the texts of the grammar of brackets and quoted segments |
| Delimiters.AcceptsIffBalanced | backend/app/patch/generator.py:56-71 | the stack machine decides the grammar, in both directions |
| Delimiters.TreePasses | backend/app/patch/generator.py:60-70 | a balanced text leaves stack and quote as it found them, whatever follows |
| Delimiters.Parse | backend/app/patch/generator.py:60-71 | accepted text is a balanced part followed by the closer of the innermost open bracket |
| Delimiters.SameSkeleton | backend/app/patch/generator.py:56-71 | the answer depends only on the delimiters and quotes in order |
| Delimiters.EnclosedText | backend/app/patch/generator.py:56-71 | a balanced part between an opening and a closing bracket is balanced exactly when the two are a pair and the rest is balanced |
| Delimiters.UnopenedText | backend/app/patch/generator.py:69-70 | a closing bracket that nothing opened makes the text unbalanced, whatever follows |
| Delimiters.QuotedText | backend/app/patch/generator.py:61-66 | between two equal quotes anything but that quote is skipped, brackets included; an open quote is never balanced |
| Delimiters.PlainText | backend/app/patch/generator.py:67-70 | no character but the three bracket pairs and the two quotes matters |
| Patch.PatternHome | backend/app/patch/generator.py:21-39 | every pattern rewrites the findings of exactly one category, named here pattern by pattern |
| Patch.SecondRuleWaits | backend/app/patch/generator.py:118-124 | of the two patterns of a category, the second is used only where the first changes nothing |
| Patch.RewriteKeepsBalance | backend/app/patch/generator.py:19-39 | no rewrite rule, at any number of matches, changes whether the text is balanced |
| Patch.RewriteStaysPlain | backend/app/patch/generator.py:21-39 | no rewrite introduces a line break or turns a line into one that reads as a file header |
| Patch.ReplacementIsFixed | backend/app/patch/generator.py:21-39 | what a pattern puts in place of a match is no match of it: the unsafe text is gone |
| Patch.PatchParses | backend/app/patch/generator.py:101-102 | the printed patch is read back as one file with one added line at its place and one removed line, if and only if the path survives, the original does not start with `-- ` and the fixed line not with `++ ` |
| Patch.PatchIsTheDiff | backend/app/patch/generator.py:101-102 | the printed patch is, line by line, the unified diff of the file in which that line is replaced |
| Parsed.ParsedIsPrintable | backend/app/review/diff.py:89-108 | every path and added line the parser returns is one the printer can print |
| Parsed.LimitReadsFirst | backend/app/review/diff.py:74-81 | the limit is exact: what is read is what the parser makes of the text's first lines alone, as many as the limit says |
| Parsed.LimitCutsTheEnd | backend/app/review/diff.py:74-81 | a lower line limit loses only the end: earlier records are equal, the last one's added lines are a prefix, and later files are missing |
| Patch.Validate | backend/app/patch/generator.py:91-98 | a fix is accepted if and only if it differs, is not blank, is balanced, and does not break a Python line that parses |
| Patch.FindLine | backend/app/patch/generator.py:111-116 | the first file with the path and its first added line with the number, or nothing if there is none |
| Patch.ApplyRules | backend/app/patch/generator.py:118-124 | the first rule that changes the line decides |
| Patch.GeneratePatch | backend/app/patch/generator.py:105-134 | a patch is returned exactly when one exists for the finding, and it is that one |
| Patch.GeneratedPatchReadsBack | backend/app/patch/generator.py:105-134 | the printed diff of every generated patch is balanced on both sides and is read back exactly, if and only if the original line does not start with `-- ` |
| Consensus.GroupFindings | backend/app/review/consensus.py:107-109 | groups hold each identity's findings in order, identities in order of first appearance |
| Consensus.MakeItems | backend/app/review/consensus.py:111-128 | one weighed and gated item per group |
| Consensus.BuildConsensus | backend/app/review/consensus.py:96-135 | the two loops and the stable sort compute the result and verdict of which `Agreement.ResultShows`, `Agreement.AgreementShows` and the laws below hold |
| ConsensusLaws.SortFacts | backend/app/review/consensus.py:130 | sorting permutes the items and puts graver, then surer, items first |
| ConsensusLaws.SortStable | backend/app/review/consensus.py:130 | items of equal rank keep their order of first appearance |
| ConsensusLaws.ConsensusPartitions | backend/app/review/consensus.py:106-130 | one item per identity; its finding is one of the input that none of the same identity outranks; agreement is the number of distinct agents; gate and confidence as specified; sorted |
| ConsensusLaws.OrderMattersIff | backend/app/review/consensus.py:106-135 | every permutation of the findings gives the same (identity, severity, confidence, agreement, gate) and verdict if and only if equally ranked findings of an identity weigh alike |
| ConsensusLaws.OrderShows | backend/app/review/consensus.py:114-120 | a scanner and the model report the same with the same confidence: who comes first decides the confidence shown |
| ConsensusLaws.OrderDoesNotMatter | backend/app/review/consensus.py:106-135 | in particular any order and any repetitions, when such findings share a source |
| ConsensusLaws.RepeatingChangesNothing | backend/app/review/consensus.py:96-135 | reporting every finding twice gives the identical result |
| ConsensusLaws.GrowthOfItem | backend/app/review/consensus.py:112-128 | appended findings never lower an identity's severity or agreement, leave other identities alone, and keep an unbeaten representative posted |
| ConsensusLaws.GrowthKeepsBlocking | backend/app/review/consensus.py:131-134 | a blocking verdict survives appended findings that outrank no representative |
| ConsensusLaws.LateFindingUnblocksIff | backend/app/review/consensus.py:114-134 | one more finding lifts a block if and only if it outranks the representative of the only blocking identity and is below the high-impact threshold |
| ConsensusLaws.GraverReportCanUnblock | backend/app/review/consensus.py:114-134 | a concrete block lifted by a graver, doubtful report |
| ConsensusLaws.FeedbackOnlyDamps | backend/app/review/consensus.py:119-126 | multipliers between lo and one keep every representative and agreement, scale confidence by a factor between lo and one, and never make a gate more visible |
| ConsensusLaws.FeedbackNeverBlocks | backend/app/review/consensus.py:119-134 | such multipliers can lift a block but never create one |
| Agreement.AloneWeighs | backend/app/review/consensus.py:18-120 | reported by one agent, a finding weighs its confidence by its dimension's and its source's percentage, listed case by case, and by the multiplier of its category, and at most one |
| Agreement.ItemAgreed | backend/app/review/consensus.py:115-120 | an item weighs what its finding weighs alone and 5% of that for every further agent, and at most one |
| Agreement.AgreementShows | backend/app/review/consensus.py:85-135 | every item of a result against the result for its finding alone: n agents weigh (n + 19)/20 of it, at most one, and the item is posted, collapsed or suppressed exactly as (n + 19) times the single confidence reaches 15 (10 for high impact) and 8 |
| Agreement.AnotherAgentAdds | backend/app/review/consensus.py:112-128 | one more agent that outranks nothing keeps the item's finding and adds 5% of its single confidence, until one is reached |
| Agreement.AgreementPosts | backend/app/review/consensus.py:85-120 | a report at 0.72 is collapsed when one agent makes it and posted at 0.756 when two do |
| Agreement.ResultShows | backend/app/review/consensus.py:106-135 | one item for each issue (dimension, category, file and line), for a finding that no other of the issue leads in severity and then confidence, with its agents counted; sorted by severity and then confidence; the verdict blocks exactly when a posted item is critical or high |
| Feedback.InMemoryFeedbackStore.Record | backend/app/feedback/store.py:53-60 | adds one entry to the history; every scope keeps the counters that its own entries add up to |
| Feedback.InMemoryFeedbackStore.StatsFor | backend/app/feedback/store.py:62-63 | a scope sees, per category, as many acceptances, rejections and edits as its history has entries of that scope, category and action, and no category without entries |
| Feedback.GoldenPathLearner.AdjustmentsFor | backend/app/feedback/learner.py:22-30 | exactly the categories with enough samples in the history of the scope get a multiplier: the average of their samples, an acceptance counting 1, an edit 0.7 and a rejection 0.4 |
| Feedback.StatsCount | backend/app/feedback/store.py:53-60 | after every history each counter of a scope and category is the number of entries with its action |
| Feedback.LearnedAverages | backend/app/feedback/learner.py:22-30 | the multipliers learned from any history are those averages |
| Feedback.PureHistories | backend/app/feedback/learner.py:22-30 | a sufficient history of one kind gives exactly 1 for acceptances, 0.7 for edits and 0.4 for rejections |
| Feedback.RateInRange | backend/app/feedback/store.py:32-37 | the acceptance rate lies between zero and one, and is one only without rejections and edits |
| Feedback.LearnedDamps | backend/app/feedback/learner.py:23-30 | for every feedback history every multiplier lies between the floor and one |
| Feedback.RateAfterAccept | backend/app/feedback/store.py:32-37 | one more acceptance never lowers the acceptance rate |
| Feedback.AcceptanceRaisesIff | backend/app/feedback/learner.py:25-29 | one more acceptance never lowers a category's multiplier, except exactly when it completes the minimum sample of a category with rejections or edits |
| Feedback.HistoryOnlyDamps | backend/app/feedback/learner.py:22-30 | the two combined: whatever was recorded, feedback only damps the consensus |
| Review.ScanRules | backend/app/agents/base.py:70-102 | returns exactly one finding per applying rule per added line, in order; if any of them is out of range it raises for such a one |
| Review.ScanRulesInFile | backend/app/agents/base.py:76-101 | the same for the lines of one file |
| Review.MatchRules | backend/app/agents/base.py:77-101 | the same for the rules on one line |
| Review.ScanSecrets | backend/app/agents/security.py:139-173 | returns exactly one finding per secret type per added line, in order, all critical, at 0.97 and deterministic; if any of them is out of range it raises for such a one |
| Review.ScanSecretsInFile | backend/app/agents/security.py:142-171 | the same for the lines of one file |
| Review.ListSecrets | backend/app/agents/security.py:143-171 | the same for the secret types of one line |
| Review.ScanSucceedsIff | backend/app/domain/findings.py:84-85 | a scan goes through if and only if every line it reports something of has a position in range |
| Review.ParseLlmFindings | backend/app/agents/base.py:105-145 | each valid item among the first 50 entries, good or malformed, is reported at the place that counts the valid ones before it, with its category, severity, title, confidence up to 0.9, and its file and line unless the file is not in the diff; nothing else is reported, and nothing when the answer cannot be read; an uncaught exception goes on |
| Review.GoodClaimReported | backend/app/agents/base.py:119-144 | an entry among the first 50 with confidence, line and path in range is reported, at that place and with those fields |
| Review.OnlyGoodClaimsReported | backend/app/agents/base.py:119-144 | and every finding reported comes from such an entry |
| Review.MalformedEntriesHideGood | backend/app/agents/base.py:119-123 | fifty malformed entries hide every good one behind them |
| Review.RunSecurityAgent | backend/app/agents/security.py:125-137 | rules, secrets and model findings in this order, or nothing at all when one of the three raises |
| Review.AgentSucceedsIff | backend/app/review/graph.py:72-80 | all three parts go through if and only if every line with a secret or a rule match is in range and the model pass raises nothing |
| Review.SecretsReportedIff | backend/app/review/graph.py:72-80 | given a diff with a secret, the agent reports its secrets under exactly this condition, and nothing otherwise |
| Review.Conclude | backend/app/review/graph.py:173-194 | agent findings and insights are merged; approval only for an eligible pull request with nothing posted; event and status follow the verdict |
| Review.MergedOnly | backend/app/review/graph.py:173-176 | a merged finding comes from the list of some agent |
| Review.SecretRepresentative | backend/app/review/consensus.py:114 | the finding that stands for a detected secret is critical, at least as sure as the detector's and not the model's |
| Review.SecretItemBlocksIff | backend/app/review/consensus.py:112-126 | its item blocks if and only if no mixed finding stands for it or that one weighs enough, for every learned feedback |
| Review.SecretBlocks | backend/app/review/consensus.py:112-134 | whatever else is reported and whatever multipliers were learned, a detected secret blocks, unless a mixed finding stands for it and weighs too little |
| Review.SecretIsNeverApproved | backend/app/publish/publisher.py:115-136 | for every feedback history, a review with a detected secret is published as a change request with a failing status and never approved, with the same exception |
| Review.SecretInDiffRequestsChanges | backend/app/review/graph.py:173-194 | from the parsed diff to the verdict: if every line with a secret or a rule match is in range and the model pass raises nothing, a secret on an added line ends in a change request with a failing status, with the same exception |
| Review.SecretOnLine | backend/app/agents/security.py:141-160 | every added line with a secret yields one of the agent's secrets |
| Review.SecretsAreThose | backend/app/agents/security.py:139-173 | the secret findings are exactly those about the secrets on added lines, with this category, severity, confidence, title, file and line |
| Review.RuleFindingsAreThose | backend/app/agents/base.py:70-102 | the rule findings are exactly those of a rule about an added line it matches in a language it covers, with the rule's category, severity, confidence and title and the line's position |
| Review.AgentReports | backend/app/agents/security.py:125-173 | finding by finding: what the agent contributes is the rule matches, the secrets and the good model claims if it goes through, and nothing else ever |
| Review.BadPositionDropsAgent | backend/app/review/graph.py:72-80 | one line with a secret or a rule match out of range, and none of the agent's findings is reported |
| Review.LineBeforeHeader | backend/app/review/diff.py:89-109 | an added line before the first hunk header is numbered 0 |
| Review.HeaderlessFileContinues | backend/app/review/diff.py:89-109 | without a hunk header of its own, a file goes on counting where the file before it ended |
| Review.RuleMatchHidesSecret | backend/app/review/graph.py:72-80 | a rule match on such a line drops the secret on the next; with nothing else reported an eligible pull request is approved, although the secret scan alone would go through |
| Review.HybridWouldHideSecret | backend/app/review/consensus.py:30-34 | the margin is tight: a certain finding of mixed source would let the secret pass |
| TokenBudgets.TokenBudget.Precheck | backend/app/llm/base.py:90-94 | passes exactly when usage so far plus the estimate fits, and reserves nothing |
| TokenBudgets.TokenBudget.Charge | backend/app/llm/base.py:96-100 | adds usage and cost to the totals and to the agent's entries only |
| TokenBudgets.ChargeBalances | backend/app/llm/base.py:96-100 | totals stay equal to the per-agent sums |
| TokenBudgets.EntriesAreSpent | backend/app/llm/base.py:96-100 | in every interleaving an agent's entries grow by exactly the prompt and answer tokens, and the cost, of its answered calls |
| TokenBudgets.StepStaysSafe | backend/app/llm/router.py:76-85 | every start, refusal, failure and completion of any agent keeps the bound and the balance |
| TokenBudgets.OvershootIsBounded | backend/app/llm/router.py:70-90 | in every interleaving, tokens used plus in flight never exceed the limit by more than n - 1 reservations (none larger than the limit) plus what providers used beyond theirs; totals equal the per-agent sums |
| TokenBudgets.OneAgentStaysWithin | backend/app/llm/base.py:77-100 | a single agent passes the limit at most by what its provider used beyond its reservations |
| TokenBudgets.OvershootIsAttained | backend/app/review/graph.py:94-122 | for every number of agents, limit, largest reservation and overuse by the providers some run uses exactly the bound |
| TokenBudgets.LimitHoldsIff | backend/app/llm/base.py:77-94 | the limit holds in every run with honest providers if and only if at most one agent runs or nothing can be reserved |
| Router.CheapestIsLeast | backend/app/llm/router.py:45-47 | no registered provider has a lower cost, input tokens counting three times |
| Router.CheapestIsFirst | backend/app/llm/router.py:45-47 | and among equally cheap ones it is the first registered |
| Router.LLMRouter.constructor | backend/app/llm/router.py:29-33 | the default provider leads the failover chain; the fallbacks follow in order of first mention, a later one replacing an earlier one of its name |
| Router.LLMRouter.Register | backend/app/llm/router.py:37-40 | registers or replaces a provider; the chain grows only by new fallback names |
| Router.LLMRouter.OrderFacts | backend/app/llm/router.py:49-56 | the chosen or cheapest provider first, the whole chain tried, none twice |
| Router.LLMRouter.OrderFollowsChain | backend/app/llm/router.py:49-56 | behind the first, the chain is followed in its own order without it |
| Router.LLMRouter.Complete | backend/app/llm/router.py:58-90 | with other agents charging whenever it waits: the first provider of the order that does not fail answers and is charged, or raises otherwise, or lacks room and stops everything; a provider has room exactly when what is used, the tokens of the system text and of every message and the request's longest answer fit the limit; with no one else charging, an answer that keeps to the request leaves the usage within the limit; only an answer is charged; the call and what the others did form a run of the shared-budget steps |
| Router.FitsIffRoom | backend/app/llm/router.py:72-76 | the check before sending passes if and only if what is used, the running count over system text and messages, and the longest answer allowed fit the limit |
| Router.RoomWhereAsked | backend/app/llm/router.py:70-80 | every provider asked had that room, and the one at which the call stops over budget had not |
| Router.AnswerStaysWithin | backend/app/llm/router.py:76-85 | an answer that keeps to the request passes the limit by no more than the others charged while it was awaited |
| Router.QuietInterleaves | backend/app/llm/router.py:58-90 | a call during which nobody else acts is one of the interleavings of which `Complete` speaks |
| Router.Try | backend/app/llm/router.py:70-89 | one round of the loop, in terms of the ledger as the others have left it |
| Router.Attempt | backend/app/llm/router.py:71-85 | one provider: checked before it is asked, charged exactly what it reports, after what the others charged meanwhile; other exceptions charge nothing |
| RateLimit.InMemoryRateLimiter.Allow | backend/app/chat/ratelimit.py:33-46 | a call passes exactly when the window rule admits it or it is the key's first; holds for any clock readings |
| RateLimit.RefilledDecides | backend/app/chat/ratelimit.py:41-43 | the refilled bucket has a token exactly when one more call fits in every window that ends now |
| RateLimit.SpentIsTight | backend/app/chat/ratelimit.py:41-46 | after a call the bucket holds the least level over all calls of its key |
| RateLimit.ExactIffCapacity | backend/app/chat/ratelimit.py:36-46 | the limiter decides as the sliding-window rule if and only if capacity is at least one or the key was called before |
| RateLimit.WindowOfTwo | backend/app/chat/ratelimit.py:27-46 | between two calls of a key, the later one allowed, at most capacity plus refill calls are allowed |
| RateLimit.EveryWindow | backend/app/chat/ratelimit.py:27-46 | every stretch of the history within a time window allows at most capacity plus refill calls of a key |
| RateLimit.KeysAreIndependent | backend/app/chat/ratelimit.py:36-41 | decisions about a key depend on its own calls only |
| RateLimit.RuleAtRate | backend/app/chat/ratelimit.py:33-46 | in seconds and tokens: a call passes exactly when it is its key's first, or since each earlier call of the key the allowed ones and this one are at most capacity plus seconds times rate |
| RateLimit.PatienceIsServed | backend/app/chat/ratelimit.py:41-45 | a client whose readings never ran backwards and who lets one token come in after its last call is served |
| ReplayGuard.InMemoryReplayGuard.CheckAndRemember | backend/app/core/security/webhook.py:88-96 | an empty id is refused and changes nothing; any other passes exactly when no remembered acceptance of it is young enough, for any clock readings |
| ReplayGuard.InMemoryReplayGuard.Evict | backend/app/core/security/webhook.py:98-102 | removes exactly the entries older than the cutoff |
| ReplayGuard.EvictedDecides | backend/app/core/security/webhook.py:93-95 | after eviction the map answers as the full history does |
| ReplayGuard.WrongIffAllOvertaken | backend/app/core/security/webhook.py:88-102 | for any clock readings the guard decides as the window does, except exactly when every acceptance within the window has been overtaken |
| ReplayGuard.OvertakenNeedsAhead | backend/app/core/security/webhook.py:91-100 | which needs a reading ahead of the present one |
| ReplayGuard.DuplicateIffWithinWindow | backend/app/core/security/webhook.py:88-96 | when no reading lies ahead, a delivery is a duplicate if and only if its id was accepted within the last window |
| ReplayGuard.MapIsTheWindow | backend/app/core/security/webhook.py:88-102 | when the newest call read the latest time, the map holds exactly the ids accepted within the last window |
| ReplayGuard.LateReadingLetsReplayPass | backend/app/core/security/webhook.py:91-96 | readings out of order let an id pass again inside its window |
| AuditLog.HashChainedAuditLog.Record | backend/app/dashboard/audit.py:65-85 | appends one linked event to the tenant's chain, leaves other tenants' chains alone and keeps every chain verifiable |
| AuditLog.HashChainedAuditLog.Verify | backend/app/dashboard/audit.py:102-112 | true exactly for chains whose every event links to the one before it, whatever was done to the chain |
| AuditLog.HeadPinsHistory | backend/app/dashboard/audit.py:27-35 | two verified chains with the same head hash have the same length and the same payload at every position |
| AuditLog.OnlyPrefixesVerify | backend/app/dashboard/audit.py:102-112 | of all sequences made of a verified chain's events, exactly its prefixes verify |
| AuditLog.DeletionDetectedIff | backend/app/dashboard/audit.py:1-6 | cutting out a stretch is detected unless it is empty or at the end |
| AuditLog.InsertionDetectedIff | backend/app/dashboard/audit.py:1-6 | inserting an event goes unnoticed only at the end, with the right hashes |
| AuditLog.MutationDetectedIff | backend/app/dashboard/audit.py:1-6 | replacing an event goes unnoticed if and only if just its number changes, or it is the last one and the replacement carries the right hashes |
| AuditLog.RewrittenEndVerifies | backend/app/dashboard/audit.py:102-112 | with recomputed hashes a chain can be rewritten from any event on, with any payloads |
| AuditLog.TamperingDetected | backend/app/dashboard/audit.py:102-112 | changing only what an event says is detected unless these two payloads collide |
| AuditLog.NumbersUncovered | backend/app/dashboard/audit.py:44-53 | changing an event's number is never detected |
| Prompting.ReplaceFirst | backend/app/llm/prompting.py:45-47 | the text before the first match is kept, the match is replaced and the rest treated alike |
| Prompting.ReplaceIsJoin | backend/app/llm/prompting.py:45-47 | of a text cut at its matches, replacement keeps every piece in order and puts the substitute between them |
| Prompting.CutExists | backend/app/llm/prompting.py:45-47 | and every text can be cut so |
| Prompting.NoneLeft | backend/app/llm/prompting.py:45-47 | replacement leaves no match and creates none across its seams |
| Prompting.NothingNew | backend/app/llm/prompting.py:45-47 | replacement creates no other text free of the substitute's characters, so the second replacement does not bring the first mark back |
| Prompting.FencedOnce | backend/app/llm/prompting.py:50-53 | for every content, redaction and limit the open mark occurs exactly once, at the start, and the close mark exactly once, at the end |
| Prompting.BodyRecoverable | backend/app/llm/prompting.py:50-53 | cutting at any close mark gives exactly the body |
| Prompting.BodyIsLongestPrefix | backend/app/llm/prompting.py:45-52 | of a content cut into pieces at its marks, the body holds every piece in order with the substitutes between them, cut only where that exceeds the limit |
| Prompting.WeaveExists | backend/app/llm/prompting.py:45-47 | and every content is such a sequence of pieces without marks, with the marks between them |
| Prompting.InnocentTextKept | backend/app/llm/prompting.py:45-53 | text that mentions neither mark and fits is passed on as redacted |
| Prompting.MessageMarks | backend/app/llm/prompting.py:68-73 | a mark occurs in the user message where the instruction has it and where the fence has it, and nowhere else |
| Prompting.MessageFencedIff | backend/app/llm/prompting.py:56-73 | each mark occurs in the user message exactly once, at the fence, if and only if the instruction does not mention it |

## Left out

- FastAPI routes, authentication, middleware, Celery, GitHub and provider clients, databases and caches: I/O and foreign libraries.
- The regular-expression engine, `ast.parse`, the language guess, `json.loads` with what it may raise, `redact_text`, the secret patterns, `json.dumps` and SHA-256 are parameters. The rewrite rules assume only that a substitution replaces texts its pattern can match; the word boundaries of three of them are not needed.
- Hashes are assumed to have 64 characters and, among the texts that are hashed, not to collide or hit the genesis value; the canonical encoding is assumed injective, which `default=str` breaks for values outside JSON. An event's detail is modelled by its text.
- Floating point: confidences, rates, tokens and times are exact reals. Cost rounding is a parameter of the router.
- Threads, asyncio and LangGraph are represented by interleaved steps, and what other agents charge while a provider is awaited is a parameter of the call; the limiter and the guard are ordered by their locks, with the clock reading as an argument.
- Review.SecretBlocks: assumes of the findings of the secret's identity what the model class and the cap enforce: they are in range, and the model's among them are at most 0.9 sure. A confidence that is not a number, which JSON readers admit, is no real and not modelled.
- Review.SecretsReportedIff: assumes that the rule table's own confidences lie between zero and one; titles and messages are assumed to fit their length limits.
- UnifiedRoundTrip.ParseOfRender: the converse excepts forged files, where a piece of another line takes the place of a lost insertion; what those read as can only be said by reading them. Quoted paths, combined diffs and binary patches are not rendered; git's extended header lines are assumed to be none of those the parser acts on.
- UnifiedFormat.HeaderRead: digits are ASCII; other Unicode digits, which the pattern also accepts, and the interpreter's limit on the length of decimal numbers are not modelled.
- Tarjan.CycleSearch.StrongConnect: the interpreter's recursion limit is not modelled; the source recurses once per file on a path.
- Two-level dictionaries per tenant and repository are one map keyed by the pair; buckets and category statistics are values in maps, so that the aliasing of statistics handed out by the feedback store is not captured.
- The parser's `current` is the last object of the result list together with a flag.
- The item texts of consensus, explanations, the reason sentence and the scorecard play no part in the verdict.
- `graph_export`, `list_events`, `generate_patches`, `suggestion_block`, `added_text`, `languages`, `remaining`, `to_dict`: copies, folds and formatting that would add only easy members.
- Neo4j, Qdrant, Redis and SQL adapters, scoring, triage, access roles, metrics and the embedder: foreign systems or clamped sums and case splits.
