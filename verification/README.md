# pg_lion, modelled and proved

pg_lion is a PostgreSQL index whose entries hold roaring containers of heap
TIDs. This project models six parts of it in Dafny and proves what they promise,
for all inputs, all runs and, where processes share work, all interleavings:

- **Containers** (`src/lion_container.c`): a set of 15-bit values as an ARRAY, a
  RUN, a NARROW bitmap of 1 to 5 words a block, or a BITSET. Every operation is
  proved against the set it stands for; `optimize` is shown to be canonical and
  minimal, the set algebra to be exact for every pair of representations, and
  the three ways to a union to end in equal containers.
  Modules: `Sets`, `Containers`, `Canonical`, `Images`, `ImageScans`,
  `Extraction`, `Searches`, `Conversions`, `RunSplices`, `RunRanges`, `Filters`,
  `Mutators`, `Merges`, `Algebra`, `Unions`, `Checks`.
- **The bottom-up build** (`src/lion_build.c`): the directory's levels under page
  arithmetic (`Pages`, `DirectoryPages`, `DirectoryBuild`, `DirectoryTree`); a key's
  codes cut into segments and containers (`PostingItems`, `Varints`), packed into
  leaves and a posting tree (`PostingLeaves`, `PostingTree`); columns written by
  workers and replayed by the leader (`Columns`), and who writes which (`Claims`).
- **BM25 top-k** (`src/lion_bm25.c`, `src/lion_bm25_scan.c`): MaxScore with a
  bounded heap, resumed walk by walk, against "rank everything, take the best"
  (`Bm25Rank`, `Bm25Heap`, `Bm25Score`, `Bm25TopK`, `Bm25Walks`, `Bm25Row`).
- **Decoded group counts** (`src/lion_count_decode.c`): one pass with
  generation-stamped arrays, mixed-radix codes, a spilling tally and a recheck
  list, against one intersection a combination (`Tally`, `DecodeQuery`,
  `DecodeBook`, `DecodeKeys`, `DecodeWalk`).
- **The arena** (`src/lion_arena.c`): size classes, free lists and regions
  (`Arena`).

`dafny verify dfyconfig.toml` checks the whole project.

## How the model is laid out

The sizes are those of 8 kB pages: 64 heap blocks of 512 offsets to a container,
2048 members to an ARRAY, 1023 runs to a RUN, 8136 bytes of items to a page. A
64-bit word is the set of its bit positions, so a bitmap pass means what it does
to each word. What the C code changes in place is a class whose methods say what
the new state is: `Mutators.Buffer`, `DirectoryBuild.Directory`,
`PostingItems.Builder`, `PostingLeaves.SetPages`, `PostingTree.TreeBuilder`,
`Columns.BlockMap`, `Columns.Leader`, `Claims.Shared`, `Tally.Counts`,
`DecodeWalk.Walk`, `Arena.FileArena`, `Bm25Walks.Scan`; the BM25 heap is an array
sifted in place. A payload array that is shifted by memmove is a field of
sequence type that a method reassigns.

What each part rests on:

- A container's meaning is `Containers.Members`, a set, and `WellFormed` is what
  `Checks.Check` accepts. `Optimal` says which representation `optimize` leaves;
  that this is the only container of its members, and the smallest, is proved
  from the members alone (`Canonical`), so two computations of one set agree
  byte for byte as soon as both are optimized.
- A directory or posting level keeps, beside its open page, the history of what
  it was given and where its pages were cut (ghost). The tree theorems are about
  those histories and the written file.
- A worker's column is a script of three actions: take a block, finish a page,
  add an entry. The directory is any function from the entries it was given, and
  the counters at which it was, to the blocks it takes; the replay theorem holds
  for all of them.
- The claim protocol is a transition system with one step for each section under
  the mutex. Safety is proved over all runs, and so are the absence of deadlock
  and the length of a run.
- A search for BM25 holds its lexemes' postings by code. Scores are reals, and two
  are added by a function of the search of which nothing is known, so that a sum
  is the code's only in the code's order; the ranking's exactness under pruning
  asks that it be exact (`Bm25Score.Exact`). Visibility is a set of codes.
- In the decoded walk the visibility map's all-visible blocks and the heap's
  visible rows are two sets, and what the code's own comment argues for is a
  precondition (`DecodeQuery.MapIsSound`): a row of a pinned set of column 0 on a
  block shown all-visible is visible. A visible row is in one set of a column; an
  invisible one may be in several, and gets any of their values.

Two things the code does that a reader might not expect, kept as they are:
`lion_container_and_union_raw` takes a container of more than 2048 members for an
empty one (its callers check), which `Unions.AndUnionRaw` states exactly; and a
flush of a directory page, whose comment speaks of trailing items moved to the
next page, moves at most one, which `DirectoryBuild.Trim` proves.

## Model

| member | source | states |
|---|---|---|
| Bm25TopK.TopK | src/lion_bm25.c:904-1028 | For any lexemes, postings, lengths, L and `after`: the array ends holding exactly the first L candidates of the full ranking (score descending, then code ascending), although lexemes are left out as their maxima allow |
| Bm25TopK.NextCode | src/lion_bm25.c:972-977 | The smallest code at or past the frontier that an essential lexeme still has, with none of them having a code between |
| Bm25TopK.ScoreEssential | src/lion_bm25.c:982-995 | The essential lexemes' part of a row's score, added in the one order whatever adding two scores does, each of their cursors stepped past the row and the others untouched |
| Bm25TopK.ScoreRest | src/lion_bm25.c:996-1008 | Either the row's whole score, added in the one order whatever adding two scores does, or a stop, which exact adding allows only when the full heap's worst is at least that score |
| Bm25TopK.CannotGetIn | src/lion_bm25.c:921-926 | A later row scoring no more than the full heap's worst is ranked below all it holds |
| Bm25TopK.SkipRows | src/lion_bm25.c:907-919 | Rows with none of the essential lexemes change nothing of the best L |
| Bm25TopK.HeapTakes | src/lion_bm25.c:490-516 | A candidate above the heap's worst replaces it, and the heap still holds the best of one candidate more |
| Bm25TopK.Offer | src/lion_bm25.c:1009-1015 | A row is put in or left out so that the heap holds the best L of the rows decided so far |
| Bm25TopK.Lower | src/lion_bm25.c:1015-1018 | nlow only grows, stays at lexemes whose maxima sum to no more than the heap's worst, and stops only where one more would exceed it |
| Bm25Score.ScoreIsBounded | src/lion_bm25.c:921-924 | The first t lexemes of the order lift no row by more than the sum of their maxima |
| Bm25Score.TfScoreIsBounded | src/lion_bm25.c:674-678 | A lexeme's share of a score is between 0 and idf * (k1 + 1) |
| Bm25Score.NormIsNonNegative | src/lion_bm25.c:681-685 | A length norm is never negative |
| Bm25Score.ScoreIsTextbook | src/lion_bm25.c:658-685 | The quotient computed is BM25's idf * tf * (k1 + 1) / (tf + k1 * (1 - b + b * dl / avgdl)) |
| Bm25Score.LexemeAdds | src/lion_bm25.c:978-995 | A lexeme adds to exactly the rows it has a posting of, and that is BM25's score of the posting's occurrences in a row of its length, or of the mean where none is stored |
| Bm25Score.NormAtTheEnds | src/lion_bm25.c:681-685 | With b = 0 a row's length does not count, with b = 1 the norm is in proportion to it, and a row of mean length has the same norm for any b |
| Bm25Score.LongerScoresNoHigher | src/lion_bm25.c:674-685 | A longer row never scores higher, nor one with fewer occurrences |
| Bm25Score.AbsentAddNothing | src/lion_bm25.c:907-911 | A row without the remaining lexemes gets nothing from them |
| Bm25Heap.Sift | src/lion_bm25.c:465-488 | From a heap broken at one place, a heap of the same candidates; the rest of the array is untouched |
| Bm25Heap.Rise | src/lion_bm25.c:498-511 | A candidate put last is moved up until the heap holds again, the candidates the same |
| Bm25Heap.Add | src/lion_bm25.c:490-516 | The heap gains a candidate, in the worst one's place once it is full |
| Bm25Heap.RootIsWorst | src/lion_bm25.c:465-470 | No candidate of the heap ranks below its root |
| Bm25Rank.TopIsHeadOfRanking | src/lion_bm25.c:440-446 | A set of the best l candidates is the ranking's first l |
| Bm25Rank.RankedBelow | src/lion_bm25.c:519-523 | The candidates ranked below a row of the ranking are those after it, in order |
| Bm25Rank.SortGivesRanking | src/lion_bm25.c:807-811 | Any sorting of the ranking's first l rows by the comparator is those rows in the ranking's order |
| Bm25Rank.DescendingIsUnique | src/lion_bm25.c:448-459 | There is one best-first listing of a set of candidates |
| Bm25Rank.RankingOrder | src/lion_bm25.c:440-459 | A row above another in the ranking has the higher score, or the same and the smaller code |
| Bm25Row.ScoreRow | src/lion_bm25.c:873-902 | The score of one row's document is what the ranking gives the row: the same terms added in the same order, whatever adding two scores does |
| Bm25Row.RowLength | src/lion_bm25.c:873-890 | A document's length counts each word's positions, a word without any once |
| Bm25Row.LengthCountsPlaces | src/lion_bm25.c:866-879 | The length is the number of occurrences of the words that are not empty, a word without positions having one |
| Bm25Row.TermScoreOfMax1 | src/lion_bm25.c:893-897 | A lexeme stored without positions scores as one with a single occurrence |
| Bm25Walks.ResumedRanking | src/lion_bm25.c:927-934 | What a walk resumed after the n-th row ranks is the ranking from there on: no gap and no repeat |
| Bm25Walks.CappedWalkIsLast | src/lion_bm25.c:787-804 | A walk whose L was capped by what the lexemes have left comes up short, so that none follows it |
| Bm25Walks.SortInPlace | src/lion_bm25.c:807-811 | A walk's rows sorted where they lie: in the comparator's order, the same rows, the rest of the array untouched |
| Bm25Walks.WalkSorted | src/lion_bm25.c:1116-1121 | One walk, sorted: the next L of the ranking below `after` |
| Bm25Walks.Resume | src/lion_bm25.c:1107-1133 | A walk after the first `seen` rows gives the next L rows of the one ranking |
| Bm25Walks.Emit | src/lion_bm25.c:633-655 | The visible ones of a walk's rows, up to k in all |
| Bm25Walks.RankRows | src/lion_bm25.c:1056-1148 | What is emitted is the first k visible rows of the ranking, or all of them, however many walks it takes; the loop ends |
| Bm25Walks.Scan.constructor | src/lion_bm25_scan.c:677-727 | A scan starts with all of the visible ranking to give |
| Bm25Walks.Scan.Refill | src/lion_bm25_scan.c:795-822 | Another walk continues where the last one stopped: nothing is lost or repeated |
| Bm25Walks.Scan.Next | src/lion_bm25_scan.c:767-827 | Each pull gives the next visible row of the ranking, and none exactly when all are given |
| Bm25Walks.Scan.Rescan | src/lion_bm25_scan.c:852-866 | A rescan has the whole visible ranking to give again |
| Bm25Walks.Scan.Pull | src/lion_bm25_scan.c:767-835 | Any number of pulls lists the visible ranking once, in order |
| Containers.SizeIsBounded | src/lion_container.h:233-246 | A well-formed container of any kind fits in 4104 bytes |
| Containers.LeastWidthIsLeast | src/lion_container.c:2325-2367 | A width that holds a set, where one less does not, is the least that does |
| Containers.RunSetCounts | src/lion_container.c:1857-1883 | Ascending runs that do not touch have the values and the number of runs of the set they make |
| Containers.BestKindIsFirst | src/lion_container.c:2278-2367 | Of the representations that can hold the set none is smaller than the one chosen, nor as small and earlier in the order ARRAY, RUN, NARROW, BITSET |
| Containers.ArrayIsNoLarger | src/lion_container.h:233-246 | An ARRAY is no larger than a bitmap of width k exactly up to WidthArrayCard(k) members |
| Canonical.OptimalIsCanonical | src/lion_container.c:2278-2318 | Two optimized containers of one key and the same members are equal in every byte modelled |
| Canonical.OptimalIsSmallest | src/lion_container.c:2267-2318 | No well-formed container of the same members is smaller than the optimized one |
| Canonical.KindAndMembersDecide | src/lion_container.c:2267-2277 | Of one representation, the members decide the payload |
| Canonical.RunsAreUnique | src/lion_container.c:1289-1337 | A set has one list of ascending, disjoint, not adjacent runs |
| Canonical.MinWidthFits | src/lion_container.c:2325-2367 | The least width holds every member, and no smaller one does |
| Images.TestDecides | src/lion_container.c:1076-1088 | The bit test decides membership, false for a value the bitmap has no bit for |
| Images.SetBitAdds | src/lion_container.c:1091-1106 | Setting a bit adds exactly that value, or nothing where the width has no bit for it |
| Images.ClearBitRemoves | src/lion_container.c:1108-1123 | Clearing a bit removes exactly that value |
| Images.FoldedSets | src/lion_container.c:1346-1384 | Word-by-word AND, OR and ANDNOT of two widths mean the set operation on what the result's width holds |
| Images.Fold | src/lion_container.c:1352-1404 | A fold of a bitmap into another of any width is the operation on every word, absent ones being 0 |
| Images.Rewiden | src/lion_container.c:1439-1451 | Another width keeps exactly the members it has bits for |
| Images.Cardinality | src/lion_container.c:1204-1208 | The popcounts of the words are the number of members |
| Images.Pass | src/lion_container.c:553-594 | One kernel pass makes the result and its count |
| ImageScans.MarkRange | src/lion_container.c:1150-1184 | A range set or cleared changes exactly the range's values that the width holds |
| ImageScans.RangeCardinality | src/lion_container.c:1186-1201 | The members of a range, counted |
| ImageScans.BitRuns | src/lion_container.c:1003-1007 | Runs of bits as the words lie fall short of the runs of members by the block boundaries they run across |
| ImageScans.CountRuns | src/lion_container.c:1218-1229 | With the block-boundary correction the count is the number of runs of members, at every width |
| ImageScans.ImageMinWidth | src/lion_container.c:1461-1472 | The narrowest width that holds a bitmap's members |
| Extraction.ImageValues | src/lion_container.c:1241-1273 | The members in ascending order, or None exactly when they are more than the room |
| Extraction.ImageRuns | src/lion_container.c:1289-1337 | The number of runs, and the runs themselves when they fit the room |
| Extraction.RunValues | src/lion_container.c:1963-1985 | A RUN's values in ascending order, or None exactly when they are more than the room |
| Searches.LowerBound | src/lion_container.c:1481-1497 | The first index at or past a key |
| Searches.UpperBound | src/lion_container.c:1500-1516 | The first index past a key |
| Searches.LowerBoundBranchFree | src/lion_container.c:1527-1542 | The branch-free search finds the lower bound of its window |
| Searches.Gallop | src/lion_container.c:1549-1569 | Doubling steps and the branch-free search find the lower bound of the whole array |
| Searches.RunLocate | src/lion_container.c:1578-1598 | The last run that starts at or before a value |
| Searches.LocatedDecides | src/lion_container.c:1571-1578 | Only the run located can have the value |
| Searches.RunHasMember | src/lion_container.c:3886-3899 | The branch-free search of runs decides membership |
| Searches.ArrayHasMember | src/lion_container.c:4174-4195 | The branch-free search of an ARRAY decides membership |
| Searches.Contains | src/lion_container.c:2223-2252 | Membership in any representation |
| Searches.HasMember | src/lion_container.c:4174-4211 | Membership as the set algebra looks it up |
| Conversions.OrBitmap | src/lion_container.c:1615-1663 | Any container ORed into an image of any width |
| Conversions.AndNotBitmap | src/lion_container.c:1666-1705 | Any container's members cleared from an image |
| Conversions.AndBitmap | src/lion_container.c:1711-1752 | A bitmap's or RUN's members kept in an image |
| Conversions.KeepRuns | src/lion_container.c:1723-1747 | Clearing the gaps around the runs keeps exactly the runs' members |
| Conversions.FillBitmap | src/lion_container.c:1755-1765 | A container as an image of the members its width holds |
| Conversions.ContainerRuns | src/lion_container.c:1857-1883 | The number of runs of members of any representation |
| Conversions.ContainerMinWidth | src/lion_container.c:2325-2367 | The least width that holds every member, of any representation |
| Conversions.RunsMinWidth | src/lion_container.c:2345-2365 | The least width from the runs' ends alone, a run into the next block needing the full one |
| Conversions.MakeBitmap | src/lion_container.c:1899-1909 | The bitmap of the same members, when the width holds them |
| Conversions.Extract | src/lion_container.c:1922-1989 | The members in order, or None exactly when they are more than the room |
| Conversions.MakeArray | src/lion_container.c:2000-2016 | The ARRAY of the same members |
| Conversions.RunsOfArray | src/lion_container.c:2018-2065 | An ARRAY's runs, counted, and stored when they fit |
| Conversions.MakeRun | src/lion_container.c:2018-2065 | The RUN of the same members |
| Conversions.Optimize | src/lion_container.c:2278-2318 | The same members in the representation that the members alone decide: the smallest |
| Checks.Check | src/lion_container.c:4990-5099 | What the structural check accepts is exactly what is well formed and fits where it lies |
| Checks.CheckRuns | src/lion_container.c:5061-5093 | Accepts exactly ascending, disjoint, not adjacent runs in range |
| RunRanges.FindReach | src/lion_container.c:3554-3579 | The runs that reach into a range, or that none does |
| RunRanges.ClippedCount | src/lion_container.c:3581-3590 | Their values in the range, counted |
| RunRanges.RunRangeCount | src/lion_container.c:3385-3403 | The same with the last run found on the way |
| RunSplices.SpliceAdds | src/lion_container.c:2375-2448 | Runs moved over to take others' place: the set gains exactly what the replacement adds, in order |
| RunSplices.SpliceRemoves | src/lion_container.c:3591-3617 | Runs replaced by what a removal leaves of them: exactly the range is gone |
| Mutators.GrowsInPlace | src/lion_container.c:2193-2215 | When inplace_need is nonzero, add keeps the representation and ends within that many bytes |
| Mutators.NeedIsExact | src/lion_container.c:2193-2215 | There is no need exactly when a value that touches no member would change the representation, and such a value takes exactly the need |
| Mutators.Buffer.constructor | src/lion_container.c:2178-2185 | An empty ARRAY |
| Mutators.Buffer.Add | src/lion_container.c:2512-2576 | Exactly lo is added, the answer says whether it was new, and the representation afterwards is the documented one, conversions and run overflow included |
| Mutators.Buffer.RunAdd | src/lion_container.c:2375-2448 | The same for a RUN: extended, merged, or given one run more |
| Mutators.Buffer.RunOverflow | src/lion_container.c:2425-2440 | A RUN with no room for a run becomes an ARRAY, or a BITSET only with more than 2048 members |
| Mutators.Buffer.Remove | src/lion_container.c:2578-2618 | Exactly lo is removed, and the representation afterwards is the documented one |
| Mutators.Buffer.RunRemove | src/lion_container.c:2450-2510 | The same for a RUN: shortened, dropped, or split |
| Mutators.Buffer.Shrink | src/lion_container.c:2127-2133 | A bitmap no larger than its ARRAY becomes the ARRAY |
| Mutators.Buffer.RemoveRange | src/lion_container.c:3505-3626 | Exactly the range's members go, their exact number is returned, and no ARRAY or RUN turns into a BITSET of 2048 members or fewer |
| Mutators.Buffer.RemoveRangeBitset | src/lion_container.c:3492-3503 | The same through a BITSET, kept only above 2048 members |
| Mutators.Buffer.RemoveIf | src/lion_container.c:3255-3359 | Exactly the members a predicate picks go, counted; a RUN that loses none is left as it was; no BITSET of 2048 members or fewer comes of a RUN |
| Mutators.Buffer.AppendSorted | src/lion_container.c:2631-2675 | What add would leave, for a value masked into range, in any order |
| Mutators.Buffer.OrInPlace | src/lion_container.c:2812-2899 | A BITSET gains exactly a container's members, and the number of new ones is returned |
| Mutators.Buffer.AddMany | src/lion_container.c:2909-2927 | Values in any order, with repeats, masked into range: all in, and the result optimized |
| Filters.Rebuild | src/lion_container.c:2077-2120 | A RUN rebuilt from an image: a RUN if the runs fit, else the smaller of ARRAY, when legal, and BITSET |
| Filters.FilterRuns | src/lion_container.c:3313-3336 | A RUN's values filtered one by one into an image, kept and removed counted |
| Filters.SetNewWords | src/lion_container.c:2842-2867 | A bitmap of any width ORed into a BITSET by words gathered to its width, the new members counted |
| Algebra.SetopWidthHolds | src/lion_container.c:1837-1854 | The width chosen for a result never loses a member of it, whatever the operands' widths |
| Algebra.SetopWidthIsLeast | src/lion_container.c:1825-1854 | Of the operands' widths and the full one it is the least that loses no member of any result |
| Algebra.OpBitmap | src/lion_container.c:1785-1825 | Whichever operand has the width, one pass gives the operation on what the width holds, and its count |
| Algebra.AndProbe | src/lion_container.c:4213-4242 | A few members looked up one by one: the intersection, as optimize would leave it |
| Algebra.FewAreOptimal | src/lion_container.c:4150-4171 | An ARRAY of up to three members is what optimize would choose |
| Algebra.Intersection | src/lion_container.c:4244-4299 | Exactly A and B, optimized, for every pair of representations and widths |
| Algebra.Union | src/lion_container.c:4301-4336 | Exactly A or B, optimized |
| Algebra.Difference | src/lion_container.c:4338-4381 | Exactly A without B, optimized |
| Algebra.IntersectionRaw | src/lion_container.c:4397-4455 | The same set and count, in the representation the operation builds it in |
| Algebra.DifferenceRaw | src/lion_container.c:4457-4502 | The same for the difference |
| Algebra.UnionRaw | src/lion_container.c:4504-4539 | The same for the union |
| Algebra.AndCardinality | src/lion_container.c:4858-4979 | The size of the intersection, for every pair of representations, without making it |
| Algebra.RangeCount | src/lion_container.c:3361-3408 | The members of a range, for every representation |
| Merges.MergeStep | src/lion_container.c:3801-3823 | The branch-free step of a merge: what it writes and which sides step keep the output the operation on what is passed |
| Merges.ArrayAndBitmap | src/lion_container.c:3654-3675 | An ARRAY's members in a bitmap, in order |
| Merges.ArrayAndNotBitmap | src/lion_container.c:3678-3712 | An ARRAY's members not in a bitmap, in order |
| Merges.ArrayIntersect | src/lion_container.c:3773-3824 | The intersection of two ARRAYs, galloped, through an image, or merged |
| Merges.ArrayUnion | src/lion_container.c:3832-3853 | The union of two ARRAYs |
| Merges.ArrayDifference | src/lion_container.c:3856-3879 | The difference of two ARRAYs |
| Merges.ArrayAndRun | src/lion_container.c:3913-3957 | An ARRAY's members in runs: searched, through an image, or merged |
| Merges.ArrayAndNotRun | src/lion_container.c:3959-3981 | An ARRAY's members not in runs |
| Merges.RunAndRun | src/lion_container.c:3988-4028 | The common values as ascending, disjoint, not adjacent runs and their number; refused exactly when they make more than 1023 runs |
| Merges.RunAndRunCardinality | src/lion_container.c:4031-4057 | The number of common values |
| Unions.OrMerge | src/lion_container.c:2978-3050 | The union, optimized, whatever the image's words held before; refused exactly when the containers yield more than 2048 values, repeats counted |
| Unions.MergeSet | src/lion_container.c:2930-2944 | A word's first member assigns it, so words the summary does not name never matter |
| Unions.CanonIsUnique | src/lion_container.c:2965-2968 | There is one optimized container of a key and a set |
| Unions.Accumulate | src/lion_container.c:2800-2812 | Containers ORed into one BITSET and optimized at the end: the union's container |
| Unions.FoldUnion | src/lion_container.c:4301-4336 | Unions folded in any order and grouping: the union of all the leaves |
| Unions.UnionsAgree | src/lion_container.c:2962-2968 | Folding in any order, accumulating, and merging give equal containers |
| Unions.ProbePending | src/lion_container.c:4574-4667 | Of the positions pending, those whose values a container holds are marked and the others left in order, for every representation |
| Unions.ArrayFromMarks | src/lion_container.c:4765-4795 | The ARRAY of the marked positions' values; well formed whatever the values are |
| Unions.AndUnionRaw | src/lion_container.c:4669-4716 | A and the union of any number of containers, without the union; a container of more than 2048 members is taken as empty, as the code does |
| DirectoryPages.NeedIsBounded | src/lion.h:885-901 | What any legal key, entry and downlink costs on a page |
| DirectoryPages.StoredCost | src/lion_build.c:676-691 | What a page counts for its items is what they cost as they are stored, minus infinity for an internal page's first |
| DirectoryBuild.FirstFits | src/lion_build.c:739-752 | A first item and a high key fit any page; so do two downlinks and a high key an internal one |
| DirectoryBuild.Trim | src/lion_build.c:723-738 | At most one item is carried to the next page, and only when the high key does not fit beside it; two downlinks stay at least |
| DirectoryBuild.RoomForTwo | src/lion_build.c:882-903 | An internal page of one downlink is never written for want of room |
| DirectoryBuild.PageFits | src/lion_build.c:754-800 | A written page with its high key is within the page's capacity |
| DirectoryBuild.Directory.Flush | src/lion_build.c:709-840 | A page written under the next key, its downlink handed up, and every level keeps its invariant |
| DirectoryBuild.Directory.LevelAdd | src/lion_build.c:882-926 | An item more on a level, for any sizes within the maxima: the level's input grows by it and nothing written changes |
| DirectoryBuild.Directory.HandUp | src/lion_build.c:806-822 | The level above is given exactly the page's separator and block |
| DirectoryBuild.Directory.FlushLast | src/lion_build.c:709-840 | The last page of a level, which becomes the root when it is the only one |
| DirectoryBuild.Directory.Finish | src/lion_build.c:973-1000 | The build stops at a level of one page; each level has fewer pages than the one below, so its own error is never raised |
| DirectoryTree.Build | src/lion_build.c:882-1000 | For any entries in order the build leaves a tree over exactly them, its pages ended neither early nor late |
| DirectoryTree.NoPageOverflows | src/lion_build.c:739-752 | No page exceeds its capacity, and an internal page with a right sibling has two downlinks at least |
| DirectoryTree.PagesAreLaidOut | src/lion_build.c:664-675 | The items of a page laid out one after the other at multiples of 8, by their own sizes and key lengths, with its high key and a line pointer each, are within 8136 bytes |
| DirectoryTree.NoPageIsEarly | src/lion_build.c:843-903 | A page with a right sibling could not take the sibling's first item: that is over its budget with a high key, and over the page, or a leaf as far past the budget as short of it, or an internal page with three downlinks |
| DirectoryTree.NoPageIsLate | src/lion_build.c:843-903 | Each item but a page's first was within the budget when it was taken, or within the page and a leaf nearer to its budget by it, or an internal page short of three downlinks |
| DirectoryTree.LeavesSpellEntries | src/lion_build.c:559-564 | The leaves by their right links hold the entries, each once, in order |
| DirectoryTree.DescentFindsEntry | src/lion_build.c:801-822 | A descent from the root for any entry's key reaches the leaf that holds it |
| DirectoryTree.DescendFrom | src/lion_build.c:801-822 | A descent from any page stays where the key belongs, minus-infinity downlinks notwithstanding |
| DirectoryTree.HighKeyIsNextSeparator | src/lion_build.c:693-708 | A page's high key is its right sibling's separator, strictly above all its own items and all entries of all leaves its downlinks lead to; the links name each other |
| DirectoryTree.EndsOfLevel | src/lion_build.c:754-770 | Every page has its level; only a level's first page has no left sibling, and only its last no right one and no high key |
| DirectoryTree.SubtreeIsBounded | src/lion_build.c:693-708 | Every entry of every leaf a page's downlinks lead to, at any level, is at or above the page's separator and strictly below its high key |
| DirectoryTree.DescentReaches | src/lion_build.c:801-822 | The leaf a descent ends at is one that stored downlinks lead to |
| DirectoryTree.LevelHalves | src/lion.h:940-968 | n pages below need at most (n + 1) / 2 above |
| DirectoryTree.HeightIsBounded | src/lion.h:956-966 | A directory of height h >= 1 has 2^(k-1) + 1 pages or more at level h - k, 2^(h-1) + 1 leaves and 2^h + h pages in all, so h <= 31 below 2^32 blocks |
| Columns.WriteColumn | src/lion_build.c:1035-1056 | A worker's records: its pages and entries in order, each with the blocks handed out by then |
| Columns.BlockMap.Extend | src/lion_build.c:1080-1108 | The worker's blocks since the last record get the counter's next numbers; a record that goes back is refused |
| Columns.BlockMap.Get | src/lion_build.c:1110-1133 | The bisection finds the number of every block handed out, and refuses any other |
| Columns.BlockMap.RenumberPage | src/lion_build.c:1135-1162 | Field by field, left link, right link and owner are the numbers of the blocks they named, as are an internal page's downlinks; level and a leaf's items are as they were; refused exactly when a block is not handed out |
| Columns.BlockMap.RenumberEntry | src/lion_build.c:1164-1179 | Field by field, a CHAIN entry's head and tail and a position tree's root are the numbers of the blocks they named, and all else is as it was |
| Columns.NumbersAscend | src/lion_build.c:560-564 | A column's blocks have ascending numbers of the index, no two the same |
| Columns.Leader.ReplayColumn | src/lion_build.c:1182-1226 | A stream of records is replayed record by record, and refused exactly when one goes back or names a block not handed out |
| Columns.ReplayIsSerial | src/lion_build.c:1003-1026 | After any part of the column the replay is where the serial build is, but for blocks no record has named |
| Columns.ColumnIsSerial | src/lion_build.c:1003-1026 | Replaying a worker's column leaves every block, link, owner, downlink and directory addition as the serial build does, whatever blocks the directory takes between |
| Columns.BuildIndex | src/lion_build.c:3598-3635 | Whoever writes which columns, the index is the serial build's: the last page put at a block lies at its number, each link, owner and downlink the number of the block it named, and each entry is in the directory's log at its place, likewise |
| Columns.PagesLie | src/lion_build.c:1135-1162 | Of every column, the last page put at a block is in the index at the block's number, with what it names by number, whatever comes after |
| Columns.EntriesAreLogged | src/lion_build.c:1164-1200 | Of every column, each entry is given to the directory in its turn, with what it names by number |
| Claims.ClaimIsLargest | src/lion_build.c:3018-3041 | A worker is given the largest column left that is not the leader's |
| Claims.ClaimIsBest | src/lion_build.c:3022-3041 | The claim is a column but the first and the leader's own that none has taken, no other being larger, nor as large and earlier; there is none exactly when all those are taken |
| Claims.ClaimStep | src/lion_build.c:3048-3105 | A worker goes exactly when no such column is left, and else begins the largest, which is then taken; no other flag changes |
| Claims.OwnColumn | src/lion_build.c:2990-3016 | The leader keeps the largest column, the earliest of equals, when it is as large as all the others together, or the first |
| Claims.Shared.ClaimColumn | src/lion_build.c:3022-3041 | Under the mutex: the largest column but the first and the leader's own that none has taken, the earliest of equals, marked taken; none exactly when all those are taken |
| Claims.Shared.TakeColumn | src/lion_build.c:3114-3133 | Under the mutex: whether the column is the leader's to write, and whether every later one of the workers' is done |
| Claims.StepKeeps | src/lion_build.c:3048-3171 | Every step of the leader or a worker keeps the invariant |
| Claims.ColumnsAreSafe | src/lion_build.c:3107-3171 | Over every interleaving: one writer a column, never a worker for the leader's two, a replay only of a finished file, and alone means no worker writes or can begin to |
| Claims.AllWritten | src/lion_build.c:3598-3635 | When the leader is through, every column has had exactly one writer, and was replayed if that was a worker |
| Claims.SomeStep | src/lion_build.c:3136-3158 | No deadlock: until the last column is in some step can be made |
| Claims.StepsCountDown | src/lion_build.c:3048-3105 | Every step leaves less to do |
| Claims.RunsEnd | src/lion_build.c:3048-3171 | No run is longer than four steps a column and one a worker |
| PostingItems.MakeItems | src/lion_build.c:1675-1798 | For any ascending codes the items are the stream cut where keys change, each container optimized, each segment a stream of nbytes bytes, 255 at most, that reads back as its codes; no segment was closed that had room for the next one's first key; the three counts are exact |
| Varints.StreamReadsBack | src/lion_sparse.h:205-236 | Reading the stream of any rising codes gives the codes |
| Varints.ReadsBack | src/lion_sparse.h:163-174 | The seven-bit bytes of a delta, whose number VarintSize is, read back as the delta and leave the rest |
| PostingItems.SegmentIsStream | src/lion_build.c:1691-1716 | The bytes counted for a segment are those of its stream, from its key's first code |
| PostingItems.KeysAreDistinct | src/lion_build.c:1723-1755 | The keys counted are the distinct container keys of the codes |
| PostingItems.EachKeyInOneItem | src/lion_build.c:1723-1755 | Items' key ranges ascend and do not interleave: no key is in two |
| PostingItems.ManyMakeContainer | src/lion_build.c:1757-1798 | A key has a container exactly when it has four codes or more |
| PostingItems.SmallGroupFits | src/lion_build.c:1691-1700 | A group too small for a container always fits an empty segment |
| PostingItems.FitsAfter | src/lion_build.c:1691-1716 | The test of the varints' bytes and the pairs decides whether the group fits the open segment |
| PostingItems.Builder.Add | src/lion_build.c:1757-1798 | The next code: pending, the fourth making a container, or appended to one; the open segment goes out before a container |
| PostingItems.Builder.FinishGroup | src/lion_build.c:1723-1755 | A group closed whole, in a container or one segment; the append never overflows |
| PostingItems.Builder.CloseSegment | src/lion_build.c:1675-1684 | The open segment emitted, if there is one |
| PostingLeaves.BuildSet | src/lion_build.c:1535-1619 | Any items: leaves in one chain with the items in order; up to 16 headed by the first, more under a tree whose root heads them all; each leaf but the last has no room for the next one's first item, and none is past the budget but by its first item |
| PostingLeaves.SetPages.Spill | src/lion_build.c:1535-1619 | One item onto the open leaf or the next, the seventeenth leaf starting the tree |
| PostingLeaves.SetPages.StartTree | src/lion_build.c:1443-1464 | The root's block reserved, and the held leaves stamped with it and written with their downlinks |
| PostingLeaves.SetPages.Finish | src/lion_build.c:1858-1885 | The last leaf, and the levels above: every page of the set names its head |
| PostingLeaves.LeavesSpellItems | src/lion_build.c:1560-1612 | The leaves by their right links hold the items, each once, in order |
| PostingLeaves.DescentFindsItem | src/lion_build.c:1351-1435 | A descent for any key an item covers reaches the item's leaf |
| PostingLeaves.SubtreeIsBounded | src/lion_build.c:1351-1435 | Every item of every leaf a page's downlinks lead to starts at or above the page's first key and ends strictly below its high key |
| PostingLeaves.HeightIsBounded | src/lion_build.c:1331-1342 | A set whose leaves are in a file of fewer than 2^32 blocks has a tree of four levels at most |
| PostingTree.TreeBuilder.Add | src/lion_build.c:1411-1435 | A downlink more on a level, a full page being written first |
| PostingTree.TreeBuilder.Flush | src/lion_build.c:1351-1409 | A full page written under the next key, and handed up |
| PostingTree.TreeBuilder.Finish | src/lion_build.c:1482-1508 | The levels close from the bottom up, each smaller than the one below, and the root lands on its reserved block |
| PostingTree.NodesAreWell | src/lion_build.c:1351-1409 | Every internal page is within its capacity and names the root as owner; its downlinks lie from its first key up to below its high key, which is where its right sibling starts |
| PostingTree.HeightIsBounded | src/lion_build.c:1331-1342 | A tree of h levels has more than 677^(h-1) leaves: at most four levels below 2^32 leaves |
| PostingTree.LevelsAreFew | src/lion_build.c:1331-1342 | While a tree is built, too: the error of a tree deeper than 16 levels is out of reach |
| PostingTree.SubtreeFrom | src/lion_build.c:1351-1409 | A leaf a page's downlinks lead to, at any level, starts at or above the page's first key and below the first key of the page to the right |
| PostingTree.DescentReaches | src/lion_build.c:1351-1435 | The leaf a descent ends at is one that downlinks lead to |
| PostingTree.DescentFindsLeaf | src/lion_build.c:1351-1435 | A descent for any key reaches the last leaf that starts at or below it |
| Arena.ClassIsLeast | src/lion_arena.h:89-110 | A size's class is the least that holds it, aligned, and less than twice the size |
| Arena.ClassesAreEnough | src/lion_arena.h:89-110 | There is a class for every size up to the largest that can be asked for, and no more; a region is whole pages |
| Arena.ClassSizesRise | src/lion_arena.h:102-110 | Classes are in order of size |
| Arena.FileArena.RegionOf | src/lion_arena.c:45-65 | The bisection finds the region an address is in, or that none has it |
| Arena.FileArena.Contains | src/lion_arena.c:67-71 | Whether any region has the address |
| Arena.FileArena.AddRegion | src/lion_arena.c:78-111 | The new region, of what the file grew by, goes in by its address among the others, which stay as they are; refused exactly when none can be had |
| Arena.FileArena.Alloc | src/lion_arena.c:113-159 | A block that was not live, of the size's class, aligned, inside one region and apart from every live block: the one of the class given back last, else a region's tail; every region stays where it was mapped; None exactly when the size is too large or there is no block, room or new region |
| Arena.FileArena.FindRoom | src/lion_arena.c:135-151 | The current region while it has room, else the first that has, else a new one; every region stays where it was mapped |
| Arena.FileArena.Free | src/lion_arena.c:161-170 | The block is dead, and first of its class's list; the other lists and the regions are as they were |
| Arena.FileArena.Reset | src/lion_arena.c:172-181 | No block is live, and the regions and the file are kept |
| Arena.Carved | src/lion_arena.c:154-158 | A block carved off a region's tail is apart from every block before it |
| Arena.InsertTiles | src/lion_arena.c:96-107 | With the new region the file's bytes are each mapped by one region |
| Tally.CountCells | src/lion_count_decode.c:127-141 | A pass is refused exactly when the combinations are more than 2^62 |
| Tally.SplitCode | src/lion_count_decode.c:290-300 | The values a code names: they encode to it again |
| Tally.CodeIsCell | src/lion_count_decode.c:803-816 | A code of values within their radixes is below the number of cells |
| Tally.CodesDiffer | src/lion_count_decode.c:803-816 | No two combinations share a code |
| Tally.Counts.Add | src/lion_count_decode.c:193-213 | A code's total grows by exactly n, and no other's changes, whether or not the hash spills |
| Tally.Counts.Spill | src/lion_count_decode.c:169-191 | What the hash held is in the file: no total changes |
| Tally.Counts.Next | src/lion_count_decode.c:219-273 | Each pair read back is taken off what is left of its code; there is no next exactly when nothing is left |
| Tally.ReadBack | src/lion_count_decode.c:219-273 | What comes out of a tally adds up, code by code, to what went in |
| DecodeQuery.AnswerIsNaive | src/lion_count_decode.c:430-452 | The rows a code counts are the visible ones in the intersection of its values' sets and the WHERE |
| DecodeQuery.MapDecides | src/lion_count_decode.c:819-829 | The value stored for a row tells whether the map decides it, though an invisible row may have several values; what the map decides is visible |
| DecodeKeys.NextGeneration | src/lion_count_decode.c:692-700 | After the counter steps, or wraps, no place of any array is stamped with it |
| DecodeKeys.DecodeColumn | src/lion_count_decode.c:680-690 | A place has the generation exactly when a value of the column has the row, and then such a value; cursors pass only smaller keys. Sets that share rows are allowed |
| DecodeKeys.DecodeFirst | src/lion_count_decode.c:702-717 | Column 0's rows at the key as an image, each with a value that has it; sets that share rows are allowed |
| DecodeKeys.CursorDecides | src/lion_count_decode.c:676-690 | What a set has at a key is the container its cursor stands at |
| DecodeWalk.Walk.RowCode | src/lion_count_decode.c:800-815 | A row's code, of values that each have the row and below the number of cells, and none exactly when a column has no value of it |
| DecodeWalk.Walk.CountRow | src/lion_count_decode.c:794-829 | Every row asked for is tallied when the map decides it and listed for the heap when it does not, exactly once |
| DecodeWalk.Walk.RecheckAdd | src/lion_count_decode.c:373-419 | The list is rechecked exactly when another block's rows might take it past its budget, and then becomes a batch whole; the row is listed last |
| DecodeWalk.Walk.FlushList | src/lion_count_decode.c:325-354 | Exactly the listed rows the heap shows are tallied; the list becomes the next batch |
| DecodeWalk.Walk.KeepRows | src/lion_count_decode.c:719-738 | Column 0's rows the WHERE keeps at the key |
| DecodeWalk.Walk.SeekFirst | src/lion_count_decode.c:657-674 | Column 0 sought to the WHERE's next key |
| DecodeWalk.Walk.Advance | src/lion_count_decode.c:850-875 | Cursors at the key go on by a step or a seek, and pass nothing that is to be counted |
| DecodeWalk.Walk.Run | src/lion_count_decode.c:640-881 | The walk tallies, for each code, the number of visible rows asked for; the heap is asked about exactly the rows the map does not decide, in batches within their budget, none but the last sent while another block's rows would fit, and no heap block's rows are in two |
| DecodeWalk.CountGroups | src/lion_count_decode.c:478-909 | For every combination of values, what the pass gives out adds up to the naive count |
| DecodeBook.BudgetGrows | src/lion_count_decode.c:382-391 | A list emptied at block boundaries keeps room for the block it is on |
| DecodeBook.BatchSent | src/lion_count_decode.c:364-372 | The list rechecked is one batch more: within the budget, and on blocks no other batch has rows of |
| DecodeBook.BatchesEnd | src/lion_count_decode.c:819-829 | At the end the batches' rows are exactly the rows asked for that the map does not decide |
| DecodeBook.BookEnds | src/lion_count_decode.c:876-881 | With every key met and the list empty, the rows tallied are the visible ones asked for |

## Left out

- Damaged input: containers are taken as well formed, but for `Checks.Check`, which decides it, and `Unions.ArrayFromMarks`, whose result is well formed whatever its values are. The clamps of `container_clamp` and `run_last` are then the identity.
- SIMD kernels: a pass is what it does to each 64-bit word; which kernel is chosen is not modelled.
- Bytes: a container's header, run and word layout, the union of payloads in one buffer, and aliasing of destination and operand are values here; a word's range mask is one mask a word.
- Page sizes other than 8 kB, whose constants differ.
- Bm25TopK.TopK: asks that adding scores be exact, as `Bm25Walks.RankRows` and the scan do: a sum of maxima that is rounded may fall below a score it should bound, which the code's nudge of each maximum is meant for; the nudge is modelled and not needed.
- Rounding inside what one lexeme adds, and an infinite maximum, are not modelled.
- `qsort`: which algorithm sorts; `Bm25Walks.SortInPlace` sorts by insertion, and its contract is that of any sort.
- Bm25Walks.Resume: rows inserted between two walks are not modelled; the index is static.
- Cursors over posting sets are positions in lists of postings or containers; page reads, pins and descents below them are not modelled, nor is the binary heap of cursors in the decoded walk, whose least key is found by a scan.
- DecodeWalk.Walk.Run: predicate locks and statistics of the walk are left out, and the position filters of the WHERE are taken as applied to its containers.
- PostgreSQL services: buffers, WAL, locks, catalog, memory contexts, temporary files and the mapping of memory are parameters or left out. A mapping's address is any place apart from the others.
- Arena.FileArena.Alloc: the free list's links, which lie in the dead blocks themselves, are a sequence of addresses.
- Columns.BuildIndex: a worker's file is its sequence of records; the order in which workers write is `Claims`' matter, and a column's records do not depend on it.
- Claims.RunsEnd: the wait for the scan before the columns, and condition variables, are the enabling of steps.
- PostingItems.Builder.Add: a segment is its codes and the length of its stream; the stream's bytes are a function of the codes (`Varints.Stream`), and a damaged stream is not modelled.
- PostingLeaves.BuildSet: an item is its key range and its size; growth slack is part of the size, and INLINE sets that never reach a page are not modelled.
- `lion_container_iterate`, `to_places`, `mark_members`, `block_mask` and `check_offsets`: easy members of the same kind.
- Summaries, slices, position trees, directory inserts, splits and deletion, `lion_cells_*`, the planner's prices, and registration.
