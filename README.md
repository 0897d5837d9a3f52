# Overlap chaining and unitig construction

This project models two pieces of a long-read assembler in Dafny and proves
properties of them.

The first piece is the overlap stage of hifiasm (`hifiasm/Hash_Table.cpp`).
It works on the seed hits ("anchors") one query read shares with each
candidate read:

- The hits are cut into buckets, one per (target read, strand).
- Each bucket is chained by a banded dynamic program (`chain_DP`), with a
  linear fast path (`ha_chain_check`) for buckets that already form one chain.
- The best chain is walked back into an overlap region and its breakpoint
  trace, the "fake cigar" (positions and shifts packed into 64-bit words).
- The region is filed into the read's overlap list. The filing skips or
  replaces a duplicate of the last target, extends the region to the read
  ends, puts it on the query's forward strand and copies the trace with runs
  of equal shift collapsed.

The allocation helpers of the chain scratch space, the overlap list and the
alignment-window lists are modelled as well.

The second piece is the string-graph and unitig code of gfatools' paf2gfa
(`gfatools/paf2gfa/asm.c`):

- `ma_sg_gen` turns overlap hits into segments and arcs.
- `ma_ug_gen` grows maximal non-branching walks (unitigs), either linear or
  circular. It then builds the unitig graph, registering every unitig end and
  inducing an arc for every original arc between registered ends.
- `ma_ug_seq` lays the reads out inside the unitig sequences and copies them
  in, reverse-complementing reads that sit on the reverse strand.

Files and modules:

| file | modules | what it holds |
|---|---|---|
| `fake_cigar.dfy` | `FakeCigars` | the trace codec and its growable buffer |
| `regions.dfy` | `Regions` | overlap regions and window lists |
| `chaining.dfy` | `Chaining` | anchors, band, chain consistency, the chain scratch class and the fast path |
| `chain_dp.dfy` | `ChainDp` | the dynamic program, the best end and the backtrace |
| `by_chaining.dfy` | `ByChaining` | cutting anchors into buckets and chaining each one |
| `overlap_list.dfy` | `OverlapList`, `OverlapAlloc` | the append and the overlap-list class |
| `graph.dfy` | `Graph`, `StringGraph` | the GFA arc store and `ma_sg_gen` |
| `unitigs.dfy` | `Unitigs` | unitig walks and the seed loop |
| `unitig_graph.dfy` | `UnitigGraph` | end registration, induced arcs and `ma_ug_gen` |
| `unitig_seq.dfy` | `UnitigSeq` | `comp_tab`, the layout and the sequence copy |

Three behaviours of the code that are easy to get wrong:

- **Duplicate-target ties compare against a stale length.** When the new
  region has the same target as the last entry and the same score, the new
  one replaces the old only when its `overlapLen` is below the `overlapLen`
  the slot holds. The append never writes `overlapLen` into a slot, and a
  fresh slot is zero-filled. So that value is 0 or whatever an earlier use of
  the slot left, not the old region's span. On a fresh list a tie therefore
  always keeps the old entry (`DedupSlot`, `StoredCoords`).
- **Only neighbouring entries are deduplicated.** The overlap list checks
  only its last entry. Two entries for the same target can both be in the
  list if another target lies between them. The model proves that
  neighbouring entries have distinct targets (`AdjacentDistinct`), nothing
  stronger.
- **Every arc gets the same link id.** `ma_sg_gen` stamps every arc with
  `n_arc`, the number of arcs, not with the arc's own index. The model does
  the same.

## Model

| member | source | states |
|---|---|---|
| FakeCigars.ToInt32 | hifiasm/Hash_Table.cpp:59-62 | the 32-bit two's-complement reading of a word half lies in the int32 range and agrees with it modulo 2^32 |
| FakeCigars.DecodePos | hifiasm/Hash_Table.cpp:59-62 | the position of a trace word is an int32; a high half below 2^31 is read back unchanged |
| FakeCigars.DecodeShift | hifiasm/Hash_Table.cpp:64-81 | the decoded shift is within the encodable range; a negative shift comes from a word with the sign (low) bit set |
| FakeCigars.Pack | hifiasm/Hash_Table.cpp:763-790 | the word packs the position in its high half and the shift in its low half so that both getters give them back (round trip) |
| FakeCigars.Decode | hifiasm/Hash_Table.cpp:59-81 | decoding a buffer decodes each word into its (position, shift) pair |
| FakeCigars.InitFakeCigar | hifiasm/Hash_Table.cpp:743-748 | a new trace is empty, with no capacity |
| FakeCigars.ClearFakeCigar | hifiasm/Hash_Table.cpp:758-761 | clearing empties the trace and keeps the buffer and its capacity |
| FakeCigars.AddFakeCigar | hifiasm/Hash_Table.cpp:763-790 | one entry is appended; a full buffer grows to twice the new length; the getters return the stored position and shift |
| FakeCigars.ResizeFakeCigar | hifiasm/Hash_Table.cpp:793-800 | the capacity becomes at least the request, the old contents are kept and the trace is emptied |
| FakeCigars.AddFakeCigarTrace | hifiasm/Hash_Table.cpp:763-790 | the decoded trace after an append is the old trace followed by (position, shift) |
| Regions.ZeroRegionValid | hifiasm/Hash_Table.cpp:17-29 | a zeroed overlap-region slot is consistent |
| Regions.NumWindows | hifiasm/Hash_Table.cpp:637 | the window count is the length divided by the window size, plus four |
| Regions.AppendWindowList | hifiasm/Hash_Table.cpp:630-658 | one window with cigar length -1 is appended; a list with too few slots grows to the window count; nothing else in the region changes |
| Regions.ClearWindowListAlloc | hifiasm/Hash_Table.cpp:803-813 | init/clear leave no window in use and keep the buffer |
| Regions.ResizeWindowListAlloc | hifiasm/Hash_Table.cpp:823-836 | the capacity becomes at least the request, every slot's error becomes -1, new slots are otherwise zero, and the list is emptied |
| Chaining.ChainTotals | hifiasm/Hash_Table.cpp:401-469 | in a consistent chain state the stored indel and self-length totals are the sums along each anchor's chain, and every chain is within the band |
| Chaining.Chain | hifiasm/Hash_Table.cpp:519-562 | the predecessor chain from anchor i starts at i and stays among anchors 0..i |
| Chaining.ChainStart | hifiasm/Hash_Table.cpp:519-562 | the chain from anchor i ends at an anchor with no predecessor |
| Chaining.ChainFacts | hifiasm/Hash_Table.cpp:519-562 | consecutive chain entries follow the pre links, and the last entry is the chain start |
| Chaining.ChainMonotone | hifiasm/Hash_Table.cpp:414-463 | along every chain the self offsets strictly decrease and the target offsets never increase |
| Chaining.RoundUpPow2 | hifiasm/Hash_Table.cpp:710-721 | kroundup64 gives the least power of two not below n |
| Chaining.ChainData.constructor | hifiasm/Hash_Table.cpp:691-694 | new chain scratch space is empty with no capacity |
| Chaining.ChainData.Clear | hifiasm/Hash_Table.cpp:696-699 | clearing empties the scratch space and keeps its buffers |
| Chaining.ChainData.Resize | hifiasm/Hash_Table.cpp:710-721 | too small a buffer grows to the power of two above n and keeps every stored value; a large enough one is left alone |
| Chaining.ExtendRegion | hifiasm/Hash_Table.cpp:308-338 | the extended region touches a read start and a read end, keeps both diagonals, and stays inside the reads |
| Chaining.GetChainLen | hifiasm/Hash_Table.cpp:308-338 | the chain length is the self span of the region extended to the read ends |
| Chaining.FastStep | hifiasm/Hash_Table.cpp:352-371 | one linear step updates the running indel and length totals, accepts the step exactly when it stays in the band and is not an over-long gap, and gives its scored gain |
| Chaining.FastPass | hifiasm/Hash_Table.cpp:350-371 | the linear pass links each anchor to the previous one with running totals and scores, up to the first rejected step, and leaves the later slots unchanged |
| Chaining.HaChainCheck | hifiasm/Hash_Table.cpp:340-374 | returns the anchor count exactly when the fast path accepts the bucket, otherwise -1; the slots it writes hold the linear chain; on sorted anchors an accepted result is a consistent chain state |
| Chaining.FastChainConsistent | hifiasm/Hash_Table.cpp:340-374 | a linear chain accepted by the fast path is a consistent chain state |
| ChainDp.ScanStep | hifiasm/Hash_Table.cpp:414-446 | a scanned predecessor replaces the best one exactly when it is usable and scores strictly higher |
| ChainDp.Candidate | hifiasm/Hash_Table.cpp:421-444 | a predecessor is usable exactly when it lies strictly before on both reads and keeps the chain in the band; its score is its own plus the halved-or-not step score minus the penalty |
| ChainDp.ScanPredecessors | hifiasm/Hash_Table.cpp:407-463 | the chosen predecessor scores highest over the scanned window, the nearest wins ties, and an early stop leaves more than max_skip scanned positions and more than max_skip usable predecessors other than the chosen one |
| ChainDp.DPFill | hifiasm/Hash_Table.cpp:400-469 | every anchor's stored score, predecessor and totals are what its predecessor scan chose |
| ChainDp.DPConsistent | hifiasm/Hash_Table.cpp:401-469 | on sorted anchors the filled table is a consistent chain state |
| ChainDp.BestEndUnique | hifiasm/Hash_Table.cpp:475-501 | the best-end rule picks exactly one anchor |
| ChainDp.BestEnd | hifiasm/Hash_Table.cpp:475-501 | the chosen end has the highest score, the shortest extended span among the highest and the lowest index among those |
| ChainDp.WalkTraceSnoc | hifiasm/Hash_Table.cpp:519-562 | walking one more anchor records it into the trace |
| ChainDp.WalkFromChain | hifiasm/Hash_Table.cpp:519-562 | following the pre links from anchor i records the trace of i's whole chain |
| ChainDp.TraceStep | hifiasm/Hash_Table.cpp:524-537 | one backtrace step appends a new shift or, on the forward strand, moves the run's entry to this anchor |
| ChainDp.WalkBack | hifiasm/Hash_Table.cpp:519-562 | the backtrace loop records the trace of the chain and ends at the chain's start anchor |
| ChainDp.Backtrace | hifiasm/Hash_Table.cpp:503-562 | the region spans from the chain start to the chain end, carries the best score and span, and its trace is the walked trace of the chain |
| ChainDp.WalkTraceShape | hifiasm/Hash_Table.cpp:519-562 | a walked trace has neighbouring entries with different shifts and strictly decreasing positions; its first entry has shift 0 on both strands, and on the reverse strand it is the chain end itself; its last position is at or after the last anchor walked, exactly at it on the forward strand |
| ChainDp.ChainScores | hifiasm/Hash_Table.cpp:391-469 | the scratch space is large enough; the fast path's linear chain when it accepts, otherwise the dynamic program's table; a consistent chain state either way |
| ChainDp.ChainDP | hifiasm/Hash_Table.cpp:377-563 | chain_DP: a consistent chain state, the best end, and a region from the chain start to the best end with its score, span and walked trace |
| ChainDp.ChainTraceShape | hifiasm/Hash_Table.cpp:519-562 | the trace of any chain of a consistent state is well shaped, starts with shift 0 (at the chain end on the reverse strand) and reaches back to the chain start, exactly to it on the forward strand |
| ByChaining.BucketEnd | hifiasm/Hash_Table.cpp:598-606 | the end of a bucket: every candidate before it has the bucket's target and strand, and the candidate at it (if any) does not |
| ByChaining.NextRun | hifiasm/Hash_Table.cpp:584-609 | the inner loop stops exactly at the end of the bucket |
| ByChaining.BucketEndBoundary | hifiasm/Hash_Table.cpp:598-606 | the end of a bucket is the start of the next one: its left neighbour is in another bucket |
| ByChaining.ChainedBucketsMaximal | hifiasm/Hash_Table.cpp:584-611 | every chained bucket is a maximal run of one target and strand whose target is not the query, and the buckets come in candidate order without overlap |
| ByChaining.ChainedBucketsCover | hifiasm/Hash_Table.cpp:584-611 | every candidate on a read other than the query lies in one of the chained buckets |
| ByChaining.BucketSorted | hifiasm/Hash_Table.cpp:584-609 | a bucket of candidates is sorted by target offset |
| ByChaining.WalkTraceBounds | hifiasm/Hash_Table.cpp:519-562 | every trace entry lies on the query read and its shift is bounded |
| ByChaining.ChainBucket | hifiasm/Hash_Table.cpp:586-618 | chaining one bucket leaves chain arrays that are consistent and filled for the bucket (fast path or DP), a best chain end m, and a region between the query and the bucket's target on the bucket's strand (target strand 0) that runs from the start of m's chain to m, with m's score as shared_seed, m's extended span as overlapLen and the trace of m's chain, inside both reads |
| ByChaining.CalculateOverlapRegionByChaining | hifiasm/Hash_Table.cpp:565-628 | there is one pass per chained bucket, in candidate order (the maximal runs whose target is not the query); each pass chains its bucket as ChainBucket states, with the buffer the previous pass left, and files the region into the list the previous pass left, as the append states; the last pass leaves the list as it is afterwards (no bucket: the list is unchanged); every entry in use afterwards was in use before in the same slot or was filed from the candidates; neighbouring entries stay distinct |
| ByChaining.Pass | hifiasm/Hash_Table.cpp:586-624 | one turn of the outer loop moves to the end of the bucket, skips a bucket of the query itself, and otherwise adds one pass over that bucket |
| ByChaining.FileBucket | hifiasm/Hash_Table.cpp:611-624 | chaining and filing one bucket of another read adds one pass and leaves the list and the buffer it records |
| ByChaining.FiledStep | hifiasm/Hash_Table.cpp:616-624 | filing one region is the append relation, and keeps every entry either old or filed from the candidates |
| OverlapList.DedupSlot | hifiasm/Hash_Table.cpp:95-109 | the region is dropped exactly when the last entry has its target and is at least as good, replaces the last entry exactly when it is better, and goes after it exactly when the target differs |
| OverlapList.DedupKeepsDistinct | hifiasm/Hash_Table.cpp:95-109 | storing where the duplicate rule says keeps neighbouring targets distinct |
| OverlapList.ExtendTmp | hifiasm/Hash_Table.cpp:111-135 | the extended region touches a read start and a read end, keeps both diagonals, and stays on the reads |
| OverlapList.StoredCoords | hifiasm/Hash_Table.cpp:137-241 | the stored slot is on the query's forward strand: on the reverse strand both intervals are reflected, so that reflecting them again gives the region's own; on the forward strand all four coordinates and both strands are copied; spans, bounds and the end-touching property are kept; overlapLen keeps the slot's old value |
| OverlapList.BwdTraceNext | hifiasm/Hash_Table.cpp:211-221 | the forward-strand copy takes one entry per run of equal shift, with the shift measured from the initial gap |
| OverlapList.FwdExact | hifiasm/Hash_Table.cpp:161-171 | on a trace without repeated neighbouring shifts, the reverse-strand copy reflects each position and keeps each shift |
| OverlapList.BwdExact | hifiasm/Hash_Table.cpp:211-221 | on a trace without repeated neighbouring shifts, the forward-strand copy reverses the entries and re-measures each shift |
| OverlapList.CopyAscending | hifiasm/Hash_Table.cpp:161-221 | both copies of a walked trace have ascending positions and keep every entry |
| OverlapList.CopyReflected | hifiasm/Hash_Table.cpp:161-171 | the reverse-strand loop appends the reflected copy of the trace |
| OverlapList.CopyShifted | hifiasm/Hash_Table.cpp:202-221 | the forward-strand loop appends the shifted copy of the trace |
| OverlapList.SlotTrace | hifiasm/Hash_Table.cpp:150-230 | with add_beg_end the stored trace starts with (start, 0) and ends at the region end; otherwise it is just the strand's copy |
| OverlapList.SlotCigar | hifiasm/Hash_Table.cpp:149-230 | the slot's trace is the stored trace of the region for its strand |
| OverlapList.FillSlot | hifiasm/Hash_Table.cpp:137-241 | the slot gets the stored coordinates, ids, score, zeroed counters and the stored trace |
| OverlapAlloc.ClearSlot | hifiasm/Hash_Table.cpp:31-42 | clearing a slot empties its windows, trace and boundary cigars and keeps their buffers |
| OverlapAlloc.Grown | hifiasm/Hash_Table.cpp:87-93 | a full list doubles, keeps its entries and zeroes the new slots |
| OverlapAlloc.AppendSlots | hifiasm/Hash_Table.cpp:83-242 | the append returns 0 and changes nothing but the growth when the region is a worse duplicate; otherwise it returns 1 and stores the extended region at the slot the duplicate rule gives, as the last entry |
| OverlapAlloc.OverlapRegionAlloc.constructor | hifiasm/Hash_Table.cpp:17-29 | a new list has 1000 zeroed slots, none in use, and mapped_overlaps_length keeps the value it held |
| OverlapAlloc.OverlapRegionAlloc.Clear | hifiasm/Hash_Table.cpp:31-42 | clearing empties the list and clears every slot |
| OverlapAlloc.OverlapRegionAlloc.Append | hifiasm/Hash_Table.cpp:83-242 | append_inexact_overlap_region_alloc on the list object, with the same result as AppendSlots |
| Graph.Flip | gfatools/paf2gfa/asm.c:199-210 | the other end of a vertex is the same segment with the other orientation |
| Graph.FlipFlip | gfatools/paf2gfa/asm.c:199-210 | flipping twice gives the vertex back |
| Graph.GrownCapacity | gfatools/paf2gfa/asm.c:10-17 | the arc capacity grows from 0 to 16, otherwise it doubles |
| Graph.Gfa.PushArc | gfatools/paf2gfa/asm.c:10-17 | one arc is appended, and a full store grows its capacity |
| StringGraph.SegOf | gfatools/paf2gfa/asm.c:24-30 | a segment has the trimmed length and deletion mark when there is a trimming, otherwise the read's |
| StringGraph.HitArcsFrom | gfatools/paf2gfa/asm.c:31-48 | every pushed arc comes from an accepted hit that is not a self match |
| StringGraph.HitArcsNext | gfatools/paf2gfa/asm.c:31-48 | a hit adds its arc exactly when it is accepted and is not a self match |
| StringGraph.VisitHit | gfatools/paf2gfa/asm.c:31-48 | one hit pushes its arc, deletes its query read, or does nothing, by its verdict |
| StringGraph.HitLoop | gfatools/paf2gfa/asm.c:31-48 | after the hit loop the arcs are the accepted hits' arcs in order and the segment table holds the deletions |
| StringGraph.SegTableStep | gfatools/paf2gfa/asm.c:40-47 | a read is deleted exactly when its own mark says so, or some hit is a same-interval reverse self match or a query containment |
| StringGraph.MaSgGen | gfatools/paf2gfa/asm.c:19-55 | segments and deletions as above; one arc per accepting hit, each stamped with the arc count as its link id |
| Unitigs.ForwardWalk | gfatools/paf2gfa/asm.c:150-163 | the forward walk follows unique steps, marking each vertex it steps to and the other end of each vertex it steps from, and stops at a branch or back at the start |
| Unitigs.BackwardWalk | gfatools/paf2gfa/asm.c:173-183 | the backward walk prepends unique predecessors with their arc lengths until no unique step leads in |
| Unitigs.NoCycle | gfatools/paf2gfa/asm.c:152-183 | a walk that stops at a branch shows that no forward cycle passes through the seed |
| Unitigs.DistinctJoin | gfatools/paf2gfa/asm.c:164-183 | the backward part and the forward part of a linear unitig share no vertex |
| Unitigs.LinearShape | gfatools/paf2gfa/asm.c:164-193 | a linear unitig is a repeat-free walk that cannot be extended in either direction; its members carry arc lengths and the last one its segment's length |
| Unitigs.BuildUnitig | gfatools/paf2gfa/asm.c:145-193 | the unitig grown from a seed is circular exactly when a forward cycle passes through the seed; every vertex on it is marked with its other end |
| Unitigs.SeedStep | gfatools/paf2gfa/asm.c:145-149 | growing a unitig from an unmarked seed keeps the seed-loop invariant, including that every earlier candidate was a seed or lay on an earlier seed's walk |
| Unitigs.BuildUnitigs | gfatools/paf2gfa/asm.c:136-196 | one unitig per unmarked seed, in increasing seed order; no seed lies on an earlier unitig; every live vertex with arcs is either a seed or lies on the walk of a unitig seeded before it, so the seeds are exactly the vertices still unmarked when the loop reaches them |
| UnitigGraph.RegisteredSound | gfatools/paf2gfa/asm.c:197-202 | a registered vertex is an end of a linear unitig |
| UnitigGraph.RegisteredComplete | gfatools/paf2gfa/asm.c:197-202 | both ends of every linear unitig are registered |
| UnitigGraph.RegisterEnds | gfatools/paf2gfa/asm.c:197-202 | the registration loop computes the registration table |
| UnitigGraph.InducedArc | gfatools/paf2gfa/asm.c:203-217 | an induced arc joins the unitigs of its ends; its length is the unitig length minus the overlap, or 1 when that is negative |
| UnitigGraph.InducedSound | gfatools/paf2gfa/asm.c:203-217 | every induced arc comes from an original arc between registered ends |
| UnitigGraph.InducedComplete | gfatools/paf2gfa/asm.c:203-217 | every original arc between registered ends induces an arc |
| UnitigGraph.InduceArcs | gfatools/paf2gfa/asm.c:203-217 | the arc loop pushes the induced arcs in order |
| UnitigGraph.InducedJoins | gfatools/paf2gfa/asm.c:203-217 | an induced arc joins two linear unitigs through an original arc between their ends |
| UnitigGraph.InducedFromEnds | gfatools/paf2gfa/asm.c:203-217 | a live original arc between ends of two linear unitigs is induced |
| UnitigGraph.SetSegments | gfatools/paf2gfa/asm.c:218-225 | every unitig becomes one segment of its length |
| UnitigGraph.MaUgGen | gfatools/paf2gfa/asm.c:133-229 | ma_ug_gen: the seeded unitigs, one from each live vertex with arcs that no earlier unitig's walk covers, their segments, and exactly the induced arcs |
| UnitigSeq.ComplementBases | gfatools/paf2gfa/asm.c:243-252 | comp_tab swaps A/T and C/G in both cases and keeps N |
| UnitigSeq.ComplementInvolution | gfatools/paf2gfa/asm.c:243-252 | comp_tab undoes itself on every 7-bit character but U, u and the backquote |
| UnitigSeq.ComplementNotInvolution | gfatools/paf2gfa/asm.c:243-252 | U and the backquote are not given back by complementing twice |
| UnitigSeq.MemberIntv | gfatools/paf2gfa/asm.c:266-279 | a member's interval starts after the lengths of the members before it |
| UnitigSeq.LayoutStep | gfatools/paf2gfa/asm.c:266-279 | a read claimed again had an empty interval, as the layout asserts |
| UnitigSeq.LayoutIntervals | gfatools/paf2gfa/asm.c:266-279 | every unitig gets a blank buffer; every member with a non-zero length holds its read's interval, and every non-empty interval belongs to a member |
| UnitigSeq.Blank | gfatools/paf2gfa/asm.c:268-272 | a fresh buffer is len 'N's and a terminating NUL |
| UnitigSeq.Trimmed | gfatools/paf2gfa/asm.c:289-293 | a record is cut to its read's sub-interval when there is one |
| UnitigSeq.PieceReverse | gfatools/paf2gfa/asm.c:298-302 | on the reverse strand a read is reverse-complemented |
| UnitigSeq.WriteAt | gfatools/paf2gfa/asm.c:294-302 | the piece overwrites its interval and nothing else |
| UnitigSeq.CopyPiece | gfatools/paf2gfa/asm.c:294-302 | the copy loops write the forward bases or the complemented reversed bases ('N' above 127) at the interval |
| UnitigSeq.CopyOne | gfatools/paf2gfa/asm.c:283-303 | a record whose name is unknown or whose read claims nothing is skipped, otherwise its piece is written |
| UnitigSeq.CopyAll | gfatools/paf2gfa/asm.c:281-303 | the record loop applies every record in file order |
| UnitigSeq.LayoutDisjoint | gfatools/paf2gfa/asm.c:266-279 | different reads of one unitig claim intervals that do not overlap |
| UnitigSeq.LayoutFits | gfatools/paf2gfa/asm.c:266-279 | every interval fits in its unitig's buffer |
| UnitigSeq.CopyLast | gfatools/paf2gfa/asm.c:281-303 | a read's interval holds the piece of the last record naming it |
| UnitigSeq.CopyOutside | gfatools/paf2gfa/asm.c:281-303 | a position no copied record covers keeps its byte |
| UnitigSeq.MaUgSeq | gfatools/paf2gfa/asm.c:255-309 | -1 and no change when the reads file cannot be opened; otherwise 0, with blank buffers filled by every copied record |
| UnitigSeq.MemberSequence | gfatools/paf2gfa/asm.c:255-309 | a member's stretch holds its read's first bases, or its last bases reverse-complemented, from the last record naming it |
| UnitigSeq.MemberUnread | gfatools/paf2gfa/asm.c:255-309 | a member whose read no record names keeps its 'N's |
| UnitigSeq.SequenceEnd | gfatools/paf2gfa/asm.c:255-309 | no copy reaches the terminating NUL |

## Left out

- **Floating point:**
  - The band test `indels > bw * length` uses a rational threshold num/den.
  - The gap-rate penalty `(long long)(gap_rate * score * bw_penalty)` is a function parameter (`Penalty`).
  - `max_hang`, `int_frac` and `min_ovlp` of `ma_hit2arc` are fixed inside the abstract hit classifier.
- **Integer widths:**
  - Coordinates and read lengths are bounded by `MAX_COORD` (2^28), so every int32/uint32 conversion of the chaining code is exact.
  - Wrap-around is not modelled for `ma_ug_gen`'s unsigned lengths, for `v << 1` or for `l = len - ov`. These are mathematical integers.
  - `UINT32_MAX` is kept as the circular-unitig marker.
- **Calls the model does not see:**
  - `ma_hit2arc` is the parameter `HitToArc`, and `MA_HT_QCONT` is the parameter `qcont`.
  - `gfa_cleanup` and `gfa_arc_del_multi_risky` at the end of `ma_sg_gen` are not part of this model, nor is the final `gfa_cleanup` of `ma_ug_gen`.
  - The arc index (`arc_cnt`, `arc_first`) that cleanup builds is the `idx` table of `View`, assumed symmetric: each arc's complement is listed.
- **Memory:**
  - `realloc`ed memory and `calloc`ed slots are zeros.
  - `kdq` is a sequence.
  - `kv_roundup32`'s capacity policy is not modelled; the sequences grow as needed.
  - The destroy functions free memory and are left out.
  - The debug helpers (`debug_chain`, printing) are left out. `ChainTotals` states the property `debug_chain` checks.
- **ma_ug_seq input:**
  - The gz/kseq reading of the reads file is a sequence of records.
  - Whether the file opens is the parameter `fileOk`.
  - `sd_get` is a map lookup of the read name.
- **Unused inputs:** the read length argument of `calculate_overlap_region_by_chaining` is not used by the code and is left out. Read lengths (`Get_READ_LENGTH`) are a sequence indexed by read id.
- **Fast path and dynamic program differ:**
  - The fast path links an anchor to the previous one even when their target offsets are equal. The dynamic program requires a non-zero target distance. `ChainConsistent` therefore allows equal target offsets along a chain.
  - A step's score is halved by the current anchor's confidence in the fast path, and by the predecessor's in the dynamic program. Both are modelled as written.
- ChainDp.ScanPredecessors: the best predecessor is optimal only over the predecessors actually scanned, because the max_skip cut-off and the skip marker prune the rest, as in the code. For an early stop it counts the usable predecessors other than the chosen one. It does not say which of them failed to improve on the running best when they were scanned.
- OverlapList.StoredCoords: the append never writes `overlapLen` into the slot, so the stored region keeps the slot's previous value. Later duplicate checks compare against that stale value, as the code does.
- Unitigs.BackwardWalk: requires that no forward cycle passes through the seed. `ma_ug_gen` calls it only in that case.
- UnitigSeq.MaUgSeq: its preconditions assume what the C code only asserts or takes for granted:
  - a read is claimed twice only with length 0;
  - every record that is copied covers its interval after trimming;
  - read ids from the dictionary are in range.
