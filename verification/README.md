# ENNX verification

Dafny models of the parts of ENNX whose correctness is not visible from one function body, with
proofs of what they promise. Each module keeps the form of the code it models: device buffers are
arrays that methods update in place, kernels are methods run lane by lane or block by block, and
references and closed forms are functions that those methods are proved against.

* **Generation.** `Decoding` is the draft that one block of the verifier repairs, `Generation` the
  packed accepted-prefix loop, `Streaming` the same loop over cached recurrent states. Both loops
  end with exactly the tokens of one-token-at-a-time decoding, or report the position decoding
  cannot continue from.
* **Nearest neighbours.** `Network` proves the bitonic network on truth values, `Pairs` lifts it to
  (distance, index) pairs, `TopK` says what a merged top-k list stands for, `Scan` runs the tiles and
  the ping-pong merge rounds, and `Index` is the growable buffer with its temporary rows.
* **Context cache.** `ContextTree` is the pyramid of key/value summaries and its incremental rebuild.
* **Relative search.** `RelativeSpec` is a session over values, `RelativeEngine` the engine's slots,
  shifted lists, radius controller and guards that represent it.
* **Checkpoint chunks.** `Boxes` counts the cells of n-dimensional boxes, `Checkpoint` validates a
  tiling by volume and fills a tensor from it.
* **Proposal moments.** `Reals`, `Quadrature` and `Moments`: the three-point product rule and the
  identities of the correlated proposal, in every dimension.
* **Wheel archive.** `Words` and `Crc` are the checksum, `Remainder` its definition by polynomial long
  division, `Records` the ZIP records, `Layout` where they have their fields, `Archive` the writer and an
  independent reader.
* **Trial rows and seeds.** `Trial` packs perturbed codes tile by tile, `Centers` validates and replays
  chains of perturbations, and `Hash` shows that the seed hashes are permutations.
* **Optimisation driver.** `Paired` is the screening rule, `Driver` the loop that reuses incumbent
  measurements.
* **Token pools and episodes.** `Pools` writes and reads document pools, `Episodes` picks one window a
  document and selects fairly over buckets, `EpisodeBuild` assembles a split from its pools.
* **Score intervals.** `Rounding` is BF16 rounding on bits, `Bounds` the interval a score must lie in.
* **Study configuration.** `Lowering` flattens sections, `LoweringProof` finds its fixed points and
  `Relowering` says when a second pass changes nothing. `LoweringMoves`, `SectionFields` and
  `LoweringFields` follow every field to its top-level name, `Refusals` says which documents are refused,
  and `Names` what a normalised name is.

Reals stand for distances, losses, scores and radii. Square roots are functions with nonnegative
values of the right square. Random draws, timing and everything a kernel reads from tensors it does
not update are parameters.

`dafny verify dfyconfig.toml` checks the project.

## Model

| member | source | states |
|---|---|---|
| Decoding.VerifyPrefix | cuda/kernels/src/fbt.rs:918-980 | The block's lanes, halving reduction and redraw leave the draft repaired at the first position where it differs from the prediction, move the frontier one past it, and mark it past the end when the predicted token is no token; the frontier never moves back |
| Decoding.ReduceLanes | cuda/kernels/src/fbt.rs:938-962 | The shared-memory halving leaves the least of all lanes' mismatches in lane 0 |
| Decoding.RepairAccepts | cuda/kernels/src/fbt.rs:914-980 | If the draft agrees with decoding up to its frontier and the predictor is causal, one wave and repair keep that agreement and extend it by at least one token, or show that decoding stops |
| Decoding.RepairVerifies | cuda/kernels/src/fbt.rs:914-980 | A pass, told from the draft and the network alone: the first position from the frontier on that does not follow from its prefix is corrected and counted, everything behind it is sampled anew, and without one all rows are accepted |
| Decoding.FrontierExact | cuda/kernels/src/fbt.rs:971-977 | All tokens between the old frontier and the last one counted follow from their prefix, and the last one counted did not |
| Decoding.FrontierStops | cuda/kernels/src/fbt.rs:971-977 | The frontier moves past the end exactly when the first position that does not follow has no valid token to be corrected to |
| Decoding.SequentialIsChain | cuda/src/model.rs:505-583 | One-token-at-a-time decoding succeeds exactly when there is a sequence that starts with the prompt and whose every token is the valid prediction from its prefix, and it returns that sequence |
| Generation.FbtModel.Generate | cuda/src/model.rs:508-583 | Bad requests are refused exactly as listed; otherwise the tokens are those of sequential decoding (failing exactly when it has none), the reported frontiers are those of exact single passes read after every `unroll`, rise strictly from the prompt to the end, rounds number at most ceil((rows - prompt) / unroll), and passes are rounds times unroll |
| Generation.PassesAccept | cuda/src/model.rs:545-566 | Any number of waves keeps the accepted prefix and moves the frontier at least one token a wave, or ends past the rows when decoding cannot continue |
| Generation.FrontiersAdvance | cuda/src/model.rs:545-578 | Over a whole run each recorded frontier gains at least `unroll` tokens until the end |
| Generation.AdvancesCount | cuda/src/model.rs:545-578 | Frontiers that gain at least `unroll` a round reach the end within ceil((rows - prompt) / unroll) rounds |
| Generation.UnrollIndependent | cuda/src/model.rs:505-583 | Runs with different unroll values give the same tokens, or both fail |
| Streaming.StreamedModel.Generate | cuda/src/model/cached.rs:19-187 | Generation in chunks over cached states, rerunning only from the chunk of the last accepted token, meets the same promise as the packed generator for the recurrence it caches |
| Streaming.CachedPrefix | cuda/src/model/cached.rs:100-150 | States and predictions cached for an accepted prefix stay those of a full pass after the draft behind it is rewritten |
| Streaming.CachedRepairs | cuda/src/model/cached.rs:100-150 | Repairing from cached predictions is repairing from a full pass |
| Division.PowersOfTwo | cuda/src/model/cached.rs:330-332 | Being a power of two is being an iterated double of one |
| Streaming.PowersDivide | cuda/src/model/cached.rs:322-333 | A repair chunk that is a power of two no larger than the chunk divides it, so chunk starts stay aligned |
| Network.ClearIsBit | cuda/kernels/src/knn.rs:155-182 | The lane's test of one index bit is the parity of its block |
| Network.HalfClean | cuda/kernels/src/knn.rs:155-182 | One exchange of a bitonic block leaves two bitonic halves, one of them constant and on the right side |
| Network.MidwayStep | cuda/kernels/src/knn.rs:155-182 | One (size, stride) step keeps blocks bitonic and ordered among themselves at half the width |
| Network.StageEnds | cuda/kernels/src/knn.rs:155-182 | A finished stage gives bitonic blocks of twice the size |
| Network.NetworkEnds | cuda/kernels/src/knn.rs:155-182 | After the last stage the whole sequence is in order |
| Pairs.BeforeIsStrictOrder | cuda/kernels/src/knn.rs:118-126 | Comparing distance, then index is a strict total order, with overflowed distances last |
| Pairs.ThresholdCommutes | cuda/kernels/src/knn.rs:128-153 | A compare-exchange of pairs commutes with every threshold, which is why a network that sorts truth values sorts pairs |
| Pairs.SortPairs | cuda/kernels/src/knn.rs:155-182 | The kernel's loops sort any power-of-two width in place by (distance, index), keep every pair, and touch nothing behind the width |
| TopK.StableIsSorted | ops/bf16_parity.py:343-361 | A stable sort of the rows by distance is their sort by (distance, index) |
| TopK.NearestExact | ops/bf16_parity.py:343-361 | The k nearest are k rows at their own distances, in order of distance (overflowed last) and index, and every other row comes after them |
| TopK.Pigeonhole | cuda/kernels/src/lib.rs:869-933 | Any k entries taken from a sorted sequence reach at least as far as its first k |
| TopK.MergeTop | cuda/kernels/src/lib.rs:869-933 | The first k of two merged top-k lists, sentinels included, are the top k of all rows the two lists stand for |
| TopK.TopIsPrefix | cuda/src/knn.rs:818-842 | A top-k list of at least k rows is the first k of their stable sort |
| Scan.ScanTile | cuda/kernels/src/lib.rs:769-867 | A tile's block leaves the top k of the tile's rows, for either kernel's width |
| Scan.MergeLists | cuda/kernels/src/lib.rs:869-933 | A merge block leaves the top k of its two lists, or of one when the right list is missing |
| Scan.LaunchMerge | cuda/src/knn.rs:1251-1306 | For any number of lists the ping-pong rounds end with one list per query that stands for all of them, and the returned flag names the buffer that holds it |
| Scan.StageSearch | cuda/src/knn.rs:763-816 | For any rows, tile size and k the tiled scan and the merge rounds give every query the first k of the stable sort of all rows |
| Index.CudaIndex.constructor | cuda/src/knn.rs:409-433 | A new index holds exactly the initial rows |
| Index.CudaIndex.Rebuild | cuda/src/knn.rs:453-464 | Replaces the contents, or refuses misshapen rows and leaves them unchanged |
| Index.CudaIndex.Add | cuda/src/knn.rs:466-505 | Appends the rows, growing the buffer when needed, or refuses and leaves the contents unchanged |
| Index.CudaIndex.Search | cuda/src/knn.rs:507-517 | Answers with the stable sort's first k of the live rows, whatever lies behind them in the buffer: each pair of each query names a live row and the distance between that row and that query; fails exactly on the checked conditions |
| Index.SearchAnswers | cuda/kernels/src/lib.rs:793-797 | Every query of a batch has its own k nearest rows, by the metric of row and query slices |
| Index.BatchIsSingles | cuda/kernels/src/lib.rs:793-797 | A batch answers each query as that query alone is answered |
| Index.CudaIndex.Weighted | cuda/src/knn.rs:558-605 | The posterior is computed from the nearest neighbours of the live rows |
| Index.CudaIndex.Draws | cuda/src/knn.rs:662-717 | The draws are computed from the nearest neighbours of the live rows and the given seeds |
| Index.CudaIndex.Conditional | cuda/src/knn.rs:719-735 | Answers as if the extra rows were appended, yet the contents are unchanged on success and on failure |
| Index.CudaIndex.ConditionalDraws | cuda/src/knn.rs:737-761 | Draws as if the extra rows were appended, with the contents unchanged on success and on failure |
| Index.Forgotten | cuda/src/knn.rs:719-761 | Resetting the row count forgets exactly the appended rows: the front of the buffer still holds the old ones |
| ContextTree.ContextCache.constructor | cuda/src/context.rs:25-48 | A new cache of zeros is already its own rebuild |
| ContextTree.ContextCache.CacheLeaves | cuda/kernels/src/fbt.rs:1653-1697 | Leaves of the dirty range summarise their block of rows, and no other node changes |
| ContextTree.ContextCache.CacheParents | cuda/kernels/src/fbt.rs:1727-1790 | Parents of the dirty range join their two children, and no other node changes |
| ContextTree.ContextCache.Rebuild | cuda/src/context.rs:50-91 | Recomputing only the halved dirty range of each level turns the tree of the old rows into the full bottom-up rebuild of the new ones, and writes exactly the counted nodes |
| ContextTree.ContextCache.Write | cuda/src/context.rs:93-120 | A write that extends or repairs the written prefix replaces exactly its rows, keeps the tree a full rebuild and recomputes at most about twice the touched blocks and two nodes a level; any other write is refused without effect |
| ContextTree.CleanNode | cuda/src/context.rs:50-91 | A node outside the dirty range of its level summarises only unchanged rows |
| ContextTree.WorkBound | cuda/src/context.rs:50-91 | The nodes that a rebuild writes number at most about twice the touched blocks and two a level |
| ContextTree.LevelFits | rust/crates/ennx/src/context.rs:50-64 | Levels halve to a single root and fit the flat tree exactly |
| RelativeSpec.HistoryIsStreak | ops/minibatch_parity.py:82-134 | After any run the history is the rejections since the last acceptance, in order, and the incumbent and the reference direction are those left then |
| RelativeSpec.OffsetsOnlyMoveBest | ops/minibatch_parity.py:137-172 | Runs that differ only in absolute rewards and their variances differ in nothing but the reported best: incumbent, history, radius and reference direction are equal |
| RelativeSpec.RadiusStaysInBounds | cuda/kernels/src/bf16.rs:193-221 | Every run keeps the radius in its bounds, and the failure count below the tolerance, if and only if conversion to single precision does not move the bounds outwards |
| RelativeSpec.ThreeTenthsEscape | cuda/kernels/src/bf16.rs:193-199 | An upper bound of 0.3 is moved outwards |
| RelativeSpec.PromotionRadius | cuda/kernels/src/bf16.rs:193-210 | After any run that ends in a promotion the radius is the converted half of the one before for an even candidate and the converted double for an odd one, or the converted bound before that |
| RelativeSpec.PromotionRadiusExact | cuda/kernels/src/bf16.rs:193-221 | With exact conversion an even promotion leaves half the radius or the lower bound, which is what `tolerance` counted rejections leave, and an odd one twice the radius or the upper bound |
| RelativeSpec.RejectionsContract | ops/minibatch_parity.py:175-207 | n counted rejections in a row halve the radius floor(n / tolerance) times, down to the floor, and leave n mod tolerance failures |
| RelativeSpec.UncountedRejections | ops/minibatch_parity.py:175-207 | Rejections that do not count leave radius and failures alone |
| RelativeEngine.RotatedHolds | cuda/kernels/src/lib.rs:494-543 | Shifting the lists behind the pinned anchor drops the oldest rejection and reuses its slot, so the slots still hold the last capacity - 1 rejections |
| RelativeEngine.HoldsReadsBack | cuda/kernels/src/lib.rs:494-543 | Reading the slots gives the anchor followed by the visible rejections, oldest first |
| RelativeEngine.Engine.EnableRelative | cuda/src/bf16_search.rs:328-343 | Relative mode is entered exactly from an unstarted correlated search without a pending row, with a positive tolerance and capacity for a rejection |
| RelativeEngine.Engine.InitSearch | cuda/src/bf16_search.rs:440-495 | Initialisation gives a session of the incumbent alone with the given radius |
| RelativeEngine.Engine.Ask | cuda/src/bf16_search.rs:982-1054 | An ask is allowed exactly when layout, shape, acquisition settings and reference direction are valid and nothing is pending; it writes only the pending row, which aliases neither the incumbent, the anchor nor a history slot, while a refused one changes no row |
| RelativeEngine.Engine.RotateHistory | cuda/kernels/src/lib.rs:494-543 | The kernel's loop shifts slots, outcomes and variances behind the anchor by one when full, appends otherwise, and names the destination slot |
| RelativeEngine.Engine.PairedRadius | cuda/kernels/src/bf16.rs:193-221 | The in-place controller halves or doubles the radius on acceptance by the candidate's parity, up to the bounds and the conversion, halves it down to the floor at the tolerance, and counts failures otherwise |
| RelativeEngine.Engine.QueueRelative | cuda/src/bf16_search.rs:699-747 | An accepted tell promotes the pending row to incumbent and anchor, clears the history and refreshes the reference direction; a rejected one enters the history; an invalid one is refused, and the state is the session's after that round |
| RelativeEngine.Engine.EnsureReference | cuda/src/bf16_search.rs:345-374 | The first reference direction is drawn late without changing which direction it is, and refused exactly when it cannot be normalised |
| RelativeEngine.PlayRounds | ops/minibatch_parity.py:82-207 | Any run of asks and tells whose own rows and directions can be used leaves the engine representing the session's run over values; after a promotion its radius is half or twice the one before, up to the bounds |
| Boxes.CellsCount | ops/flame/checkpoint.py:149 | In any number of dimensions a box has as many cells as the product of its sizes |
| Boxes.OverlapsMeet | ops/flame/checkpoint.py:142-146 | The coordinate-wise interval test finds an overlap exactly when two boxes share a cell |
| Boxes.RowMajorInjective | ops/flame/checkpoint.py:167-168 | Reshaping sends different cells to different payload elements |
| Boxes.RowMajorKeepsOrder | ops/flame/checkpoint.py:167-168 | Reshaping keeps lexicographic order |
| Boxes.PositionCounts | ops/flame/checkpoint.py:167-168 | An index reads the payload element whose position is the number of indices of the chunk before it |
| Checkpoint.VolumeDecides | ops/flame/checkpoint.py:149-151 | Separate boxes inside the tensor cover it exactly when their volumes add up to its own |
| Checkpoint.ValidateChunks | ops/flame/checkpoint.py:132-150 | Accepts exactly the chunk lists that hold every index of the tensor once; separate chunks are refused only for leaving an index out |
| Checkpoint.ReadTensor | ops/flame/checkpoint.py:153-169 | Succeeds exactly for an exact cover whose payloads are all usable, and then every element of the uninitialised tensor was written once; the indices of each chunk in lexicographic order read its payload in order |
| Quadrature.RuleMoments | scripts/check_pertmath.py:17-33 | In every dimension the product rule gives any sum of one quadratic per coordinate its Gaussian mean and variance |
| Quadrature.DegreeFive | scripts/check_pertmath.py:17-23 | The product rule is exact for every monomial of degree at most five in each coordinate |
| Quadrature.Halves | scripts/check_pertmath.py:162-173 | Independent halves of the noise integrate one after the other |
| Moments.DistanceMoments | scripts/check_pertmath.py:101-139 | The weighted distance to any history row has mean sum w (m^2 + sigma^2) and variance sum w^2 (2 sigma^4 + 4 sigma^2 m^2) |
| Moments.DistanceVaries | scripts/check_pertmath.py:140-141 | That variance vanishes exactly when no weighted coordinate moves with the noise |
| Moments.RadiusMoments | scripts/check_pertmath.py:61-98 | For a reference of mean square one the squared step has mean k^2 and variance k^4 * 2 (1 - rho^4) / n |
| Moments.OverlapMean | scripts/check_pertmath.py:80-88 | The mean overlap of a proposal with its reference is rho |
| Moments.SharedDirection | scripts/check_pertmath.py:149-158 | Steps that share their noise are n (small - large)^2 apart in expectation |
| Moments.IndependentDirections | scripts/check_pertmath.py:160-173 | Steps with independent noise are n (small^2 + large^2 - 2 small large rhoA rhoB) apart in expectation, so without overlap on one side the squared radii add up |
| Crc.Crc32 | buck2/wheel/pack.rs:76-85 | The byte and bit loops end with the checksum of the whole input |
| Remainder.ChecksumIsRemainder | buck2/wheel/pack.rs:76-85 | The checksum is the complemented remainder of the message, with complemented first and 32 appended zero coefficients, by the generator of RFC 1952, section 8 |
| Remainder.PolyIsGenerator | buck2/wheel/pack.rs:81 | The register's constant has exactly the generator's exponents |
| Crc.ShiftIsLinear | buck2/wheel/pack.rs:80-82 | Register steps are linear over exclusive or |
| Crc.ShiftIsInjective | buck2/wheel/pack.rs:80-82 | No two register states meet |
| Crc.WindowChangesChecksum | buck2/wheel/pack.rs:76-85 | Inputs of one length that differ only inside a window of at most four consecutive bytes never share a checksum |
| Records.LeKeeps | buck2/wheel/pack.rs:181-187 | A narrowing little-endian field reads back its number exactly when it fits |
| Records.LocalReads | buck2/wheel/pack.rs:196-208 | A local record reads back its name, checksum and size wherever it lies |
| Records.CentralReads | buck2/wheel/pack.rs:210-227 | A directory record reads back its name, checksum, size and the offset of its local record wherever it lies |
| Records.EndReads | buck2/wheel/pack.rs:229-239 | The end record reads back its numbers as far as they fit |
| Layout.LocalLayout | buck2/wheel/pack.rs:196-208 | A local header has the fields of section 4.3.7 of the format at their offsets, its name at 30 |
| Layout.CentralLayout | buck2/wheel/pack.rs:210-227 | A directory record has the fields of section 4.3.12 at their offsets, its name at 46 |
| Layout.EndLayout | buck2/wheel/pack.rs:231-239 | The end record has the fields of section 4.3.16 at their offsets |
| Archive.Zip | buck2/wheel/pack.rs:189-241 | The writer's two growing buffers end as the local records, their directory and the end record |
| Archive.LocalsTile | buck2/wheel/pack.rs:192-208 | Local records follow one another without gap or overlap from the first byte to the directory |
| Archive.WheelRoundTrip | buck2/wheel/pack.rs:189-241 | Reading through the end record and the directory gives back exactly the written members if and only if counts, names, sizes and offsets fit their 16-bit and 32-bit fields |
| Trial.PerturbMoves | cuda/src/main.rs:1184-1202 | A perturbed code stays in range and moves by at most the amount; it stays where it is exactly when the amount is zero, or exceeds the whole range at the code's edge |
| Trial.PerturbSteps | cuda/src/main.rs:1184-1202 | An even draw steps down and an odd one up, by the whole amount and one more below the threshold, to the other side without room, and to the edge without room there |
| Trial.LaunchedStepMoves | cuda/src/main.rs:57-74 | Steps set up for a launch never exceed the range, so a nonzero amount always changes the code |
| Trial.LaunchedStepIsAmplitude | cuda/src/main.rs:57-74 | Whole and fractional step are the amplitude, cut to the range, up to one part in 2^32 - 1 |
| Trial.TrialLeaves | cuda/src/lib.rs:1654-1704 | Accepts exactly the leaves that are well shaped, contiguous in bytes and elements, and fill the row |
| Trial.TrialLayout | cuda/src/lib.rs:1706-1743 | Accepts exactly such leaves with tiles that cover each leaf in order without gap, overlap or split nibble pair |
| Trial.ExactlyOneWriter | cuda/src/lib.rs:1706-1743 | In an accepted layout every byte of the row has exactly one writing tile |
| Trial.WriteTrial | cuda/kernels/src/lib.rs:2278-2349 | The tiles' blocks in any order leave the element-by-element packed row |
| Trial.ExpectedRow | cuda/src/main.rs:1159-1182 | The reference's element loop, which ors one code at a time into a cleared row, arrives at the same row |
| Trial.PackedReadsBack | cuda/src/main.rs:1159-1182 | Each perturbed code reads back from the packed row, in range |
| Centers.ValidateCenters | cuda/src/lib.rs:1612-1652 | Accepts exactly centers whose parents come earlier and whose chains are no deeper than the kernel's, and regions that name one of them |
| Centers.ResolveCenter | cuda/kernels/src/lib.rs:288-317 | For accepted centers the kernel's two loops over its fixed chain replay every perturbation from the root, none cut off |
| Hash.FoldInverts | ops/correlated_parity.py:36-42 | Folding a word onto itself by any positive shift can be undone |
| Hash.TimesInverts | ops/correlated_parity.py:36-42 | Multiplying by a constant that has an inverse modulo the word size can be undone |
| Hash.TrialHashInverts | ops/correlated_parity.py:36-42 | For every pair of keys the hash of an index determines the index |
| Hash.TrialHashIsOnto | ops/correlated_parity.py:36-42 | For every pair of keys each 32-bit word is the hash of some index |
| Hash.SeedsDiffer | ops/correlated_parity.py:45-49 | Under one root no two streams below 2^32 share a seed, nor either half of it |
| Hash.CandidateSeedHalves | ops/correlated_parity.py:45-49 | The low half of the 64-bit seed is the hash under the root's halves in order, the high half the hash of the spread stream under them exchanged |
| Hash.Mix64Inverts | ops/correlated_parity.py:20-24 | The mix of a 64-bit word determines the word |
| Hash.Mix64IsOnto | ops/correlated_parity.py:20-24 | Every 64-bit word is the mix of some word |
| Paired.Mirror | ops/flame/minibatch.py:71-141 | Swapping candidate and incumbent swaps acceptance and deterioration |
| Paired.Sides | ops/flame/minibatch.py:71-141 | A comparison is never both, each side needs a strict order of the means, and equal measurements are neither |
| Paired.Census | ops/flame/minibatch.py:107-120 | On the whole population only the means decide, up to scores the engine cannot tell apart |
| Paired.AcceptedExactly | ops/flame/minibatch.py:107-141 | Accepted exactly if the mean loss falls, its square exceeds the squared factor times the variance of the paired differences, and the engine sees it fall; deteriorated exactly so with the sides swapped |
| Paired.VarianceFromGaps | ops/flame/minibatch.py:97-116 | The variance of a sample mean is, for n of N values, (N - n) / N of the squared gaps between all its values, over 2 n^2 (n - 1) |
| Driver.ReplacedPerRefresh | ops/flame/bo.py:320-325 | A minibatch replaced every `refresh` steps has been replaced floor(step / refresh) times |
| Driver.DrawSchedule | ops/flame/bo.py:320-325 | With a minibatch for every step the draws go up by one a step; with one kept for several, once every that many steps |
| Driver.DecisionMeasures | ops/flame/bo.py:392-407 | A proposal that moved and changed something is evaluated on the step's minibatch; any other is not, and stands at the incumbent's losses |
| Driver.ScreeningIsCautious | ops/flame/minibatch.py:71-141 | The paired comparison never prefers equal measurements, which is all the driver asks of its rule |
| Driver.Refresh | ops/flame/bo.py:318-338 | Before every ask the held losses are a fresh evaluation of the incumbent on the step's minibatch, whether they were measured now or carried over |
| Driver.StepMeasures | ops/flame/bo.py:381-451 | After a decision the new incumbent is measured: by the candidate's losses if accepted, else by its own; an unchanged proposal is never accepted |
| Driver.EmittedExactly | ops/flame/bo.py:448-503 | An emitted proposal is the decided one exactly when it was not accepted under reuse; it differs in the incumbent's losses only, which under reuse are those of the incumbent after the step |
| Driver.RunEmitted | ops/flame/bo.py:448-503 | A whole run is emitted as it was decided exactly when it carries no measurements over or accepts nothing |
| Driver.HalvingIsEmittedTwice | ops/flame/bo.py:448-503 | With a minibatch kept for two steps, an accepted proposal with half the losses is emitted with its own losses on both sides |
| Driver.Optimize | ops/flame/bo.py:261-550 | The run decides, step for step and including its failures, like one that measures the incumbent afresh at every step, and emits these decisions with the carried-over losses; its report's version, counts, minibatch and losses are those of the final incumbent |
| Pools.SpoolTokens | ops/pretrain.py:284-322 | Writes each document after a repository marker where the repository changes, followed by the end marker, and records offsets and lengths; fails exactly on a token outside the vocabulary |
| Pools.SpooledLayout | ops/pretrain.py:284-322 | Each document lies unchanged at its recorded offset with marker 1 behind it; the next begins right there, or one further with marker 2 before it exactly if it is from another repository |
| Pools.ReadIndexed | ops/pretrain_episodes.py:19-29 | The loop yields the recorded slices in order, and fails at the first record that overlaps its predecessor, leaves the pool, or is not followed by an end marker |
| Pools.ReadMarked | ops/pretrain_episodes.py:30-40 | The loop yields the nonempty runs between markers with their offsets, and fails on an unterminated last run |
| Pools.IndexedReadsBack | ops/pretrain_episodes.py:19-29 | A spooled pool read through its index gives back every document's tokens at its recorded offset, and never fails |
| Pools.ReadersAgree | ops/pretrain_episodes.py:13-40 | The two parsers agree on a spooled pool exactly when every document is nonempty and free of marker tokens |
| Episodes.PoolRows | ops/pretrain_episodes.py:78-107 | At most one row per document, one for every document long enough, each a full window inside it |
| Episodes.WindowsFill | ops/pretrain_episodes.py:78-81 | Windows start a quarter of their length apart, at least one token, and a document offers exactly those that fit |
| Episodes.ShuffleKeeps | ops/pretrain_episodes.py:108 | Any reordering keeps one row per document |
| Episodes.AtMostDivides | ops/pretrain_episodes.py:121 | Buckets are compared by the quotient of their use and their quota |
| Episodes.StaysFair | ops/pretrain_episodes.py:112-124 | Picking the least used bucket keeps every picked bucket, one pick ago, no fuller than any bucket that still has candidates |
| Episodes.Select | ops/pretrain_episodes.py:110-124 | Selects the requested number fairly, each row from its place in its bucket, or fails exactly when fewer rows are offered |
| Episodes.SelectedApart | ops/pretrain_episodes.py:110-124 | If no two candidates share a document, no two selected rows do |
| Episodes.AllSelectedApart | ops/pretrain_episodes.py:110-124 | Once every candidate is selected, selected rows share no document only if no two candidates do |
| EpisodeBuild.ReadFile | ops/pretrain_episodes.py:13-40 | A pool is read through its directory's index if there is one, failing when that does not name the pool, and by its markers otherwise |
| EpisodeBuild.ReadApart | ops/pretrain_episodes.py:13-40 | Either reader gives the documents of a pool different offsets |
| EpisodeBuild.BucketApart | ops/pretrain_episodes.py:68-109 | A bucket over several sources offers each document once exactly when it reads no pool twice that holds a document long enough |
| EpisodeBuild.CandidatesScattered | ops/pretrain_episodes.py:65-109 | All buckets together, shuffled, offer each document once exactly when no such pool is read twice by one bucket or by two |
| EpisodeBuild.RepeatedSource | ops/pretrain_episodes.py:68-107 | A source listed twice offers its only document twice |
| EpisodeBuild.BuildEpisodes | ops/pretrain_episodes.py:43-130 | Selects the requested number of windows, each inside one document of a pool of its bucket and source; no document is used twice if no pool with one to offer is read twice, and only then when everything is selected; fails exactly for a bad setup, an unreadable pool or too few documents |
| Rounding.EncodeRounds | ops/correlated_parity.py:31-33 | The wrapping bit formula rounds the magnitude to nearest, ties to even, and keeps the sign, for every number up to infinity |
| Rounding.EncodeDecode | ops/correlated_parity.py:27-33 | A BF16 code is its own rounding |
| Rounding.RoundingIsMonotone | ops/correlated_parity.py:127-131 | Rounding keeps the order of values |
| Rounding.RoundsToNearest | ops/correlated_parity.py:31-33 | No code lies nearer to a magnitude than its rounding |
| Bounds.DistanceInside | ops/correlated_parity.py:163-171 | Closest and farthest point of a box bound the distance of every row inside it |
| Bounds.DistanceReached | ops/correlated_parity.py:168-171 | Both distance bounds are reached by points of the box |
| Bounds.SumsSplit | ops/correlated_parity.py:152-158 | Totals, totals of squares and dot products of a vector in two parts add up |
| Bounds.DotsReached | ops/correlated_parity.py:175-177 | Both numerator bounds are reached by weights at the ends of their ranges |
| Bounds.RatioInside | ops/correlated_parity.py:175-179 | A quotient lies between the corners of its numerator and denominator intervals |
| Bounds.CornersReached | ops/correlated_parity.py:178-179 | Both ends of a quotient's interval are quotients of two ends |
| Bounds.ScoreInside | ops/correlated_parity.py:152-187 | Weights within bounds score inside the sum of the two corner intervals |
| Bounds.WeightScale | ops/correlated_parity.py:152-158 | A weight is one over 1e-9 plus 0.7 times the distance plus 0.05 |
| Bounds.ScoreBounds | ops/correlated_parity.py:163-187 | For every nonempty history each row inside the box scores inside the returned interval, which is exact: it holds every score whose numerators and denominators take their weights from rows of the box chosen apart, and both its ends are such scores |
| Bounds.AllowanceBounds | ops/correlated_parity.py:127-187 | Any row within the allowance, once stored as BF16, scores inside the interval computed from the rounded bounds, for any monotone conversion of those bounds to single precision, and the interval is exact for the box of the rounded bounds; there is a finite interval exactly for a nonempty history and finite bounds |
| Lowering.MoveFields | ops/pretrain.py:553-556 | Moving a section's fields one by one lands all of them on free keys or fails |
| Lowering.LowerStudy | ops/pretrain.py:582-727 | The sections are lowered in order, each by its own renames, selected primitive and checks, with dashes in primitive names replaced |
| Names.NormalizedText | ops/pretrain.py:570-571 | Normalising a name replaces its dashes by underscores and changes nothing else |
| Refusals.PlanRefused | ops/pretrain.py:618-724 | A section is refused in itself exactly for two primitives, a perturbation with fields, a surrogate method or primitive outside the two names, an unknown fit setting, a surrogate kind other than the resident one, a reliability that is no table, or a tensor family |
| Refusals.StepExact | ops/pretrain.py:553-727 | A section's fields land exactly if it is not refused in itself, none of them reaches a name that is taken and no two reach one name; then the document gains exactly these fields |
| Refusals.RefusedExactly | ops/pretrain.py:582-727 | Any document is refused exactly if, section by section, one of them is so refused or obstructed when its turn comes, or both spellings of the trust region have fields |
| Refusals.QuietRefusedExactly | ops/pretrain.py:582-727 | Where no field is a table landing under a section's name, that is told from the document itself: both spellings, a section refused in itself, two fields that reach one name, or a field that reaches a name the document still holds |
| Refusals.DomainIsQuiet | ops/pretrain.py:543-550 | No field is such a table where section fields are scalars or lists beyond the permitted subtable |
| LoweringProof.FixedPoints | ops/pretrain.py:582-727 | Lowering leaves a document unchanged exactly when no section is left in it as a table |
| Relowering.TwiceIsOnce | ops/pretrain.py:582-727 | A second lowering changes nothing if and only if no section moves a table, at once or through later sections, under the name of a section whose turn is over |
| Relowering.LoweringTwice | ops/pretrain.py:473-473 | So for documents whose section fields are scalars or lists beyond the permitted subtable, lowering twice is lowering once |
| Relowering.NestedSectionSurvives | ops/pretrain.py:582-600 | An earlier section nested in a later one is moved so, and survives the first pass |
| LoweringMoves.OneOrigin | ops/pretrain.py:553-727 | Where no section moves a table under a section's name, every field of a lowered document comes unchanged from exactly one place, and nothing overwrites anything |
| LoweringMoves.DomainIsCalm | ops/pretrain.py:545-550 | No section does where section fields are scalars or lists beyond the permitted subtable |
| SectionFields.FieldLands | ops/pretrain.py:582-727 | Every field of a section - its own, a selected primitive's name and fields, a surrogate's fit settings - is moved under its top-level name |
| SectionFields.SpotLeadsBack | ops/pretrain.py:582-727 | No two fields of a section are moved to one place |
| SectionFields.GroupsOriginate | ops/pretrain.py:582-727 | A section moves nothing but its fields |
| LoweringFields.EveryFieldReachesTop | ops/pretrain.py:582-727 | In any lowered document every such field of every section, the trust region's under either spelling, is found unchanged under its top-level name, unless it is a table that lands under the name of a section still to be lowered |
| LoweringFields.FieldsApart | ops/pretrain.py:553-727 | Where no section moves a table under a section's name, no two fields of the document share a top-level name |
| LoweringFields.NothingElse | ops/pretrain.py:553-727 | There a lowered document holds its section fields, what was outside the sections, and nothing else |

## Left out

- Launches, streams, events, timing, profiling, memory allocation failures and pointer arithmetic. Lanes and blocks run one after the other, which is enough where they write different cells.
- Index: buffers are one list of lists per query instead of a flat query-major array.
- ContextTree: the query kernel, its guard, and the ancestor kernel are not modelled.
- Generation: recurrence plans, layer visits and seeds are folded into the predictor. The evaluated-position count and the timings of the streamed generator are not modelled.
- Index.CudaIndex.Search: distances are an order in which overflowed ones come last, computed from reals without IEEE rounding.
- RelativeEngine: covers the paired relative mode. Absolute and legacy tells and the Gaussian and independent samplers are not modelled; how a reference direction is drawn and mixed is a parameter. A failed measurement or proposal is one flag that keeps the session from continuing.
- RelativeSpec.RadiusStaysInBounds: conversion to single precision is any monotone function on reals, so one that overflows has no counterpart.
- Driver: covers paired minibatches, where the reward deque has no effect. Proposals emitted before a failure are dropped with it. Legacy objectives, restarts, diagnostics checks, emitted timings and saving rows are not modelled.
- Paired.Compare: means and variances are reals; the checks for overflow to native precision have no counterpart.
- Episodes.LeastUsed: compares used / quota by cross-multiplication, without the rounding of a quotient.
- Episodes: identities, provenance records and writing the result are not modelled. The random choice of a window and the shuffle are parameters.
- EpisodeBuild.BuildEpisodes: one split, which is built without looking at the others; quotas are positive, as the recipe's are.
- Trial: sparse edits, materialisation of one leaf per launch, and not-a-number or infinite scales are not modelled.
- Hash: the normal and sign generators built on the hashes are not modelled.
- Archive: names are bytes in the given order; reading files, wheel metadata, RECORD lines, base64 and SHA-256 are not modelled.
- Checkpoint.ReadTensor: payload bytes are already decoded; storage lookups fail as one error.
- Moments: finite-precision tolerance and the concrete test vectors are replaced by the identities over all inputs.
- Bounds.ScoreBounds: sums and roots are exact reals.
- Bounds.AllowanceBounds: raw values and allowances are reals. The infinite or undefined ends that infinite bounds or an empty history leave are one case without an interval.
- Lowering: dictionary order is not kept, and names are an enumeration with a case for all others. Writing TOML, corpus identities and plan paths are not modelled.
- Parsing of arguments, model weights, attention and expert kernels, the reference and dense samplers, dense tiles, code-solution objectives, stress runs, layout flattening and the readout probe's message writer: straightforward next to the parts above.
