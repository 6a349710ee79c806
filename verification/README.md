# Kernels, streams and protocols of Resonate, modelled and proved in Dafny

This project models the parts of Resonate where a mistake would be hard to see, and proves what they are for:

- the linear programme that bounds how loud an equalised stream can become: its tones and prices, the revised
  simplex with a product-form inverse, the tree of band groups, the loudest moments that stand for a stream, and the
  pruning that asks for as few bounds as it can;
- what is heard of a stream as it is played: the split bank with its backward pass, the table of coinciding heights,
  the envelope, and the search for a coder's frames, each of which must give the same answer however the stream was
  cut into pieces;
- the crew that hears one stream in many stages at once, over every interleaving of its producer and its tasks, and
  other protocols between threads: a Cast link and those that ask over it, the registry of Cast receivers and the
  changes it announces, the lanes by which one stream at a time may steer a device, sources handed over to the thread
  that fills from them, and cuts shared out among workers;
- dense solvers and fast transforms by their definitions: Levinson's recursion, elimination to a least-squares
  minimum, sliding energies and the best two lags, folded matrixing and blocks, butterflies, and the energies of a
  comb filter worked out from what was transformed before it;
- forms that are written and read back: protobuf frames, JSON, kept analyses, and signatures.

`dafny verify dfyconfig.toml` checks the whole of it. Sizes (bands, matrix width, capacity, chunk, margin, lanes) are
parameters wherever the theorems do not depend on their values.

## How it is modelled

- Samples, weights and energies are exact reals; what the program keeps as an infinite float is `None` here.
- Filters, Fourier transforms, logarithms, cosines and square roots are functions of which only the laws needed are
  assumed, each stated as a predicate that a theorem requires: `Peaks.Decibels.Lawful`, `Granules.Cosine`,
  `Combing.Linear`. A filter is any step function from a state and a plane to a state and a plane.
- Objects that the program updates in place are classes here with the same fields. Fields the program keeps as a
  growing vector are sequences that the methods reassign; arrays that are worked on in place are arrays.
- Threads are modelled as step relations over all interleavings, sequentially consistent: each step is one critical
  section or one atomic operation. `events` is any sequence of steps that are allowed one after another.
- Where a proof passes a fact on without looking into it, the fact is kept folded behind `Folding.Look`, which says no
  less than the fact itself.

Where the code and what is said of it part:

- `Castings.ReplayHolds`: a change is announced after the registry has been let go of, so a subscriber may be told that
  a receiver went before it is told that it came. `ToldTooLate` is a run of two threads that ends so; the lemma says
  exactly when a replay still gives the ids held.
- `Simplex.Solving.Bound`: a bound given up as beaten is beaten by a mix that the prices allow only while no value had
  to be raised back to nothing; `Pivot` says exactly when it stays so. `BeatenByNone` is a programme whose first pivot
  meets a factor too small to move its row: what its basis then reaches is twice what any mix allowed comes to.
- `Peaks.Grouped`: where the whole of a stream is silent and a group of bands is not, only the first tile's reach is
  kept; `SilentWholeMisses` is such a stream.
- `Jsons`: four hexadecimal digits may be a plus sign and three, as the code reads them, which section 7 of RFC 8259
  does not allow.

## Model

| member | source | states |
|---|---|---|
| Pitch.Levinson | crates/resonate-analysis/src/pitch.rs:216-240 | For any order, the taps left when the recursion stops predict: they solve the Toeplitz system of the orders done and are nothing beyond, and it stops early only in silence or where what is left is under its share |
| Pitch.OrderByOrder | crates/resonate-analysis/src/pitch.rs:222-234 | One symmetric update takes a solution of one order to a solution of the next, and the error becomes what the next order leaves |
| Pitch.EnergiesBack | crates/resonate-analysis/src/pitch.rs:131-139 | Every energy the running sum gives, lag after lag, is the sum of the squares of the samples that far back |
| Pitch.BestOf | crates/resonate-analysis/src/pitch.rs:264-292 | Told by cross-multiplying alone, the two lags are the best by correlation squared over energy and the best of the others, the earlier on a tie, with what is left where there is one or none |
| Fit.Solved | soxr-comparison/src/fit.rs:81-114 | Elimination in place and back substitution give the one solution of the system they were given, for any width, and none exactly where the matrix is singular |
| Fit.Fitted | soxr-comparison/src/fit.rs:33-56 | The coefficients fitted leave no more energy than any others would, and there are none exactly where the design's columns depend on each other |
| Fit.LeastSquares | soxr-comparison/src/fit.rs:33-73 | Whatever answers the normal equations leaves no more energy than any other coefficients |
| Fit.SingularWhenDependent | soxr-comparison/src/fit.rs:33-56 | The normal matrix is singular exactly where some coefficients that are not all nothing give nothing |
| Fit.EnergyWithout | soxr-comparison/src/fit.rs:58-73 | What is measured without the fit is the energy of what the fit misses |
| Tones.OfEach | crates/resonate-analysis/src/tones.rs:61-89 | Each cover's own list of shares agrees with the shares listed point by point, everywhere |
| Tones.PaidBy | crates/resonate-analysis/src/tones.rs:166-196 | What weights pay is at least what any mix the prices allow sounds like, and there is none exactly where some wanted point is not covered |
| Tones.WeightsBound | crates/resonate-analysis/src/tones.rs:166-196 | Weights scaled until they cover every wanted point bound every mix the prices allow by what they pay: weak duality |
| Pivoting.InvertsKept | crates/resonate-analysis/src/tones.rs:470-497 | A pivot of the product form keeps the inverse an inverse, of the basis with the entering column in the leaving one's place |
| Simplex.NoneTwice | crates/resonate-analysis/src/tones.rs:470-497 | No variable is in an inverted basis twice |
| Simplex.Solving.Over | crates/resonate-analysis/src/tones.rs:226-255 | A programme starts out on a basis whose inverse and values are exact, with only priced covers counted |
| Simplex.Solving.PricedWholeAt | crates/resonate-analysis/src/tones.rs:267-289 | Repricing the whole changes that price alone, and leaves the values exact exactly where none of them strays or falls under nothing |
| Simplex.Solving.HeardAlone | crates/resonate-analysis/src/tones.rs:300-318 | The loudest any one tone may be alone is at most every bound there is, and nothing where no bound exists |
| Simplex.Solving.Bound | crates/resonate-analysis/src/tones.rs:320-356 | Whatever pivots are taken, what is paid bounds every mix the prices allow; a bound given up as beaten is beaten by the mix the basis stands for, which the prices allow where the pivots led straight here |
| Simplex.Solving.Priced | crates/resonate-analysis/src/tones.rs:368-410 | Any weights give a bound, and the entering variable is one that gains and is not in the basis |
| Simplex.Solving.Pivot | crates/resonate-analysis/src/tones.rs:470-497 | A pivot keeps the basis inverted, moves exactly where some factor moves its row, and keeps the values exact exactly where none of them dips |
| Simplex.Solving.LedStraight | crates/resonate-analysis/src/tones.rs:470-497 | Over a whole run, values that were exact to start with are exact at the end where no factor met was above nothing and too small to move its row |
| Simplex.EveryFactorMoves | crates/resonate-analysis/src/tones.rs:470-497 | No value dips under nothing where every factor of the entering column moves its row or is not above nothing |
| Simplex.BeatenByNone | crates/resonate-analysis/src/tones.rs:320-356 | The first round of a bound on one tone under two covers: a value dips and is raised, and the basis then reaches twice what bounds every mix the prices allow, so giving the bound up as beaten would be wrong |
| Simplex.NothingGains | crates/resonate-analysis/src/tones.rs:368-410 | Where no variable gains, the mix the basis stands for bounds every mix the prices allow |
| Simplex.ReachedRises | crates/resonate-analysis/src/tones.rs:470-497 | A pivot raises what is reached by the entering variable's gain times the value it enters with |
| Simplex.ReachedIsPaid | crates/resonate-analysis/src/tones.rs:434-447 | What the basis reaches is what its weights pay at the prices |
| Simplex.BasicGains | crates/resonate-analysis/src/tones.rs:434-461 | No variable in the basis gains anything |
| Filtering.SettleInOrder | crates/resonate-analysis/src/split.rs:468-494 | Chunks settled in order, each over the last in place, are the chunks each settled from what was passed ahead of it |
| Filtering.SettleStatesFirst | crates/resonate-analysis/src/split.rs:448-494 | Settled with every state found first and the chunks then in any order at all, they come to the same |
| Tiling.Tiles.Holding | crates/resonate-analysis/src/split.rs:150-187 | Tiles are halved until the frame has one, the one it falls in by division, and each is still the loudest of exactly its frames |
| Readings.ReadOn | crates/resonate-analysis/src/split.rs:224-279 | Rows read on from what a reading keeps are the rows read as if all at once |
| Banks.Bank.Note | crates/resonate-analysis/src/split.rs:335-398 | A piece heard leaves the bank as hearing everything so far would, whether a crew settles or not |
| Banks.Bank.Finished | crates/resonate-analysis/src/split.rs:400-433 | What is finished is the tiles of the whole stream, filtered forward and back with its ends mirrored |
| Banks.HeardInPieces | crates/resonate-analysis/src/split.rs:335-433 | However a stream of whole frames is cut into pieces, and settled by a crew or in order, it comes to the tiles of the whole of it |
| Crews.AlwaysSound | crates/resonate-analysis/src/crew.rs:161-241 | Over every interleaving a lane has one task exactly when it is draining, no queued slab is without one, what is charged is the slabs still held and never passes the larger of the limit and one slab |
| Crews.HeardInOrder | crates/resonate-analysis/src/crew.rs:161-194 | At any time a stage has noted a prefix of what was fed, in order |
| Crews.TasksEnd | crates/resonate-analysis/src/crew.rs:161-194 | However tasks step, they take no more steps than they had work to do |
| Crews.TasksLeaveRoom | crates/resonate-analysis/src/crew.rs:206-262 | Where the tasks can go on no further while the producer waits, there is room for it |
| Crews.RoomComes | crates/resonate-analysis/src/crew.rs:206-262 | Tasks alone can bring a waiting producer room |
| Crews.NeverStuck | crates/resonate-analysis/src/crew.rs:161-241 | Until the producer is done something can step that is not being told to stop |
| Crews.EndsHeard | crates/resonate-analysis/src/crew.rs:93-194 | A run that ends without being stopped leaves nothing charged and every stage with exactly what was fed |
| Crews.HeardByCrew | crates/resonate-analysis/src/crew.rs:93-194 | A bank that notes what its stage was given over any such run comes to the tiles of the whole stream fed |
| Trees.Tree | crates/resonate-analysis/src/peaks.rs:52-85 | With an explicit stack, every one of the 2B-1 slots is filled, as the preorder of the bands halved |
| Trees.TreeRooted | crates/resonate-analysis/src/peaks.rs:52-85 | Each node's two halves part its bands between them, all the way down |
| Trees.CheapestOver | crates/resonate-analysis/src/bands.rs:760-770 | The loop from the last node back gives the cheapest of the root |
| Trees.LeastOfAll | crates/resonate-analysis/src/bands.rs:760-770 | The cheapest is the least summed reach times height over every way of parting the bands into nodes, and one of them costs it |
| Trees.CheapestMonotone | crates/resonate-analysis/src/bands.rs:760-770 | Where reaches are not under nothing, higher heights never cost less |
| Peaks.CodedCovers | crates/resonate-analysis/src/peaks.rs:95-156 | A moment as coded is nowhere under its heights exactly where the loudest of them is not past every code |
| Peaks.Gathered | crates/resonate-analysis/src/peaks.rs:379-412 | Every tile gathered is under one of the moments, and under the widest tolerance gathering succeeds where no node is over ten times the loudest whole |
| Peaks.Grouped | crates/resonate-analysis/src/peaks.rs:325-412 | So many moments are kept that every tile, with each tile near it, is under one of them as coded, where the whole is heard and no node is over ten times it or past every code; where the whole is silent only the first reach is kept |
| Peaks.SilentWholeMisses | crates/resonate-analysis/src/peaks.rs:333-339 | Tiles whose whole is silent and one of whose nodes is not: what is kept does not cover them |
| Bands.Gains.Partitioned | crates/resonate-analysis/src/bands.rs:294-299 | The least of the anchors' covers, one of them |
| Bands.Gains.Hinted | crates/resonate-analysis/src/bands.rs:301-312 | A bound from weights kept of earlier moments is still over every mix these heights allow |
| Bands.Solved | crates/resonate-analysis/src/bands.rs:314-358 | The programme's bound is over what a moment's tones can reach, and no more than its parted one |
| Bands.BoundBeside | crates/resonate-analysis/src/bands.rs:264-292 | With hints, floors and the break, the louder of the bound and the loudest yet is, less the ring, over everything each moment's bounds cover |
| Bands.RingsAtLeast | crates/resonate-analysis/src/bands.rs:264-292 | The ring of all the moments together is at least that of any of them |
| Headroom.OverHolds | crates/resonate-analysis/src/bands.rs:294-358 | What is over everything a moment's bounds cover holds whatever tones sound within any heights under the moment |
| Headroom.BoundOfTiles | crates/resonate-analysis/src/bands.rs:264-292 | Where the moments kept cover the tiles, whatever tones are held within a tile and one near it come, with their ring, to no more than the louder of the bound and the loudest yet, silent tiles among them |
| Bands.Loudest.Weigh | crates/resonate-analysis/src/headroom.rs:49-52 | Weighed in turn, the peak held never falls and is, less the ring, over the moments weighed |
| Sharing.EveryCutOnce | crates/resonate-analysis/src/headroom.rs:189-237 | However the workers take turns, each cut is counted by one of them, as measured or passed over, and the joined peak is the loudest measured |
| Weighings.EachItsOwn | crates/resonate-analysis/src/coinciding.rs:103-114 | No two weighings weigh alike and none weighs nothing |
| Weighings.EveryWeighing | crates/resonate-analysis/src/coinciding.rs:103-114 | Every choice of weights but nothing at all is one of them |
| Weighings.HearInto | crates/resonate-analysis/src/coinciding.rs:395-449 | Frames heard leave every entry of the table the loudest its row and column weigh any frame heard so far |
| Weighings.LoudestSum | crates/resonate-analysis/src/coinciding.rs:451-471 | So many lanes and a tail give the loudest of the sums and the start |
| Weighings.HoldsEachWeighing | crates/resonate-analysis/src/coinciding.rs:395-425 | The entry one past an index is the loudest any frame is, weighed by the weighing of that index |
| Coinciding.PassesReach | crates/resonate-analysis/src/coinciding.rs:219-234 | So many three-wide passes give every point but the two at the ends the loudest within so many points each way, and leave those two alone |
| Coinciding.Fill | crates/resonate-analysis/src/coinciding.rs:235-246 | Every frame held is as high as its own point and the next are, point after point |
| Coinciding.MirrorAfter | crates/resonate-analysis/src/coinciding.rs:593-599 | What follows the end is the samples before it mirrored, as far back as they go |
| Coinciding.EachFrameOnce | crates/resonate-analysis/src/coinciding.rs:309-345 | Every frame is read once, in the one window a hop apart that it falls in |
| Coinciding.Hearing.Note | crates/resonate-analysis/src/coinciding.rs:309-319 | A piece heard leaves what was read and what is still to be read the whole, whatever follows |
| Coinciding.HeardInPieces | crates/resonate-analysis/src/coinciding.rs:308-378 | However a stream is cut, the table is that of every frame of the whole of it |
| Coinciding.Finished | crates/resonate-analysis/src/coinciding.rs:525-547 | Each figure is the loudest its weighing is over every frame of every channel, with its share of the peak between samples; there are none exactly where nothing is heard |
| Steps.Stepping.Note | crates/resonate-analysis/src/steps.rs:735-792 | A piece leaves the search at the stage the whole stream so far comes to, with what is held its end from no later than is still to be read |
| Steps.FoundInPieces | crates/resonate-analysis/src/steps.rs:735-962 | However a stream is cut, the same is found of it, every read within what is held |
| Steps.SettledOn | crates/resonate-analysis/src/steps.rs:757-907 | Settling for some of a stream and then for more is settling for it all at once |
| Steps.Confirm | crates/resonate-analysis/src/steps.rs:872-952 | Measuring every candidate, the best of them again undone, and keeping the better finds what is found of the candidates |
| Steps.FoundIsBest | crates/resonate-analysis/src/steps.rs:872-907 | What is found has coefficients, fits its lattice no worse than any candidate does, and is a candidate's own measure or what it comes to undone |
| Steps.AlwaysTrying | crates/resonate-analysis/src/steps.rs:839-870 | From the start of any stream, searches fall where they should, and never more than twice as many as are wanted are tried |
| Steps.Grid.FramesFit | crates/resonate-analysis/src/steps.rs:872-887 | The frames counted by division lie within what is held, and are all of those asked for once enough was heard |
| Granules.Matrix | crates/resonate-analysis/src/granules.rs:270-298 | From half as many folded rows, every subband's sum is the standard's over all rows (section 2.4.3.4 of ISO/IEC 11172-3), for any number of subbands |
| Granules.FoldingMatrixes | crates/resonate-analysis/src/granules.rs:270-298 | Rows folded about the centre turn to the standard's sum by the cosine's symmetries alone |
| Granules.Transform | crates/resonate-analysis/src/granules.rs:169-194 | From half as many folded values, every line of a long block is the standard's sum over the whole windowed block, for any block of four equal parts |
| Granules.FoldingTransforms | crates/resonate-analysis/src/granules.rs:176-194 | A block folded in quarters turns to the standard's sum by the cosine's symmetries alone |
| Granules.Unalias | crates/resonate-analysis/src/granules.rs:224-233 | Turned pair by pair in place, every line ends as its butterfly turns it and the others as they were |
| Granules.DecoderUndoes | crates/resonate-analysis/src/granules.rs:224-233 | A decoder's butterflies turn every line back, over any range of subbands |
| Granules.EveryLineReached | crates/resonate-analysis/src/steps.rs:1064-1082 | For every even hop and range, each line wanted is given by a bin worked out |
| Combing.CrossedEnergies | crates/resonate-analysis/src/celt.rs:524-563 | A band's energy had the samples been comb-filtered and then transformed is what the plain and combed lines have and share of it, for any linear transform and any gain, and is never under nothing (section 4.3.7.1 of RFC 6716) |
| Reducing.Doubling.Push | crates/resonate-analysis/src/reduce.rs:27-42 | A unit pushed is the last of those held, each column still the fold of its own units in order |
| Reducing.Doubling.Halve | crates/resonate-analysis/src/reduce.rs:44-57 | Columns joined two by two hold the same units, twice as many to a column |
| Reducing.HeldEvenly | crates/resonate-analysis/src/reduce.rs:27-57 | For an even cap what is held is exactly the columns of the least power of two that leaves fewer than the cap, each the fold of that many consecutive units |
| Reducing.WidestIs | crates/resonate-analysis/src/reduce.rs:27-57 | Only one power of two leaves fewer columns than the cap where its half does not, so how many units a column stands for follows from how many there are |
| Reducing.FoldsJoin | crates/resonate-analysis/src/reduce.rs:44-57 | The fold of two folds is the fold of everything |
| Envelopes.GatheringJoins | crates/resonate-analysis/src/envelope.rs:34-58 | Absorbing what was gathered later is gathering it all in one |
| Envelopes.Enveloping.Note | crates/resonate-analysis/src/envelope.rs:108-121 | Whole frames heard are all that is added, however they came |
| Envelopes.HeardInPieces | crates/resonate-analysis/src/envelope.rs:97-142 | However a stream is cut between frames, the envelope is that of the whole of it |
| Envelopes.Enveloping.Finished | crates/resonate-analysis/src/envelope.rs:123-142 | The columns drawn are those of consecutive stretches of what was heard, each of as many frames but the last, and of the one width that so many frames call for |
| Envelopes.Condense | crates/resonate-analysis/src/envelope.rs:161-201 | A lane is condensed place by place into what each place's columns merge to, and into nothing where it is not drawn |
| Envelopes.CondensedBounds | crates/resonate-analysis/src/envelope.rs:161-201 | However wide it is drawn, no sample of the frames a place stands for passes its reach |
| Envelopes.CondensedReached | crates/resonate-analysis/src/envelope.rs:161-201 | A place's lowest and highest are samples heard in the columns it falls in |
| Envelopes.PowersOfWhole | crates/resonate-analysis/src/envelope.rs:181-201 | Over columns of as many frames each, the mean of their powers is that of every sample in them |
| Frames.VarintReads | crates/resonate-cast/src/frame.rs:165-184 | Every number under 2^64 reads back from its varint, wherever it stands |
| Frames.BodyReadsBack | crates/resonate-cast/src/frame.rs:56-141 | Reading undoes framing for every message |
| Frames.UnknownFieldsChangeNothing | crates/resonate-cast/src/frame.rs:81-141 | A well-formed field of no known number changes nothing, wherever it stands |
| Frames.Read | crates/resonate-cast/src/frame.rs:81-141 | The cursor with its last-wins fields reads what the body says |
| Frames.Frame | crates/resonate-cast/src/frame.rs:56-79 | The bytes pushed are the length and the message's fields in order |
| Frames.ArrivesOn | crates/resonate-cast/src/link.rs:313-335 | What has arrived does not depend on how much of it arrived at once |
| Frames.FramesArrive | crates/resonate-cast/src/link.rs:313-335 | Frames one after another arrive as their messages, with what is left of one that is not whole yet |
| Frames.CutAnywhere | crates/resonate-cast/src/frame.rs:143-152 | Frames cut off anywhere are some whole frames and less than one more |
| Frames.HearInPieces | crates/resonate-cast/src/link.rs:313-335 | However much of a stream of frames has come and in whatever reads, the messages taken are those come whole, in order, and what is held is the start of the next |
| Links.NobodyLeftBlocked | crates/resonate-cast/src/link.rs:187-212 | Once the carrier has ended, whoever still waits can receive at once and need not time out |
| Links.EveryoneEnds | crates/resonate-cast/src/link.rs:187-212 | After that every asker is done within three steps of its own, none of them its timeout |
| Links.AnswersTheirOwn | crates/resonate-cast/src/link.rs:337-371 | An asker is answered only by a reply to the id it minted |
| Links.ComesOnce | crates/resonate-cast/src/link.rs:337-371 | What has come to an asker, or what it ended with, never changes again |
| Links.IdsApart | crates/resonate-cast/src/link.rs:187-193 | Two askers have one id only as many asks apart as there are ids |
| Jsons.WrittenReadsBack | crates/resonate-cast/src/json.rs:71-297 | What is written of a value reads back as it, with what is not finite as null, exactly where it is nested no deeper than may be read (section 7 of RFC 8259 for its text) |
| Jsons.NothingDeeperIsRead | crates/resonate-cast/src/json.rs:179-233 | Of no text at all is anything nested deeper than may be read |
| Jsons.PairReads | crates/resonate-cast/src/json.rs:279-290 | Every code point past those of four digits is read from its surrogate pair |
| Jsons.Write | crates/resonate-cast/src/json.rs:77-156 | What is appended is the value as it is written |
| Jsons.Read | crates/resonate-cast/src/json.rs:111-297 | The cursor reads a text as one value with nothing but blanks after it, or nothing |
| Jsons.WriteAndRead | crates/resonate-cast/src/json.rs:71-119 | Written and then read, a value comes back exactly where it is nested no deeper than may be read |
| Castings.Registry.Admit | crates/resonate-cast/src/casting.rs:597-623 | A device known by its id keeps its sink, any other is given the next one, and only that is announced |
| Castings.Registry.Forget | crates/resonate-cast/src/casting.rs:625-649 | A name that goes takes the first receiver that goes by its id, unless it was given by an address that still stands |
| Castings.Registry.ForgetAt | crates/resonate-cast/src/casting.rs:514-530 | Those go that were reached at the address and are not browsed |
| Castings.Registry.ForgetUnlocated | crates/resonate-cast/src/casting.rs:497-512 | All go but those at an address that is given |
| Castings.Registry.Relabel | crates/resonate-cast/src/casting.rs:579-595 | A receiver held takes what was found in place of what it was, and only that it changed is announced |
| Castings.Registry.Remember | crates/resonate-cast/src/casting.rs:573-577 | A name is called by the id that answers to it, and nothing is announced |
| Castings.DoneSays | crates/resonate-cast/src/casting.rs:497-649 | Whatever is done, ids addressed stay held, and the changes say just which id came, never held before, or which went |
| Castings.MintedAnew | crates/resonate-cast/src/casting.rs:608-615 | An id is minted anew exactly while the ids do not run out |
| Castings.AlwaysKept | crates/resonate-cast/src/casting.rs:497-660 | However threads take turns, ids addressed are ids held and no id is added or removed twice while the ids last |
| Castings.NeverToldTwice | crates/resonate-cast/src/casting.rs:497-660 | From any beginning and however threads take turns, no subscriber is told twice of an id that came or went while the ids last |
| Castings.ReplayHolds | crates/resonate-cast/src/casting.rs:597-660 | Once nothing is left to announce, a replay gives the ids held exactly where no id was said to go before it was said to come |
| Castings.OneAtATimeReplays | crates/resonate-cast/src/casting.rs:597-660 | Threads that announce before another changes anything leave every replay with the ids held |
| Castings.InTurnFromBeginning | crates/resonate-cast/src/casting.rs:597-660 | From any beginning, threads that announce before another changes anything leave every replay with the ids held |
| Castings.ToldTooLate | crates/resonate-cast/src/casting.rs:597-660 | One thread admits, another lets everything go and says so first: the subscriber keeps an id that is not held |
| Streams.TheOlderNeverCalls | crates/resonate-cast/src/stream.rs:63-91 | However streams take turns, once another has taken a device's lane an older one makes no call, its final Stop included, and one call at a time is made |
| Streams.AlwaysSound | crates/resonate-cast/src/stream.rs:63-91 | A hold that owns its lane is the one that took it last and has not let it go, and a lane is locked exactly while its holder calls |
| Handovers.EachInOnePlace | crates/resonate-audio/src/handover.rs:22-62 | Every source handed over is let go of, on the way back, in hand, filled from or on the way there, and they are filled from in order |
| Handovers.HandingBackGoesThrough | crates/resonate-audio/src/handover.rs:28-38 | However the two threads take turns, the push of a spent source never fails, and nothing the filling thread does next drops one |
| Handovers.HandedIsTaken | crates/resonate-audio/src/handover.rs:22-38 | Where the way back has room, the next look takes what was handed and gives back what it replaces |
| Keeping.OnlyTheWholeReadsBack | crates/resonate-analysis/src/kept.rs:284-480 | Whatever a layout can hold reads back from what was written, and nothing short of all of it reads back at all |
| Keeping.WhatFitsReadsBack | crates/resonate-analysis/src/kept.rs:187-282 | Where no count is held to more than its items take at least, what fits field by field reads back and nothing short of it does, and what reads at all is just what fits |
| Keeping.AnalysisReadsBack | crates/resonate-analysis/src/kept.rs:284-531 | An analysis laid out field by field, its codec, rate, format, tells, spectrum, print, peaks, envelope and spectrogram checked as they are read, reads back exactly where every field means something, and nothing short of it does |
| Keeping.ReadsBack | crates/resonate-analysis/src/kept.rs:187-282 | What is laid out reads back, with whatever is after it left |
| Keeping.Reader.Value | crates/resonate-analysis/src/kept.rs:233-282 | The shrinking slice reads each layout as it is said to read |
| Keeping.Trim | crates/resonate-analysis/src/kept.rs:139-174 | The oldest are tried first, no more of them than it takes, and too much is left only where every one was tried |
| Signing.PeaksReadBack | crates/resonate-analysis/src/signature.rs:321-333 | Peaks found in turn read back however far apart they are |
| Signing.BandsReadBack | crates/resonate-analysis/src/signature.rs:315-339 | Every band that has peaks reads back with its own tag, its padding passed over |
| Signing.WriteBands | crates/resonate-analysis/src/signature.rs:315-339 | The bands written one after another are the contents, and read back |
| Signing.Ring.Push | crates/resonate-analysis/src/signature.rs:177-183 | A sample written over the oldest leaves the ring the end of all it was given |
| Signing.Ring.OffsetIsRound | crates/resonate-analysis/src/signature.rs:196-203 | The sample so far on from the oldest is where the ring comes round to it |

## Left out

- Float rounding, NaN, the order SIMD lanes are summed in and fixed-width overflow of counts and products: claims are in
  exact reals and unbounded integers, except that minted Cast request ids and sink ids run out as the code's do.
- Fourier transforms, filter and equaliser design, the resampler, the true-peak meter and decoders: foreign code, taken
  as functions. `Metered` in `split.rs` and the acoustics in `bands.rs` (rung responses, spans, `trimmed`) follow them.
- Sockets, TLS, mDNS, clocks, files and thread scheduling: only the order of the steps and what they carry is modelled.
- UTF-8 decoding and the spelling of numbers: library functions that read back what they write.
- `Watch::run` and `Watch::read` in `stream.rs`: the loop that turns a device's answers into events; only the lanes it
  calls through are modelled.
- `Phases::sum_into`, how many coefficients make a search busy and the candidates chosen from its tallies in `steps.rs`:
  functions of the tallies, as tallies are of the frames read. Searches over residues run one after another.
- `transformed_short`, the windowing of rows and the memo of vectors in `granules.rs`; `undoubled`'s choice among
  multiples of a period in `pitch.rs`, beyond its energies.
- `sink.rs` and `levels.rs`: one reading of each branch settles most of what they promise.
- CRC and base64 of a signature, and the peaks that are looked for in it.
- Sorting is an insertion sort where the program calls its library's sort; the two halves of a parallel run of a bank
  are run one after the other, which `Filtering.SettleStatesFirst` shows to make no difference.
- A `Solving` keeps some scratch arrays between calls that are made anew for each call here.
- Reducing.HeldEvenly: asks for an even cap, because an odd one leaves a column of another length, which the code does
  not rule out; `Reducing.Doubling.Push` keeps every column the fold of its own units for any cap.
- Crews.RoomComes: gives one order of steps; `Crews.TasksEnd` and `Crews.TasksLeaveRoom` speak of every order.
- Castings.ReplayHolds: takes a subscriber that begins while no change is yet to be announced, and an id that has not
  run out; one that begins between a change and its announcement is told of that change once more.
- Envelopes.PowersOfWhole: asks for columns of as many frames each, because the code weighs a shorter last column as
  much as the others.
- Keeping.AnalysisReadsBack: takes as parameters the names of codecs, codings and tells, which bytes are peaks of bands
  and how far a spectrum reaches; and leaves out the judgement, which is worked out again and not kept.
- Headroom.BoundOfTiles: takes the figures of the weighings as they are given, not from the tiles, and asks as
  `Peaks.Grouped` does for a whole that is heard.
- Signing.BandsReadBack: asks for peaks in the order of their frames, as they are found.
