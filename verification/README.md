# togewire: a verified model

togewire plays what a Spotify account is playing as one Ogg/Opus web stream. This project models the
parts whose correctness is not visible in any single function, and proves what they promise:

* the **Ogg pump** and the **listener pipe** (`OggPage`, `Checksum`, `OggPump`, `PumpLaws`, `Pipe`,
  `EndToEnd`, `StreamManager`): pages are parsed, headers replaced, audio started at a seek point, paced, and fanned
  out through a bounded burst and a ring that slow listeners fall out of;
* the **track cache** (`TrackCache`, `CacheManager`, `CacheLaws`, `FileStem`, `TrackFiles`): a size-bounded
  least-recently-used store with a coarse recency, persisted and rebuilt on start, and the file names
  downloads take;
* the **single-flight preparer** (`Preparer`): leaders, followers, one download lock, failure cooldowns;
* the **playback controller** (`Playback`, `Takeover`, `Connections`): polls, finished downloads, the admin
  switch and togedemon pushes all move one stream, beside the per-address connection counters;
* the **cover writer** and the **JPEG walk** (`CoverArt`, `JpegWalk`).

## How the model is built

Code that updates state in place is a class whose methods make the same updates; each method's contract
equates the new state with a function of the old one. Those functions are defined on values, and the
results about whole runs are lemmas over sequences of their steps, for every interleaving. A region the
program runs under one mutex is one step. A 32-bit register is its 32 bits, so that the checksum can be
compared with polynomial division over GF(2).

Clocks, fetch results, the file system and the choice of what runs next are inputs to the steps. The
pump's waiting is an `Environment` that lets any amount of time pass and may retire the pipe at any await.

## Where the code does not do what one might expect

* Pumping at seek *a* and pumping the result at seek *b* equals pumping once at the larger seek if and only
  if the first pass sent nothing or started at a page that carries a granule (`PumpLaws.PumpTwiceIff`). The
  code reads granule -1 as larger than any seek target, so such a page can be the first one sent; the second
  pass then takes it for a header, as `PumpLaws.PumpTwiceCanFail` shows on a source of three pages. Nothing
  needs to be assumed about the order of granules.
* The first thing a listener gets is the headers, except when it joined before they were announced and fell
  behind the ring before taking anything (`Pipe.HeadersFirstIff`). Before the first pull that can be read off
  the listener: its prefix was empty and it is more than the capacity behind (`Pipe.FirstPullIff`).
  `Pipe.EarlyAndSlowMissesHeaders` is such a run, at every capacity.
* The code falls back to "track" for an empty file stem; the dash between artist and title always survives
  cleaning, so that branch is never taken (`FileStem.StemIsSafe`).
* Loading drops entries whose file is gone without writing that back: memory and disk agree after a restart
  if and only if every persisted entry still has its file (`CacheLaws.RestartRestores`), and over a run if and
  only if something has been written since the last restart that lost one (`CacheLaws.SyncedIff`;
  `CacheLaws.LossyRestartIsUnsynced` is a run in which nothing was).
* A put reads its clock before it takes the cache lock: the order stays sorted by access time if and only if
  no other entry was dated later meanwhile (`CacheLaws.PutKeepsOrderIff`; `CacheLaws.LatePutBreaksOrder` is a
  run in which one was). The laws about whole runs hold with such puts up to any delay `d`, which their bounds
  name.
* A put reads its file's size, too, before it takes the lock. It keeps all entries on different files, all of
  them there, if and only if its own file is there and no other entry owns it, or that size is beyond the
  limit and the put empties the cache (`TrackFiles.CommitKeepsFilesIff`).
  Downloads take fresh names, so over whole runs this fails if and only if some commit finds its file gone
  (`TrackFiles.FilesNeverSharedIff`), and only a clear between the rename and the commit takes it away
  (`TrackFiles.FileGoneIffCleared`). Two tracks come to have one file if and only if a commit is of a path that
  another entry still owns, and that entry stays (`TrackFiles.TracksNeverShareIff`).
  `TrackFiles.ClearDuringCommitSharesAFile` is a run from an empty cache that ends so.
* A page without a granule after the headers of a paced file is due only 2^64 ticks from the start, some twelve
  million years: the stream stalls (`OggPump.GranuleFreeStalls`).
* A play checks that it should happen and swaps the pipe later, not under one lock. Files then stream only
  when they should if and only if no swap comes after a poll, takeover or switch-off that the reading concerned
  was too early to see and that nothing has undone (`Playback.SplitPlaysAreRightIff`); `Playback.SplitPlayBrokenByIff`
  lists the single events that do it, `Playback.ConnectDuringPlayIsWrong` gives two runs, and
  `Playback.WaitingPlaysAreSafeIff` says when nothing can go wrong any more.
* The comment beside the takeover slot says that cancelled means no longer live. That holds of the slot
  (`Takeover.SlotHoldsTheLiveOne`), but starting and stopping the pipe happen outside its lock, so a late stop
  or a slow start can cut off a newer push. When a push goes live it will be heard for as long as it lasts,
  whatever happens, if and only if at that moment no other push has a pipe left to start, none that let go of
  the slot a pipe left to stop, no switch-off is under way, and no task that saw the slot empty is about to
  swap the pipe (`Takeover.PushIsHeardIff`, `Takeover.GoingLiveIsHeardIff`).

## Model

| member | source | states |
|---|---|---|
| Checksum.OggCrc | src/server/stream.rs:303-316 | the program's shift-and-xor loop returns the remainder of the message polynomial, times x^32, on division by the generator |
| Checksum.CrcIsRemainder | src/server/stream.rs:302-316 | the register value is that remainder for every input, as section 6 of RFC 3533 defines it |
| Checksum.RemainderUnique | src/server/stream.rs:302-316 | a message has only one remainder below x^32, so the previous row pins the checksum down |
| Checksum.GeneratorIsHex | src/server/stream.rs:308-312 | the generator's exponents and the constant 0x04c11db7 are the same 32 bits |
| Checksum.CrcXorLinear | src/server/stream.rs:302-316 | for inputs of equal length the checksum of the xor is the xor of the checksums |
| Checksum.CrcDetectsBursts | src/server/stream.rs:302-316 | inputs of equal length that differ only within 32 consecutive bits always have different checksums |
| Checksum.CrcDetectsFourBytes | src/server/stream.rs:302-316 | so do inputs that differ only within four consecutive bytes |
| OggPage.NextPageIff | src/server/stream.rs:258-284 | a read returns a page exactly when a well-formed page lies ahead, and then that one |
| OggPage.NextPageOutcome | src/server/stream.rs:258-284 | which outcome a read has, in the bytes alone: a page up to where, the end, or which error |
| OggPage.GranuleBytes | src/server/stream.rs:279 | the granule position is the little-endian number in bytes 6 to 13 |
| OggPage.LacingSum | src/server/stream.rs:271-276 | the body length read off the lacing values of a packet is the packet's (section 6 of RFC 3533) |
| OggPage.Reader.ReadOggPage | src/server/stream.rs:258-284 | the three exact reads give what the one-step reading function gives, errors included, and consume exactly the page |
| OggPage.Reader.ReadExact | src/server/stream.rs:259-281 | all bytes asked for or none, a short source being drained |
| OggPage.PageLengthBound | src/server/stream.rs:258-284 | no page that parses is longer than 65307 bytes |
| OggPage.SplitConcat | src/server/stream.rs:258-284 | reading undoes writing: pages written one after another are read back, whatever unreadable tail follows |
| OggPage.SplitWellFormed | src/server/stream.rs:258-284 | everything read off any input is a well-formed page |
| OggPage.EmptyTagsPage | src/server/stream.rs:289-300 | the buffer patched in place is the page whose checksum field sums the page with that field zero |
| OggPage.TagsPageIsSound | src/server/stream.rs:286-300 | that page parses, is a header page, carries the given serial and number and an empty comment list, and verifies against its own checksum |
| OggPage.TagsPageBytes | src/server/stream.rs:289-300 | that page byte for byte, its checksum field the little-endian value of the register |
| OggPage.LeBytesValue | src/server/stream.rs:298 | four bytes, lowest first, hold the register's value |
| OggPage.DamageIsDetected | src/server/stream.rs:289-316 | a page that verifies, damaged within four consecutive bytes outside the checksum, no longer does |
| OggPump.PumpOgg | src/server/stream.rs:320-377 | left alone the pump sends and ends exactly as `Pumped` says, the first message as headers and the rest as pages; retired, it has sent a prefix of that and at most one message of it late; send times never run backwards, and paced, no page is more than 240000 ticks (5 s) early, counted from the time the headers were sent, and otherwise no wait is asked for |
| OggPump.ReadHeaders | src/server/stream.rs:326-340 | the header loop stops at the first page with a granule, keeping the first page and the last one's number |
| OggPump.MakeHeaders | src/server/stream.rs:326-341 | the header message is the first page and the emptied tags page, or the right error |
| OggPump.SeekPage | src/server/stream.rs:343-349 | the seek loop ends at the first page that reaches the target |
| OggPump.Pace | src/server/stream.rs:355-364 | exactly how long the pump asks to wait; afterwards the page is due, or the pipe has been retired |
| OggPump.GranuleFreeStalls | src/server/stream.rs:344-364 | a page without a granule is waited for until 2^64 ticks from the start |
| OggPump.Forward | src/server/stream.rs:353-376 | what is sent is a run of the pages ahead, all of them unless retired, in order of time and none before its own, at most one after retirement |
| OggPump.BaseOfProduct | src/server/stream.rs:343 | the base is the wrapping product of target and rate in whole granules, negative targets counting as 0 |
| OggPump.SeekLimitIsTight | src/server/stream.rs:343 | SEEK_LIMIT is the last target whose product does not wrap |
| OggPump.BaseWithinLimit | src/server/stream.rs:343 | up to SEEK_LIMIT the wrapping 64-bit product gives 48 granules a millisecond |
| PumpLaws.PumpSendsNothingIff | src/server/stream.rs:320-377 | whole pages plus fewer than 27 bytes: nothing is sent exactly when there are no headers or no page reaches the target |
| PumpLaws.PumpedHeaders | src/server/stream.rs:326-341 | the first message of any pump that sends anything: the first page unchanged, then a page that parses, verifies, holds no comments, has the first page's serial number and the last header page's sequence number, or 1 |
| PumpLaws.PumpedPages | src/server/stream.rs:343-377 | after it the pages from the first one at the target on, in the pages' own terms, and the error the pump ends with |
| PumpLaws.PumpedErrors | src/server/stream.rs:327-340 | which error ends a pump that finds only headers, or none |
| PumpLaws.PumpForwardsBytes | src/server/stream.rs:318-377 | otherwise: the first header page, one page of no comments with its serial and the last tags page's number, then the input byte for byte from the start page on |
| PumpLaws.PumpTwiceIff | src/server/stream.rs:326-351 | for every input: pumping twice is pumping once at the larger seek if and only if the first pass sends nothing or starts at a page with a granule |
| PumpLaws.PumpTwiceCanFail | src/server/stream.rs:331-334 | a source of three pages, the last without a granule, on which two passes are not one |
| PumpLaws.PumpTwiceSeeks | src/server/stream.rs:326-351 | in milliseconds, for inputs with no granule-free page after the headers |
| PumpLaws.PumpAtStartIdempotent | src/server/stream.rs:326-351 | at seek 0 pumping is idempotent on every input |
| PumpLaws.PumpedPagesFit | src/server/stream.rs:353-376 | every message after the headers is a well-formed page of the source, at most 65307 bytes |
| PumpLaws.PumpedBurstReachesBack | src/server/stream.rs:64-74 | at any point of any pump the burst holds at least the last two pages sent |
| Pipe.Pipe.SetHeaders | src/server/stream.rs:58-62 | headers are stored and broadcast in one step |
| Pipe.Pipe.Send | src/server/stream.rs:64-74 | a page joins the burst, which is trimmed, and the log, in one step; the byte count stays exact |
| Pipe.Pipe.TrimBurst | src/server/stream.rs:66-72 | dropping from the front gives the burst the specification asks for, and the exact byte count |
| Pipe.Pipe.Subscribe | src/server/stream.rs:76-80 | the prefix and the ring position belong to the same moment |
| Pipe.Pipe.Recv | src/server/stream.rs:31-38 | the ring of fixed capacity hands out the next message of the log, jumps a receiver that fell behind to the oldest retained one, and is at its end for a drained receiver once all senders are gone |
| Pipe.ReceiveOutcome | src/server/stream.rs:31-38 | a receiver gets the next message, nothing yet, the end, or is moved to the oldest retained message, which it gets next |
| Pipe.TrimIsLongest | src/server/stream.rs:64-74 | no longer suffix of the pages fits the burst buffer |
| Pipe.TrimIncremental | src/server/stream.rs:64-74 | trimming page by page gives what trimming everything sent would |
| Pipe.BurstIsLongestSuffix | src/server/stream.rs:64-74 | in every reachable state the burst is the longest suffix of all pages sent within 131072 bytes |
| Pipe.BurstKeepsTwoPages | src/server/stream.rs:64-74 | with pages of at most 65307 bytes the burst reaches back two pages |
| Pipe.ExactlyOnce | src/server/stream.rs:56-81 | every interleaving: a listener that never lagged has a prefix of the headers and then every page from its burst on, each once, in order; all of it once drained |
| Pipe.EndedIsComplete | src/server/stream.rs:31-33 | a listener told that the pipe has ended has heard all it ever would, unless it lagged |
| Pipe.NoRepeats | src/server/mod.rs:493-496 | lagging or not, positions strictly increase |
| Pipe.HeadersFirstIff | src/server/stream.rs:56-81 | the headers come first if and only if the listener did not join before them and lag at once |
| Pipe.FirstPullIff | src/server/mod.rs:493-496 | before its first pull: the headers come first unless its prefix was empty and it is more than the capacity behind |
| Pipe.RunStartsAtBurst | src/server/stream.rs:64-80 | a listener's run of pages starts with the longest suffix, within 131072 bytes, of all that had been sent when it joined |
| Pipe.Pipe.DropSender | src/server/stream.rs:31-33 | with its last sender the pipe is closed |
| Pipe.EarlyAndSlowMissesHeaders | src/server/stream.rs:56-81 | a run, at every capacity, in which a listener never gets the headers |
| EndToEnd.ReachableIsFed | src/server/stream.rs:56-81 | whatever joins and pulls go on, the pipe is in the state the pump's own steps leave it in |
| EndToEnd.ListenerHearsSource | src/server/stream.rs:318-377 | from source to listener: one that has never lagged and has caught up has the header message and then byte for byte a run of the source's pages, to its end if the pump got there |
| EndToEnd.ListenerStartsAtBurst | src/server/stream.rs:64-80 | that run starts with the longest run of the source's pages, within 131072 bytes, up to the last one sent before the listener joined, and at least the last two |
| StreamManager.StreamManager.SwapPipe | src/server/stream.rs:198-209 | the old pipe is cancelled and loses the manager's sender, a fresh empty one of the right capacity takes its place, the generation counts swaps, and all earlier pipes stay cancelled |
| StreamManager.StreamManager.Stop | src/server/stream.rs:211-213 | stopping is a swap to a pipe no file feeds |
| StreamManager.StreamManager.AddClient | src/server/stream.rs:178-189 | admission below the limit only, with prefix and position from the current pipe |
| StreamManager.StreamManager.RemoveClient | src/server/stream.rs:191-195 | the listener count goes down, never below zero |
| TrackCache.MaxBytesIsLimit | src/cache.rs:24-27 | the limit in numbers: 67108864 up to 64 MB, 1048576 a MB above, and at most 9223372036854775807 |
| TrackCache.EvictKeepsLongestSuffix | src/cache.rs:242-251 | the survivors are the longest suffix of the recency order within the limit |
| TrackCache.EvictRep | src/cache.rs:230-251 | eviction keeps order, entries and total consistent and ends within the limit |
| TrackCache.RemoveRep | src/cache.rs:230-240 | removal keeps them consistent and the clamp at zero never acts |
| TrackCache.InsertRep | src/cache.rs:117-127 | so does replacing or adding an entry |
| CacheManager.Manager.GetPath | src/cache.rs:72-84 | a lookup touches, or drops an entry whose file vanished, and persists what changed |
| CacheManager.Manager.Prepare | src/cache.rs:109-116 | what a put reads before it has the lock: the time and the file's size, or 0 without a file |
| CacheManager.Manager.Put | src/cache.rs:117-130 | under the lock, with whatever was read before: the whole new state; the representation is kept and the total is within the limit |
| CacheManager.Manager.SetMaxMb | src/cache.rs:138-143 | the new limit, stated in numbers, holds afterwards |
| CacheManager.Manager.Clear | src/cache.rs:145-164 | nothing is left in memory or in the directory, and that is persisted |
| CacheManager.Manager.Load | src/cache.rs:168-197 | what was persisted and still has its file, sorted by access time, with the exact total |
| CacheManager.Manager.Touch | src/cache.rs:213-228 | the date and place of an entry change only when due; an entry already newest need not move |
| CacheManager.Manager.EvictIfNeeded | src/cache.rs:242-251 | the loop is the specification's eviction |
| CacheManager.Manager.constructor | src/cache.rs:52-69 | a start is a load into an empty cache with the limit in numbers |
| CacheLaws.LookupQuiet | src/cache.rs:72-84 | a lookup of an unknown track, or of one dated less than 300 s ago, changes nothing |
| CacheLaws.LookupRefreshes | src/cache.rs:213-228 | one dated earlier is re-dated and moved to the back, all else in place, and persisted |
| CacheLaws.LookupDrops | src/cache.rs:75-79 | one without its file is dropped, all else in place, and that persisted |
| CacheLaws.InsertAdds | src/cache.rs:125-127 | a put of a new track adds it at the back |
| CacheLaws.InsertReplaces | src/cache.rs:118-127 | a put of a known one moves it to the back and deletes its old file, unless the new one has its name |
| CacheLaws.EvictDeletes | src/cache.rs:230-251 | an eviction deletes the files of what it drops and no others |
| CacheLaws.EvictionIsLru | src/cache.rs:213-251 | every run, restarts included, with puts that read the clock up to `d` seconds before the lock: what is evicted was truly last used less than 300 + `d` s after the last use of anything kept (2`d` from 300 on) |
| CacheLaws.RepresentationHolds | src/cache.rs:37-44 | every run: each entry once in the order, oldest access first but for `d`, exact total, entries as persisted |
| CacheLaws.PutKeepsOrderIff | src/cache.rs:108-128 | with a stamp taken before the lock, the order stays sorted if and only if no other entry is dated later |
| CacheLaws.LatePutBreaksOrder | src/cache.rs:108-128 | a run in which a lookup is dated between a put's stamp and its lock, and the order ends unsorted |
| CacheLaws.OperationsStaySynced | src/cache.rs:72-164 | operations keep memory and disk the same; put, limit and clear make them so |
| CacheLaws.SyncedIff | src/cache.rs:168-211 | over every run of operations, losses and restarts: memory and disk hold the same if and only if something was written since the last restart, or that restart found every file |
| CacheLaws.LossyRestartIsUnsynced | src/cache.rs:168-197 | a run that ends with an entry on disk that memory has not |
| CacheLaws.RestartRestores | src/cache.rs:168-197 | a restart brings back the entries with files; memory and disk agree if and only if none lost its file |
| CacheLaws.RestartRoundTrip | src/cache.rs:168-211 | with all files there a restart restores entries and total, and, access times distinct, the very order if and only if it was sorted, as it is when they are more than `d` apart |
| FileStem.StemIsSafe | src/cache.rs:275-312 | for every artist and title: non-empty, at most 180 bytes, no separator or control character, not led by dot or blank, fallback never used |
| FileStem.StemIsWords | src/cache.rs:275-312 | what the stem is: the words of "<artist> - <title>" with one space between each two, trimmed, cut to 180 bytes, trimmed |
| FileStem.StemOfCleanName | src/cache.rs:275-312 | a name with nothing to clean, trim or cut stays as it is |
| FileStem.CleanIsSpaced | src/cache.rs:276-295 | the cleaning loop keeps all words, in order |
| FileStem.BlankIff | src/cache.rs:283-287 | which characters become blanks, by number |
| FileStem.TrimIs | src/cache.rs:296 | trimming takes off exactly what is to be cut at both ends |
| FileStem.ShortenAt | src/cache.rs:298-304 | what is kept is the longest prefix of at most 180 bytes |
| FileStem.Utf8TotalIs | src/cache.rs:300 | lengths are those of the characters' UTF-8 (section 3 of RFC 3629) |
| FileStem.FileStem | src/cache.rs:275-312 | the program's two loops compute that stem |
| TrackFiles.TrackPath | src/cache.rs:86-96 | the search ends in any finite directory, at the least free index |
| TrackFiles.CandidateText | src/cache.rs:89-93 | the names: plain, then " (1)", " (2)" and so on before the extension |
| TrackFiles.CandidateInjective | src/cache.rs:89-93 | no two indices give the same name |
| TrackFiles.EvictFiles | src/cache.rs:230-251 | eviction never takes a kept entry's file, nor one no entry owns |
| TrackFiles.CommitKeepsFilesIff | src/cache.rs:108-130 | for any path: a put leaves all entries with different files, all there, if and only if its own is there and nobody else's, or its size is beyond the whole limit |
| TrackFiles.SurvivesIff | src/cache.rs:242-251 | an entry survives an eviction if and only if it and all more recent ones fit the limit together |
| TrackFiles.NewestSurvivesIff | src/cache.rs:117-128 | a put's own entry survives its eviction if and only if it fits the limit by itself |
| TrackFiles.PutThenLookup | src/cache.rs:72-130 | the cache as a map: after a put the track is found under its path exactly when it fits, and no other entry has changed |
| TrackFiles.MoveKeepsIff | src/cache.rs:72-164 | one step of a run, clears and restarts included, breaks that exactly when it is a commit that finds its file gone |
| TrackFiles.FileGoneIffCleared | src/cache.rs:145-164 | nothing but a clear takes the file of a download under way |
| TrackFiles.FilesNeverSharedIff | src/cache.rs:108-164 | over every run: all entries always have different files, all there, if and only if no commit of the run found its file gone |
| TrackFiles.TracksNeverShareIff | src/cache.rs:108-164 | over every run: no two tracks ever have one file if and only if no commit is of a path another entry still owns and keeps |
| TrackFiles.ClearDuringCommitSharesAFile | src/cache.rs:145-164 | a run from an empty cache with such a clear, at whose end two tracks share one file |
| Preparer.TrackPreparer.RecentlyFailed | src/audio/prepare.rs:77-86 | pruning at one clock reading never changes the answer at the next |
| Preparer.TrackPreparer.Join | src/audio/prepare.rs:101-110 | one leader per id, everyone else gets its channel |
| Preparer.TrackPreparer.Record | src/audio/prepare.rs:149-163 | what each outcome does to the failure map |
| Preparer.TrackPreparer.DropGuard | src/audio/prepare.rs:33-37 | the guard takes its id out of the map |
| Preparer.CooldownsAreKept | src/audio/prepare.rs:77-166 | every interleaving: no fetch begins within the cooldown of a recorded failure of its track, which is 600000 or 30000 ms |
| Preparer.OutcomeIsRecorded | src/audio/prepare.rs:149-163 | what each result leaves behind: 600000 ms, 30000 ms, or no cooldown |
| Preparer.FetchIsNoted | src/audio/prepare.rs:137-146 | a fetch starts under the lock, for a track neither cached nor cooling down, and is noted |
| Preparer.CachedIsReady | src/audio/prepare.rs:89-91 | a task whose track is cached is done at once with its path |
| Preparer.CoolingIsBusy | src/audio/prepare.rs:92-94 | one whose track is cooling down is turned away |
| Preparer.WokenLooks | src/audio/prepare.rs:117-121 | a follower that wakes returns the cached path, or is turned away |
| Preparer.SecondFollows | src/audio/prepare.rs:101-115 | one whose track is in flight follows its leader and changes nothing else |
| Preparer.LateHitIsReady | src/audio/prepare.rs:138-140 | what was cached while a leader waited for the lock is its result, without a fetch |
| Preparer.LateCoolingIsBusy | src/audio/prepare.rs:141-143 | a cooldown begun meanwhile turns it away, without a fetch |
| Preparer.AbortedLeaves | src/audio/prepare.rs:27-37 | a leader dropped at an await records nothing, gives back the lock and leaves through its guard |
| Preparer.LoneTask | src/audio/prepare.rs:88-166 | a whole task with nobody in its way: one fetch, its result returned, cached or recorded, and no other trace |
| Preparer.FailedIsNotCached | src/audio/prepare.rs:131-166 | an unexpired failure entry belongs to a track that is not cached |
| Preparer.Pruned | src/audio/prepare.rs:79-82 | pruning changes no answer and no remaining entry |
| Preparer.PrunedKeeps | src/audio/prepare.rs:79-82 | above 64 entries the unexpired ones stay, else all |
| Preparer.SingleFlight | src/audio/prepare.rs:27-37 | at most one leader per id, one task under the download lock over all ids, and a dropping guard finds its own entry |
| Preparer.InFlightHasLeader | src/audio/prepare.rs:101-147 | an id is in flight if and only if a leader for it lives |
| Preparer.FollowerGetsLeadersPath | src/audio/prepare.rs:112-123 | once the leader is done its channel is closed, and its follower gets its path unless the track was evicted |
| Playback.Controller.OnPoll | src/server/workers.rs:63-138 | one pass of the monitor loop, whole new state |
| Playback.Controller.OnSameTrack | src/server/workers.rs:87-124 | seek, resume, pause and silence, in the program's order |
| Playback.Controller.MaybePlayFile | src/server/workers.rs:169-177 | plays exactly when Spotify plays, no togedemon is live and the player is on |
| Playback.Controller.SwitchTo | src/server/workers.rs:180-186 | the cached file, or quiet unless live |
| Playback.Controller.OnPrepared | src/server/workers.rs:230-246 | a finished download plays if it is current and nothing streams |
| Playback.Controller.OnConnect | src/server/mod.rs:577-593 | refused while the player is off, else the live input replaces whatever streams |
| Playback.Controller.OnDisconnect | src/server/mod.rs:606-621 | back to the current track's file |
| Playback.Controller.OnSwitch | src/server/mod.rs:850-868 | on starts what is playing, off cuts everything |
| Playback.FileOnlyWhenItShould | src/server/workers.rs:33-196 | every run: a file streams only with the player on, no togedemon live, Spotify playing, and it is the current track's |
| Playback.PollDecidesFile | src/server/workers.rs:63-138 | exactly which file, from where, any poll of any run leaves streaming, with the 2.5 s and 3 s in numbers |
| Playback.StartPoint | src/server/workers.rs:24-30 | any step that starts a file starts the current track's where Spotify is, or at 0 within the first 2.5 s |
| Playback.SeekRestartsIff | src/server/workers.rs:87-104 | over any run: a poll restarts a playing file if and only if its progress is more than 3 s off what the poll before and the time since make |
| Playback.PollStartsFile | src/server/workers.rs:63-138 | after every poll that is playing, cached, enabled and not live, that track streams |
| Playback.OtherStartsFile | src/server/workers.rs:230-246 | so after a finished prepare, a disconnect or a switch-on |
| Playback.PollInterruptsIff | src/server/workers.rs:63-138 | from any state, a poll ends the listeners' pipe if and only if nothing is live and the track changed, playback was paused, or a file starts for a seek, a resume or silence |
| Playback.OthersInterruptIff | src/server/workers.rs:230-246 | what else ends the listeners' pipe, and when: prepares, connects, disconnects, switches, and nothing playing |
| Playback.ChangeBumpsGeneration | src/server/stream.rs:198-209 | the stream cannot change without the generation counting up |
| Playback.SplitPlaysAreRightIff | src/server/workers.rs:169-177 | with the poll's reading, the two readings of the check and the swap apart, over every run: files always stream only when they should if and only if no swap was overtaken, read off the events since each reading |
| Playback.FinishStartsRight | src/server/workers.rs:169-177 | a late swap starts the track that was read, where Spotify was then |
| Playback.SplitPlayBrokenByIff | src/server/workers.rs:169-177 | the events that, alone between check and swap, make the play wrong: a connect, a switch-off, or a poll that does not find the track playing; no others |
| Playback.WaitingPlaysAreSafeIff | src/server/workers.rs:169-177 | with no new plays begun: files will stream only when they should, whatever happens, if and only if no play of a playing track is waiting |
| Playback.ConnectDuringPlayIsWrong | src/server/mod.rs:585-593 | two runs from the start that go wrong: a togedemon connects between the two readings of a play's check, or between check and swap |
| Takeover.TokenSlot.Replace | src/server/mod.rs:585-591 | the newest push holds the slot and the previous one is cancelled |
| Takeover.TokenSlot.Release | src/server/mod.rs:606-613 | the slot is cleared unless the push finds itself cancelled |
| Takeover.TokenSlot.TakeAndCancel | src/server/mod.rs:861-863 | switching off empties the slot and cancels its holder |
| Takeover.SlotHoldsTheLiveOne | src/server/mod.rs:582-613 | every interleaving: the slot holds exactly the connected, uncancelled, unreleased push, and all others are cancelled |
| Takeover.ReleaseClearsOwnToken | src/server/mod.rs:606-613 | an uncancelled handler clears its own token, a cancelled one clears nothing |
| Takeover.StepKeepsPipeIff | src/server/mod.rs:585-615 | a step takes the pipe from the pushing handler if and only if it comes too late |
| Takeover.PushIsHeardIff | src/server/mod.rs:585-615 | a push on the current pipe will be heard for as long as it lasts, on every continuation, if and only if nobody else has a pipe left to start or to stop |
| Takeover.GoingLiveIsHeardIff | src/server/mod.rs:582-615 | the same of any push of any run at the moment it goes live |
| Takeover.LateStopCutsOffNewPush | src/server/mod.rs:606-615 | a run in which the stop of an ended push retires a newer push's pipe |
| Takeover.SlowStartCutsOffNewPush | src/server/mod.rs:585-593 | a run in which a superseded push retires its successor's pipe |
| Connections.PeerTable.UpdatePeer | src/server/mod.rs:135-143 | an update on an entry made if missing, dropped if idle |
| Connections.PeerTable.TakeStreamSlot | src/server/mod.rs:475-477 | a stream slot below ten, and what that does to the table |
| Connections.PeerTable.TakeSocketSlot | src/server/mod.rs:636-640 | the same for sockets |
| Connections.PeerTable.SetListening | src/server/websocket.rs:89-103 | the listening count up, or down when above zero |
| Connections.ListenersAreLiveBodies | src/server/stream.rs:178-195 | every interleaving: the listener count is the number of live bodies, at most 250 |
| Connections.PeersAreExact | src/server/mod.rs:124-149 | per address: counters exact, at most ten, listening at most sockets, an entry exactly while something is open |
| Connections.OpenedIff | src/server/mod.rs:145-149 | over any run: a stream or socket is admitted if and only if its address has fewer than ten of its kind |
| Connections.ListenedIff | src/server/stream.rs:178-189 | an admitted stream gets its body if and only if there are fewer than 250 |
| Connections.NoUnderflow | src/server/mod.rs:478-541 | no decrement underflows and no saturating one saturates |
| Connections.NothingLeaks | src/server/websocket.rs:49-78 | when everything an address opened is gone, so is its entry |
| CoverArt.FlacPictureFfmetadata | src/audio/mod.rs:168-196 | the buffers filled, truncated and escaped give the file of the picture block |
| CoverArt.CoverRoundTrip | src/audio/mod.rs:168-196 | unescaping, decoding and parsing the file gives back the image with its type and size, exactly when it is under 2^32 bytes |
| CoverArt.CoverFields | src/audio/mod.rs:169-184 | that picture: kind 3, no description, 24 bits, no palette, "image/png" for data starting 89 50 4E 47 and else "image/jpeg", the size if known and else 0 by 0 |
| CoverArt.BlockLayout | src/audio/mod.rs:174-186 | where the block keeps each field |
| CoverArt.U32Bytes | src/audio/mod.rs:177 | numbers are written highest byte first |
| CoverArt.FileText | src/audio/mod.rs:187-196 | the file's text around the encoded block |
| CoverArt.BlockRoundTrip | src/audio/mod.rs:174-186 | the block alone parses back (section 8.8 of RFC 9639) exactly when the image's length fits |
| CoverArt.DecodeEncode | src/audio/mod.rs:190 | base64 (section 4 of RFC 4648) decodes back for every byte string |
| CoverArt.SymbolCodes | src/audio/mod.rs:190 | the alphabet of section 4 of RFC 4648, in ASCII codes |
| CoverArt.GroupIsNumber | src/audio/mod.rs:190 | three bytes and their four symbols are the same 24-bit number |
| CoverArt.EncodeRest | src/audio/mod.rs:190 | groups of three from the front, the rest filled up with zeros and padded |
| CoverArt.EscapePadding | src/audio/mod.rs:191-195 | exactly the padding at the end is escaped |
| JpegWalk.ImageDimensions | src/audio/mod.rs:198-232 | the nested loops stay in bounds, end, and compute the recursive walk |
| JpegWalk.PngSizeIsHeaderSize | src/audio/mod.rs:199-203 | for every PNG start, whatever follows, the size is the one in its header chunk |
| JpegWalk.OtherHasNoSize | src/audio/mod.rs:199-205 | data that starts like neither has no size, nor a PNG cut off too early |
| JpegWalk.JpegWithoutFrame | src/audio/mod.rs:208-230 | a JPEG whose segments end at a scan, the end of the image, a missing marker or a length below 2, before such a frame, has no size |
| JpegWalk.JpegSizeIsFrameSize | src/audio/mod.rs:206-229 | for every JPEG of length-carrying segments with any fill bytes before its first SOF0-2, the size is that frame's |

## Left out

- Spotify, librespot, yt-dlp, togematch and cover downloads: a fetch is any of success, no source or failure.
- Metadata writes that fail, and metadata that does not parse other than as none at all: writes succeed.
- The in-memory streaming copies (`prewarm`, `ensure_stream_temp`, `prune_norm_cache`): subprocesses.
- Poll intervals, prefetching and the frames sent to web clients: they move no state modelled here.
- Configuration, routing, login, templates, the 1000-socket cap and the six-hour limit on one stream: small checks; any stream may end at any time here.
- tokio's broadcast internals: a ring of the capacities the program uses, which are powers of two. With no receiver at all the real ring does not advance, which no receiver can observe.
- OggPump.Pace: time is in ticks of the 48 kHz granule clock, so the conversion to floating-point seconds is not modelled; the start of pacing is the moment the headers are sent.
- OggPump.BaseWithinLimit: the product wraps as in a release build; a debug build panics instead.
- OggPage.EmptyTagsPage: page buffers are values, so growing and patching them in place is a new value.
- CacheManager.Manager.Put: sizes and totals are unbounded and sizes not negative, so overflow of the 64-bit total is not modelled.
- TrackFiles.FilesNeverSharedIff: supposes that no file is deleted from outside and that one download runs at a time, as the download lock ensures.
- Preparer.FollowerGetsLeadersPath: a follower may wake at any time, which covers its 60 s timeout; that the scheduler does run it is not modelled.
- Preparer.CooldownsAreKept: pruning and asking read one clock value in the protocol; the two readings are in `Preparer.TrackPreparer.RecentlyFailed`.
- Playback.FileOnlyWhenItShould: each poll, finished prepare, switch and (dis)connect is one step; the finer interleavings of plays are in `Playback.SplitPlaysAreRightIff`, those of pushes in `Takeover`.
- CoverArt.CoverRoundTrip: the reading direction follows the file format, not the code of ffmpeg.
- `playing_file` and the file's path and seek are one field in `Playback`, and the file of a track is named by the track.
