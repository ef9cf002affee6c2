# Hub state machines: a Dafny model

The hub keeps state in a handful of places: the history store with its cursors and its cache of
latest values, the cache of remote cursors, the plugin launcher, the provisioning service, the
address and permission lists of the message bus, and a small change tracker. This project models
them and proves what holds over all inputs, all runs and all interleavings of their locked
sections. `dafny verify dfyconfig.toml` checks everything.

| file | what it models |
|---|---|
| Text.dfy | splitting and joining, number printing and parsing, byte order of keys |
| Messages.dfy | the message types and the event name of property maps |
| HistoryCodec.dfy | the key `timestamp/name/a\|c\|e/sender`: encoding, decoding, order |
| Buckets.dfy | a bucket's contents and its positioned cursor over a snapshot |
| HistoryScan.dfy | what filtered, time-limited scans and batches yield, without strings |
| ReadHistory.dfy | the cursor service on real keys: loops, single steps, batches, Seek |
| LatestProperties.dfy | the cache of the newest value per name; newest wins |
| WriteBack.dfy | saving that cache while values arrive, as interleaved steps |
| AddHistory.dfy | retention gate, single and bulk adds |
| HistoryIndex.dfy | what buckets, cursors and cache hold after every run, and when they agree |
| CursorCache.dfy | remote cursors, their owners and the background sweep |
| Launcher.dfy, LauncherHistory.dfy | starting, exiting and stopping plugins; what the history says of them |
| LauncherService.dfy | the same on the slice that exit handlers and StopAllPlugins share |
| Provisioning.dfy | provisioning requests over all runs |
| Addressing.dfy | building, splitting and NATS matching of addresses |
| Permissions.dfy, ReservedSubjects.dfy | role tables expanded to lists; inbox and stream subjects |
| PropertyValues.dfy | change tracking with a consumer |

How it is modelled. Objects that the source updates in place are classes whose methods are proved
equal to functions on their contents; the theorems are about those functions. Concurrent parts are
state machines with one atomic step per locked section; the methods are those sections. Clock
readings, the auth service's answer, whether a process starts, and the order of map iteration are
parameters or left arbitrary. Go strings are compared by bytes, which for UTF-8 is code point
order. Timestamps are 64-bit; the cursor counter wraps at 2^64; `time.Sub` saturates.

Where the code does not do what is expected of it, the code is modelled as it is, a concrete case
is given, and the exact condition is proved:

- Key order follows time for two timestamps exactly when the earlier is at most the equally long
  prefix of the later (`KeyOrderExact`); 9 and 10 fail (`KeyOrderFailsAcrossWidths`). So after a run
  the cache and a filtered Last agree on the time exactly when every earlier value of the name
  passes that test against the newest (`IndexAgreesWithScan`); with one width, as today's 13 digits,
  all do (`OneWidthSortsBefore`), and a run at 9 and 10 ms does not (`MixedWidthsDisagree`).
- Decoding undoes encoding exactly for slash-free fields and the three known types (`RoundTrip`);
  a name with a slash comes back cut off (`NameIsCut`). Such a key has more than four parts: a
  single step shows it under the cut name, a scan skips it (`NextExact`, `OddKeyIsSkipped`).
- Key and cache date an added value alike exactly when its creation time is not negative, or two
  clock readings happen to coincide (`StampsAgreeExactly`); a value at -1 ms can get two different
  times (`NegativeTimeDisagrees`).
- Two overlapping calls of SaveChanges can overwrite a newer record with an older one and leave
  it unflagged (`TwoSaversLoseAnUpdate`); saving is safe in all runs exactly when saves do not
  overlap (`SafeIffOneSaver`).
- The sweeper can release a cursor that is not expired (`UsedCursorCanBeSwept`): what it releases
  is expired exactly when the owner did not use it since the sweeper's snapshot, or used it longer
  ago than its lifespan (`SweptIsExpiredExactly`). A cursor that was never used counts as expired at
  once, unless its lifespan is the largest there is (`NeverUsedIsExpired`).
- GetValues of the change tracker drops changes in a second unlocked step (`ChangeIsLost`): nothing
  is lost exactly when every name set in between ends with the value it had (`SplitGetValuesExact`).
- An approval without a public key makes the auth service register an empty key
  (`EmptyKeyIsRegistered`), and a rejection does not withdraw an approval
  (`RejectedAfterApprovalGetsToken`); who is registered with what is exactly known from the history
  (`TokenExactly`).
- StopAllPlugins misses what is started meanwhile: if nothing exits, exactly the commands listed at
  its start are stopped (`StopAllPlugins`).

Where code and comments disagree the code is followed: StopAllPlugins says it uses a copy of the
command list but walks an alias of it; NextN says itemsRemaining is false at the end, but it is
true whenever the batch is full; PrevN's comment states the flag the other way round; the empty
message type of a role permission is documented as all types but means `event`; the role matrix in
the comments gives administrators no configuration and RPC rights and services all publish rights,
the tables give administrators both and services only events of their own.

## Model

| member | source | states |
|---|---|---|
| Text.JoinSplit | done_mod/mod_hist/hist_srv/HistoryCursor.go:41-45 | strings.Split loses nothing: joining the parts gives the string back and no part holds the separator |
| Text.SplitJoin | done_cli/cli_done/HubClient.go:99-109 | splitting undoes joining when no part holds the separator |
| Text.ParseFormat | done_mod/mod_hist/hist_srv/HistoryCursor.go:46-46 | ParseInt undoes FormatInt on every 64-bit number, for the full error behaviour of ParseInt |
| Text.ParseExactly | done_mod/mod_hist/hist_srv/HistoryCursor.go:46-46 | what ParseInt yields for every string when its error is dropped: the nearest 64-bit number, zero, or a bound |
| Text.FormatUintInjective | done_tool/buckets/CursorCache.go:64-66 | numbers of any size printed in base 10 or in base 16 are told apart by their text |
| Text.EqualWidthOrder | done_mod/mod_hist/hist_srv/AddHistory.go:39-41 | at one width, text order of numbers is number order, both directions |
| Text.StampOrder | done_mod/mod_hist/hist_srv/AddHistory.go:39-41 | exact text order of any two timestamps followed by a slash, of equal width or not |
| HistoryCodec.EncodedKeyShape | done_mod/mod_hist/hist_srv/AddHistory.go:28-52 | an encoded key has at least four parts, exactly four iff name and sender are slash-free; its time, name and type mark read back |
| HistoryCodec.RoundTrip | done_mod/mod_hist/hist_srv/HistoryCursor.go:39-79 | decodeValue of the encoded key gives the value back iff its fields are slash-free and its type is action, config or event |
| HistoryCodec.NameIsCut | done_mod/mod_hist/hist_srv/HistoryCursor.go:42-59 | any name with a slash decodes to its part before the first slash |
| HistoryCodec.RoundTripStamped | done_mod/mod_hist/hist_srv/AddHistory.go:30-41 | a value without a positive timestamp reads back dated by the clock |
| HistoryCodec.KeyInjective | done_mod/mod_hist/hist_srv/AddHistory.go:39-49 | slash-free values share a key iff timestamp, name, type mark and sender agree |
| HistoryCodec.KeyOrderFollowsTime | done_mod/mod_hist/hist_srv/AddHistory.go:39-49 | among keys of one timestamp width, key order refines time order |
| HistoryCodec.KeyOrderExact | done_mod/mod_hist/hist_srv/AddHistory.go:39-49 | without the width condition, the exact condition for two keys to be in time order |
| HistoryCodec.KeyOrderFailsAcrossWidths | done_mod/mod_hist/hist_srv/AddHistory.go:39-49 | the key of 9 ms sorts after the key of 10 ms |
| HistoryCodec.SeekKeyOrder | done_mod/mod_hist/hist_srv/HistoryCursor.go:357-361 | a key is at or after the bare printed search time iff its timestamp is |
| Buckets.SnapshotUnique | done_tool/buckets/IBucketStore.go:56-116 | a bucket's contents fix its listing in key order |
| Buckets.BucketCursor.constructor | done_tool/buckets/IBucketStore.go:62-66 | a cursor iterates a snapshot: every document once, in key order |
| Buckets.BucketCursor.First | done_tool/buckets/IBucketStore.go:110-112 | positions at the first key; nothing in an empty bucket |
| Buckets.BucketCursor.Last | done_tool/buckets/IBucketStore.go:114-116 | positions at the last key; nothing in an empty bucket |
| Buckets.BucketCursor.Next | done_tool/buckets/IBucketStore.go:118-121 | moves one key on; nothing at the end |
| Buckets.BucketCursor.Prev | done_tool/buckets/IBucketStore.go:130-133 | moves one key back; nothing at the beginning |
| Buckets.BucketCursor.Seek | done_tool/buckets/IBucketStore.go:146-149 | positions at the first key not below the search key |
| HistoryScan.ScanNextExact | done_mod/mod_hist/hist_srv/HistoryCursor.go:90-121 | a forward scan hits the first entry of the name with all before it within the limit, or stops on the first entry past the limit |
| HistoryScan.ScanPrevExact | done_mod/mod_hist/hist_srv/HistoryCursor.go:131-161 | the same backwards |
| HistoryScan.ResumeNext | done_mod/mod_hist/hist_srv/HistoryCursor.go:105-112 | a scan stopped on a limit, called again with a later limit, ends as one call with the later limit |
| HistoryScan.ResumePrev | done_mod/mod_hist/hist_srv/HistoryCursor.go:145-152 | the same backwards with an earlier limit |
| HistoryScan.ResumeWindows | done_mod/mod_hist/hist_srv/HistoryCursor.go:81-89 | any rising sequence of windows without a match is as good as its last limit |
| HistoryScan.NextExact | done_mod/mod_hist/hist_srv/HistoryCursor.go:230-243 | Next fails on an adjacent key that cannot be decoded, shows the adjacent entry if its name is the filter's, even one that scans skip; else it finds the next match iff nothing up to it is later than the call, and otherwise stops on the limit |
| HistoryScan.PrevExact | done_mod/mod_hist/hist_srv/HistoryCursor.go:279-303 | the same for Prev, whose limit is the year 1 |
| HistoryScan.OddKeyIsSkipped | done_mod/mod_hist/hist_srv/HistoryCursor.go:90-121 | a key of more than four parts is shown by a step onto it and skipped by a scan |
| HistoryScan.NextBatchCall | done_mod/mod_hist/hist_srv/HistoryCursor.go:255-275 | the i-th value of a batch is that of the i-th Next, made from the one before |
| HistoryScan.NextBatchEnd | done_mod/mod_hist/hist_srv/HistoryCursor.go:255-275 | a full batch ends on its last hit, a shorter one with a Next that fails |
| HistoryScan.PrevBatchCall | done_mod/mod_hist/hist_srv/HistoryCursor.go:309-329 | the same for PrevN |
| HistoryScan.PrevBatchEnd | done_mod/mod_hist/hist_srv/HistoryCursor.go:309-329 | the same for PrevN |
| HistoryScan.NextNCompose | done_mod/mod_hist/hist_srv/HistoryCursor.go:255-275 | NextN(a) full, then NextN(b), equals NextN(a+b): values and position, whatever the clocks |
| HistoryScan.PrevBatchCompose | done_mod/mod_hist/hist_srv/HistoryCursor.go:309-329 | the same for PrevN |
| HistoryScan.ForwardTraversal | done_mod/mod_hist/hist_srv/HistoryCursor.go:164-275 | First then NextN, or a step and NextN from any position, yields exactly the filtered listing from there in key order, each once, if nothing is later than the calls |
| HistoryScan.BackwardTraversal | done_mod/mod_hist/hist_srv/HistoryCursor.go:191-329 | Last then PrevN yields the exact reverse, with no condition on the clock |
| HistoryScan.MatchesMeaning | done_mod/mod_hist/hist_srv/HistoryCursor.go:99-118 | the filtered listing holds exactly the selected entries, strictly ascending |
| ReadHistory.EncodedRow | done_mod/mod_hist/hist_srv/HistoryCursor.go:99-103 | scans consider an encoded key, with its name and time, iff name and sender are slash-free |
| ReadHistory.ShortRow | done_mod/mod_hist/hist_srv/HistoryCursor.go:42-59 | a key without a sender is skipped by scans, one without a slash cannot be decoded |
| ReadHistory.FindNextName | done_mod/mod_hist/hist_srv/HistoryCursor.go:90-121 | the loop with its undo step over any keys: position of the scan, and the data, time, name, type, sender, agent and thing of the entry found |
| ReadHistory.FindPrevName | done_mod/mod_hist/hist_srv/HistoryCursor.go:131-161 | the backward loop over any keys: position of the scan, and every field of the entry found |
| ReadHistory.CurrentValue | done_mod/mod_hist/hist_srv/HistoryCursor.go:39-79 | decoding the entry under the cursor fails iff its key has fewer than three parts, and otherwise yields the entry's data and every field its key and bucket spell out |
| ReadHistory.First | done_mod/mod_hist/hist_srv/HistoryCursor.go:164-188 | position of a Next from before the first entry, and every field of the entry shown, for any keys that decodeValue does not panic on; no reply at all for an empty bucket |
| ReadHistory.Last | done_mod/mod_hist/hist_srv/HistoryCursor.go:191-219 | position of a Prev from after the last entry, and every field of the entry shown, for the same keys |
| ReadHistory.Next | done_mod/mod_hist/hist_srv/HistoryCursor.go:223-249 | one unlimited step, then a limited scan if the name differs; every field of the entry shown |
| ReadHistory.Prev | done_mod/mod_hist/hist_srv/HistoryCursor.go:279-303 | the same backwards |
| ReadHistory.NextN | done_mod/mod_hist/hist_srv/HistoryCursor.go:255-275 | the values, field by field, and the position of the batch; itemsRemaining iff the batch is full |
| ReadHistory.PrevN | done_mod/mod_hist/hist_srv/HistoryCursor.go:309-329 | the same backwards |
| ReadHistory.Seek | done_mod/mod_hist/hist_srv/HistoryCursor.go:341-379 | position from the first key not below the printed time, and every field of the entry shown |
| ReadHistory.SeekCutsInTime | done_mod/mod_hist/hist_srv/HistoryCursor.go:357-361 | with one timestamp width, the entries from the found position on are exactly those at or after t |
| ReadHistory.SeekTraversal | done_mod/mod_hist/hist_srv/HistoryCursor.go:341-379 | Seek(t) then NextN enumerates exactly the selected entries from t on |
| LatestProperties.LatestPropertiesStore.LoadProps | done_mod/mod_hist/hist_srv/LatestPropertiesStore.go:34-58 | loads a record once; a missing one is empty |
| LatestProperties.LatestPropertiesStore.GetProperties | done_mod/mod_hist/hist_srv/LatestPropertiesStore.go:64-90 | the whole cached map, or exactly the requested names that are cached |
| LatestProperties.LatestPropertiesStore.TakeEach | done_mod/mod_hist/hist_srv/LatestPropertiesStore.go:115-127 | unpacked properties are merged with the same result in any iteration order |
| LatestProperties.LatestPropertiesStore.HandleAddValue | done_mod/mod_hist/hist_srv/LatestPropertiesStore.go:95-137 | the cache, flags and records after an add, field by field, including undated values, property maps and unreadable payloads |
| LatestProperties.AddExactly | done_mod/mod_hist/hist_srv/LatestPropertiesStore.go:95-137 | of a value or a property map each name is cached with its own data, the type event and the sender and time of the message iff it was absent or older; every other name, thing and record is as it was |
| LatestProperties.LatestPropertiesStore.SaveChanges | done_mod/mod_hist/hist_srv/LatestPropertiesStore.go:141-179 | every flagged cached thing is persisted, no flag remains, the cache is untouched |
| LatestProperties.NewestWins | done_mod/mod_hist/hist_srv/LatestPropertiesStore.go:95-137 | a name is cached iff it was offered, and holds the earliest arrival among those with the greatest timestamp |
| LatestProperties.OrderFree | done_mod/mod_hist/hist_srv/LatestPropertiesStore.go:115-134 | arrivals in any order and with repetitions build the same cache when equal times mean equal values |
| LatestProperties.TieKeepsFirst | done_mod/mod_hist/hist_srv/LatestPropertiesStore.go:129-134 | for two different values of one name and time, the order does matter |
| WriteBack.OneSaverIsSafe | done_mod/mod_hist/hist_srv/LatestPropertiesStore.go:34-179 | over all interleavings with one saver, an unflagged cached thing equals its record or is in flight unchanged, and flagged things are cached |
| WriteBack.MissingPropertiesUnreachable | done_mod/mod_hist/hist_srv/LatestPropertiesStore.go:159-163 | the branch for a flagged thing without properties is never entered |
| WriteBack.QuietMeansPersisted | done_mod/mod_hist/hist_srv/LatestPropertiesStore.go:34-58 | with no record in flight, a fresh load of an unflagged thing reproduces the cache |
| WriteBack.SaveAlone | done_mod/mod_hist/hist_srv/LatestPropertiesStore.go:141-179 | the steps of one save with nothing between persist all its things and lower their flags |
| WriteBack.SaveThenReload | done_mod/mod_hist/hist_srv/LatestPropertiesStore.go:141-179 | from any state of any run with one saver, an uninterrupted save ends with the same cache and no flags, and a fresh load of its records reproduces the cache of every thing |
| WriteBack.TwoSaversLoseAnUpdate | done_mod/mod_hist/hist_srv/LatestPropertiesStore.go:155-176 | a run of two savers that overwrites a newer record with an older one |
| WriteBack.SafeIffOneSaver | done_mod/mod_hist/hist_srv/LatestPropertiesStore.go:141-179 | every reachable state is safe iff at most one save runs at a time |
| AddHistory.RetainedExactly | done_mod/mod_hist/hist_srv/ManageHistory.go:33-75 | a value is retained iff there are no rules, or the first rule of its name for its agent and thing retains it, or there is none and the first such rule for any name retains it |
| AddHistory.KeptExactly | done_mod/mod_hist/hist_srv/AddHistory.go:170-191 | a value is kept iff agent, thing and name are given and the rules retain it, refused iff one of them is missing, and at most its time is set |
| AddHistory.NotKeptChangesNothing | done_mod/mod_hist/hist_srv/AddHistory.go:92-100 | a value that is not kept changes no bucket and nothing in the cache |
| AddHistory.AddHistory.AddMessage | done_mod/mod_hist/hist_srv/AddHistory.go:86-123 | buckets and cache after one add; fails iff agent, thing or name is missing; nothing changes unless the value is kept |
| AddHistory.AddHistory.AddMessages | done_mod/mod_hist/hist_srv/AddHistory.go:127-165 | bulk equals one by one in every bucket and the cache; an incomplete value leaves all buckets untouched but the earlier values cached |
| AddHistory.AddHistory.GroupByThing | done_mod/mod_hist/hist_srv/AddHistory.go:134-157 | the grouped documents overlaid on the old buckets are the buckets of adding one by one |
| AddHistory.AddHistory.WriteGroups | done_mod/mod_hist/hist_srv/AddHistory.go:158-163 | writing the groups thing by thing in any order overlays every bucket |
| HistoryIndex.RunMirrors | done_mod/mod_hist/hist_srv/AddHistory.go:86-123 | over every run from empty stores of slash-free values with a positive time, each bucket holds exactly the keys of its thing's kept values with the last data of each, and the cache is that of the kept values |
| HistoryIndex.LastIsGreatestKey | done_mod/mod_hist/hist_srv/HistoryCursor.go:191-219 | Last with a filter finds the kept value of that name with the greatest key, and nothing iff there is none |
| HistoryIndex.IndexAgreesWithScan | done_mod/mod_hist/hist_srv/LatestPropertiesStore.go:95-137 | the cache holds a name iff Last filtered on it is valid; what it returns has the same timestamp iff every earlier value's key sorts before the newest; then, if no two values share name and time, it is the same value iff the key format can carry it |
| HistoryIndex.OneWidthSortsBefore | done_mod/mod_hist/hist_srv/AddHistory.go:39-41 | with timestamps of one width every earlier value sorts before the newest |
| HistoryIndex.MixedWidthsDisagree | done_mod/mod_hist/hist_srv/AddHistory.go:39-49 | a run with values at 9 and 10 ms after which Last and the cache disagree on the newest |
| HistoryIndex.HistoryReturnsKept | done_mod/mod_hist/hist_srv/HistoryCursor.go:164-329 | after any run, what First then NextN filtered on a name returns are the kept values of that name, once per key, each with the data, time, name, sender and type of the last kept under it, in key order |
| HistoryIndex.HistoryReturnsKeptBack | done_mod/mod_hist/hist_srv/HistoryCursor.go:191-329 | the same for Last then PrevN in descending order |
| HistoryIndex.ReadHistoryOf | done_mod/mod_hist/hist_srv/HistoryCursor.go:164-275 | the same of the values the calls First and NextN return |
| HistoryIndex.ReadHistoryBack | done_mod/mod_hist/hist_srv/HistoryCursor.go:191-329 | the same of the values the calls Last and PrevN return |
| HistoryIndex.ReadLast | done_mod/mod_hist/hist_srv/HistoryCursor.go:191-219 | the value returned by Last against the cached one |
| HistoryIndex.HistoryInTimeOrder | done_mod/mod_hist/hist_srv/AddHistory.go:39-49 | with timestamps of one width the listing after any run is in time order |
| HistoryIndex.StoredKeysReadable | done_mod/mod_hist/hist_srv/HistoryCursor.go:42-59 | every stored key of every run has four parts if the kept values have slash-free names and senders, whatever their times and types, so decodeValue cannot index out of range |
| HistoryIndex.StampsAgreeExactly | done_mod/mod_hist/hist_srv/AddHistory.go:30-40 | in any state, the key of an added value and the value offered to the cache carry the same time iff its creation time is not negative or two clock readings coincide |
| HistoryIndex.NegativeTimeDisagrees | done_mod/mod_hist/hist_srv/AddHistory.go:30-40 | a value at -1 ms stored under one time and offered to the cache at another |
| CursorCache.CursorCache.Add | done_tool/buckets/CursorCache.go:59-76 | the table and the key after an add, with a counter that wraps at 2^64 |
| CursorCache.CursorCache.Get | done_tool/buckets/CursorCache.go:84-107 | the cursor only for its owner; refreshes the use time on request |
| CursorCache.CursorCache.GetExpiredCursors | done_tool/buckets/CursorCache.go:111-126 | exactly the held cursors that are expired, each once |
| CursorCache.CursorCache.Release | done_tool/buckets/CursorCache.go:146-170 | removes and frees the cursor if the client owns it |
| CursorCache.KeysRepeat | done_tool/buckets/CursorCache.go:64-66 | two generated keys coincide iff a multiple of 2^64 adds lies between them |
| CursorCache.Conservation | done_tool/buckets/CursorCache.go:59-193 | in every run of at most 2^64 adds keys never repeat and each cursor is held or was released exactly once |
| CursorCache.GetOnlyByOwner | done_tool/buckets/CursorCache.go:84-107 | what Get answers, from the calls of the run: the cursor the client added under that key, refused if another client added it, not found if it was never added or was released |
| CursorCache.AddedLog | done_tool/buckets/CursorCache.go:59-76 | every cursor logged holds the cursor, owner and lifespan of its call, and was not used yet |
| CursorCache.ReleaseOnlyByOwner | done_tool/buckets/CursorCache.go:146-170 | a Release frees a cursor iff the client added it under that key and it was not released before |
| CursorCache.SweepReleasesOnlySeen | done_tool/buckets/CursorCache.go:173-193 | the sweeper releases only the very cursor of its snapshot, never one added later |
| CursorCache.NeverUsedIsExpired | done_tool/buckets/CursorCache.go:119-124 | a cursor never used is expired at a time after 1970 iff its lifespan is below the largest duration |
| CursorCache.UsedCursorCanBeSwept | done_tool/buckets/CursorCache.go:184-190 | a run in which the sweep releases a cursor that is not expired at that moment |
| CursorCache.SweptIsExpired | done_tool/buckets/CursorCache.go:184-190 | in every reachable state the cursor about to be freed is expired at a time since the snapshot iff its use time is unchanged or longer ago than its lifespan |
| CursorCache.SweptIsExpiredExactly | done_tool/buckets/CursorCache.go:173-193 | over every run, a swept cursor is expired when freed iff its owner did not use it between snapshot and release, or last used it longer ago than its lifespan |
| CursorCache.HeldSince | done_tool/buckets/CursorCache.go:84-107 | over every run, a cursor still held is the same one, last used when its owner last asked to record a use |
| Launcher.RunKeepsInv | done_mod/mod_run/run_srv/StartStopPlugins.go:27-171 | over all interleavings: no shared path, startup order, each unreaped process listed exactly once, running implies a listed process |
| Launcher.ExitsInRange | done_mod/mod_run/run_srv/StartStopPlugins.go:167-170 | the deletion in every exit handler is in range and removes the only listing of its process |
| LauncherHistory.RunTells | done_mod/mod_run/run_srv/StartStopPlugins.go:27-171 | over every run: a plugin is running iff the last of its launches, exits and stops is a launch; the commands listed are exactly the processes launched and not exited |
| LauncherHistory.OutcomeExactly | done_mod/mod_run/run_srv/StartStopPlugins.go:31-60 | what a start answers, from the history of the run alone |
| LauncherHistory.StartTwice | done_mod/mod_run/run_srv/StartStopPlugins.go:126-140 | a start that launches lists one new process of the plugin's path, changes no other plugin, and the next start answers that it is running |
| LauncherHistory.NoLaunchChangesNothing | done_mod/mod_run/run_srv/StartStopPlugins.go:31-60 | any other start changes nothing |
| LauncherService.LauncherService.StartPlugin | done_mod/mod_run/run_srv/StartStopPlugins.go:27-188 | the state and outcome of a start, for all its failures and for a process that ends with an error within the first 100 ms; which array slots it may touch |
| LauncherService.LauncherService.DeleteAt | done_mod/mod_run/run_srv/StartStopPlugins.go:168-170 | deletion shifts the shared array in place and keeps the stale last slot |
| LauncherService.LauncherService.HandleExit | done_mod/mod_run/run_srv/StartStopPlugins.go:144-171 | the state after an exit handler and what it did to the array |
| LauncherService.LauncherService.StopPlugin | done_mod/mod_run/run_srv/StartStopPlugins.go:264-289 | the second phase only clears the running flag |
| LauncherService.LauncherService.StopAllPlugins | done_mod/mod_run/run_srv/StartStopPlugins.go:237-262 | with exits and starts between any iterations, every command listed at the start and still listed was stopped, except one whose path ends in the excluded core's name; without starts first stops come in reverse startup order; without exits exactly the commands listed at the start are stopped |
| Provisioning.ManageIdProvService.ApproveRequest | done_mod/mod_prov/prov_srv/ManageIdProvService.go:32-50 | the requests after an approval; fails iff the client is unknown |
| Provisioning.ManageIdProvService.RejectRequest | done_mod/mod_prov/prov_srv/ManageIdProvService.go:100-116 | the requests after a rejection; fails iff the client is unknown |
| Provisioning.ManageIdProvService.PreApproveClients | done_mod/mod_prov/prov_srv/ManageIdProvService.go:74-97 | each named approval replaces the record, the last one wins |
| Provisioning.ManageIdProvService.SubmitRequest | done_mod/mod_prov/prov_srv/ManageIdProvService.go:123-196 | the stored status, the auth call and the token, for every branch |
| Provisioning.ManageIdProvService.GetRequests | done_mod/mod_prov/prov_srv/ManageIdProvService.go:55-71 | exactly the wanted records, each once; all of them when all flags are set |
| Provisioning.RunHistory | done_mod/mod_prov/prov_srv/ManageIdProvService.go:32-196 | over all runs, each field of a record from the history: known iff submitted or pre-approved, credentials and type on file, times of the last approval, of the last rejection since and of the last submission that did not fail, pending iff no decision stands, retry delay min(60+30(k-1), 600) after k submissions, or 3600 after a submission while rejected |
| Provisioning.RunKeepsInv | done_mod/mod_prov/prov_srv/ManageIdProvService.go:32-196 | every record of every run sits under its own client ID and is pending, approved or rejected, so GetRequests with all flags returns it |
| Provisioning.ApprovalStays | done_mod/mod_prov/prov_srv/ManageIdProvService.go:99-116 | approval never reverts, whatever follows |
| Provisioning.AuthCallsAreApproved | done_mod/mod_prov/prov_srv/ManageIdProvService.go:143-174 | the auth service is called only for a client approved earlier, with the stored key, which is the submitted one iff it is not empty |
| Provisioning.TokenExactly | done_mod/mod_prov/prov_srv/ManageIdProvService.go:143-174 | from the history alone: a token is asked for iff the client was ever approved, brings a key and agrees with key and address on file as far as given, and for which type and key; and when a submission fails |
| Provisioning.EmptyKeyIsRegistered | done_mod/mod_prov/prov_srv/ManageIdProvService.go:74-174 | a run in which a client that brings a key is registered with an empty one |
| Provisioning.RejectedAfterApprovalGetsToken | done_mod/mod_prov/prov_srv/ManageIdProvService.go:99-174 | a run in which a rejected client gets a token |
| Addressing.AddressIsSubject | done_cli/cli_done/HubClient.go:74-101 | MakeAddress with the NATS tokens equals MakeSubject |
| Addressing.SplitInvertsMake | done_cli/cli_done/HubClient.go:103-131 | SplitAddress undoes MakeAddress iff the type does not begin with the inbox prefix |
| Addressing.InboxAddress | done_cli/cli_done/HubClient.go:103-131 | of an inbox address exactly type and agent come back |
| Addressing.OtherAddress | done_cli/cli_done/HubClient.go:103-131 | any other address fails iff it has fewer than four fields; the fifth is the sender |
| Addressing.SplitSubjectInverts | done_cli/cli_done/transport/subjects.go:54-68 | SplitSubject undoes MakeSubject for full subjects |
| Addressing.RoutingExact | done_cli/cli_done/transport/subjects.go:19-44 | a published subject matches a subscription iff the types agree and every given field is equal |
| Permissions.NatsAuth.SetServicePermissions | done_mod/mod_bus/bus_srv/NatsAuth.go:286-306 | appends the service's entry to each given role |
| Permissions.NatsAuth.MakePermissions | done_mod/mod_bus/bus_srv/NatsAuth.go:202-277 | the allow and deny lists of a client for known, empty and unknown roles |
| Permissions.ListsMeanTable | done_mod/mod_bus/bus_srv/NatsAuth.go:223-265 | for any table, the lists admit a hub message iff an entry covers it, and for publishing iff also the sender is the client |
| Permissions.NoListMeansNone | done_mod/mod_bus/bus_srv/NatsAuth.go:224-275 | an unknown or empty role admits no hub message |
| Permissions.GrantsMeanHistory | done_mod/mod_bus/bus_srv/NatsAuth.go:286-306 | after any history of calls a role holds exactly one publish entry of type rpc per call that names it, for the service and capability of that call |
| Permissions.DefaultListsMeanTable | done_mod/mod_auth/auth_api/ManageRolesAPI.go:80-158 | for every default role and every history of grants, in the message's fields: publishable iff the sender is the client and the role's table has it or a call granted the role that service and capability; receivable iff the table has it |
| ReservedSubjects.ReservedRights | done_mod/mod_bus/bus_srv/NatsAuth.go:218-275 | for every role: any inbox may be published to and only the own one received; the default roles may call for the event stream, an admin for the server info; unknown roles are denied consumers and streams |
| Permissions.UserEntries | done_mod/mod_auth/auth_api/ManageRolesAPI.go:100-128 | the tables of viewer, operator, manager and admin in plain words, for publishing and receiving |
| Permissions.AgentEntries | done_mod/mod_auth/auth_api/ManageRolesAPI.go:79-147 | the tables of devices and services in plain words, for publishing and receiving |
| Permissions.RolesGrow | done_mod/mod_auth/auth_api/ManageRolesAPI.go:100-128 | with equal grants, rights grow along viewer, operator, manager, admin |
| PropertyValues.PropertyValues.SetValue | done_tool/things/PropertyValues.go:75-83 | only a new name or a different value is recorded as latest and changed |
| PropertyValues.PropertyValues.GetChanged | done_tool/things/PropertyValues.go:58-71 | the pending changes, cleared on request |
| PropertyValues.PropertyValues.GetValues | done_tool/things/PropertyValues.go:27-35 | the changes or all values, always clearing the changes |
| PropertyValues.RunConserves | done_tool/things/PropertyValues.go:27-83 | over every run of atomic operations the consumer's map overlaid with the pending changes is the latest |
| PropertyValues.RunTracks | done_tool/things/PropertyValues.go:58-83 | over every run a name holds the value last set, and is pending iff it was set to another value since the changes were taken |
| PropertyValues.SplitGetValuesExact | done_tool/things/PropertyValues.go:27-35 | with sets between the two steps of GetValues, nothing is lost iff every name set ends with the value it had |
| PropertyValues.ChangeIsLost | done_tool/things/PropertyValues.go:27-35 | a run in which a change is neither read nor pending |

## Left out

- The bolt database behind the buckets: its cursor is not part of this model, and no claim depends on Prev after running off the end or Next after running off the beginning; a bucket that was never written counts as empty, where bolt refuses a cursor on it.
- Failed bucket writes: AddMessage updates the cache even when Set fails; writes are taken to succeed.
- JSON encoding: records are kept as values, so the branch for a record that cannot be decoded is not modelled; a property payload is unpacked by an arbitrary function.
- Aliasing of values: GetProperties hands out the live cached map and the cache keeps pointers to the added messages; the model copies.
- ReadHistory.Next: the lookup of the cursor in the cursor cache by key and owner is not repeated in each service call; the cursor is taken to be live and owned.
- LauncherService.LauncherService.StopAllPlugins: when both exits and starts happen during the walk, which of the newly started commands it reaches is not described; the commands listed at its start are covered in every case.
- ReadHistory.First: keys of exactly two parts, on which decodeValue panics, are excluded for this and the other reading calls; StoredKeysReadable shows that adds never store one for slash-free values.
- HistoryIndex.RunMirrors: values with a negative time or a slash in name or sender are left to StampsAgreeExactly and EncodedKeyShape.
- LauncherService.LauncherService.StartPlugin: log files, credentials, status texts, process statistics and PIDs are not modelled.
- Sharing of slice capacity between the role tables and the append of service permissions: role lists are immutable sequences.
- The stop channel of the cursor sweeper, GetCursorsByOwner and closing of buckets.
- SetRetentionRules and the maximum age of rules: they only rewrite rule names or are never applied.
- Directory, state and auth services, certificates, tokens, NATS connections, the web UI and the command line: mostly single-map updates or wrappers, which would only add easy members.
