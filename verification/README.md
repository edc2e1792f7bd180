# Item composition service: models and proofs

A Dafny model of the caches, the template refresh, the template composition engine, the configuration merge, the
log sink and the provider retry loop of the item composition service, with proofs about whole runs of them.

| file | what it models |
|---|---|
| CacheTypes.dfy, Collections.dfy | the key and value types the caches are generic in; optional values and parts of sequences |
| RecencyList.dfy | the doubly linked recency list: a ring closed by a sentinel |
| LruSpec.dfy, LruCache.dfy | the LRU cache as an ordered sequence; the class with its map, list and pool, proved against it |
| LruRuns.dfy, LruRecency.dfy, LruReplay.dfy | theorems over runs: inclusion of a smaller cache in a larger one, recency, clean-up; that every run of the class is such a run |
| BackgroundCache.dfy | the background cache: entries updated in place and recycled |
| TemplateSources.dfy, TemplateUpdaters.dfy | what a pass over directory or Mongo does, and the updaters with their fallback, proved against it |
| TemplateEntries.dfy, TemplateAges.dfy, TemplateCache.dfy | what an update makes of one entry, how long a template can be missing, and the cache over whole runs |
| RefreshProtocol.dfy, RefreshRuns.dfy | source writes, updaters and clean-ups interleaved step by step; that the passes of the code are runs of these steps |
| GoValues.dfy, TemplateSemantics.dfy, TemplateRules.dfy, TemplateLaws.dfy | JSON-like trees in memory; what templates render to, entry by entry; laws of composition |
| TemplateEngine.dfy, TemplateComposer.dfy, TemplateLibrary.dfy | the rendering itself, over mutable maps shared by reference, watched for merges that alter a template, the item or an answer |
| TemplateResults.dfy | the laws of composition, of results in memory |
| TwoTemplates.dfy, TemplateRewriting.dfy, TemplateSharing.dfy | lists of two templates: one whose second rendering differs from its first, one on which the laws fail |
| ConfigMerge.dfy, ConfigMergeInPlace.dfy | the configuration merge as a function with its laws; the in-place recursion on shared maps |
| ElasticSink.dfy | the log sink as a step system |
| RetryLoop.dfy | the retry loop with its capped backoff |

## What the code does where one might expect otherwise

- The LRU lookup drops a record that is *younger* than the time to live (pkg/cache/lru.go:77) while its clean-up drops
  those that are older (pkg/cache/lru.go:110). The run theorems hold for any two drop rules; `LruRuns.ServedAtExactAge`
  says what the two rules of the code amount to together.
- An LRU cache of negative capacity holds one record (pkg/cache/lru.go:54-59).
- A background lookup of a key that is not held dereferences a nil entry (pkg/cache/background.go:51-52); the model
  returns this as an outcome of its own.
- A full update that Mongo fails and the directory completes still counts as failed (internal/repository/repository.go:33-39),
  so the first such update leaves the ticks unstarted (pkg/cache/component.go:110-114).
- An incremental update from the directory matches any extension (internal/repository/local_db/local_storage.go:147-151),
  a full one only `.yaml`.
- Rendering can write to a template, to the item or to an answer: an object stored by reference
  (pkg/parser/parser.go:219, 226, 281, 338) is merged into by a later template (pkg/parser/parser.go:240-244). No such
  map is written when the selected templates are `Safe`. No such merge adds or alters a field exactly when they are
  `Quiet`; then instructions, item and answers read as before, and the result is that of the semantics
  (`TemplateLibrary.TemplateLib.AdjustTemplate`, for every list of instructions). `TemplateLaws.SafeExactly` and
  `TemplateLaws.QuietExactly` say key by key when: no template merges a field, or one that adds or alters something,
  into a key that an earlier one last stored an object under. After the first alteration a value reads as before exactly
  when it does not go through the map merged into (`TemplateComposer.AfterAltered`, `TemplateLibrary.HeldAfter`).
  `TemplateRewriting.RenderTwice` is a list whose second rendering differs from its first.
- On lists that are not `Quiet` one key can affect another, a result can fail to project to some of its keys, and an
  overwritten value can show through: two keys that take one map of the item by path share it
  (`TemplateSharing.SharedKeys`, `TemplateSharing.ShowsThrough`). The laws of TemplateLaws are about the semantics, which
  the code gives for quiet lists; TemplateResults states them of results in memory.
- An error-free full update never reads the directory, and one that Mongo fails is never free of errors. A Mongo document
  without an update time is never skipped (internal/repository/mongo_db/mongo_storage.go:162-164), so its entry does not age
  while updates succeed; a dated one ages from its stamp on, also while it is served (`TemplateAges.DocVanishes`).
- The sink's mutex covers the request but not the adding of documents (pkg/logger/elastic/sink.go:127 and 166-177): a Sync
  on its way can take a document added meanwhile out of the buffer unsent. `ElasticSink.LostExactly` says when, on the
  actions of the run alone.
- The merge of three configurations depends on the order when a plain value stands between two maps
  (`ConfigMerge.AssociativeExactly`).
- A log entry can be accepted when the sink's worker has gone, and a write to the closed queue can panic
  (pkg/logger/elastic/sink.go:76-106, `ElasticSink.ShutdownCanStrand`).
- With no attempt allowed the retry loop returns neither an answer nor an error (pkg/provider/grpc_provider.go:151, 187).

## Assumptions

- Clocks do not go back. A loop over a Go map visits its keys in any order, modelled by an arbitrary choice at each turn.
- For the refresh: the write time an item reports is the time of its last write, and a template id has one file and one
  document; a stamp in the cache is from the past.
- For the sink: a successful bulk request resets the buffer of the client library and a failed one leaves it as it was;
  the client library is not part of this model.
- For rendering: conditions, interpolations and paths are functions of their text while one item is rendered, paths
  answer with values shared with the item or with provider answers, and provider answers are maps.
- Methods that the code runs under a lock are atomic.

## Model

| member | source | states |
|---|---|---|
| RecencyList.List.PushBack | pkg/cache/lru.go:66-67 | the new element becomes the last one of the linked ring, every other stays in place |
| RecencyList.List.Remove | pkg/cache/lru.go:130 | the element alone leaves the ring; the rest keep their order and stay doubly linked |
| RecencyList.List.MoveToBack | pkg/cache/lru.go:47 | the element becomes the last one, the others keep their order, also when it is last already |
| RecencyList.List.Front | pkg/cache/lru.go:55-56 | the least recent element, or null when there is none |
| LruCache.SetGetter.constructor | pkg/cache/lru.go:24-36 | a new cache is empty, its representation is consistent and its own |
| LruCache.SetGetter.Set | pkg/cache/lru.go:38-68 | the map, the linked list and the pool together go through the ordered-sequence store: nothing at capacity zero, a touch and overwrite for a held key, else an eviction of the least recent when full; what the cache reaches afterwards is what it reached before and what it has allocated |
| LruCache.SetGetter.Rewrite | pkg/cache/lru.go:46-52 | a held key's record is replaced and becomes the most recent; no other record moves |
| LruCache.SetGetter.MakeRoom | pkg/cache/lru.go:54-59 | afterwards there is room; only the least recent record goes, and only when the capacity was reached |
| LruCache.SetGetter.FillEntry | pkg/cache/lru.go:61-64 | a recycled or new entry carries the new fields, and was in use for no other record |
| LruCache.SetGetter.Append | pkg/cache/lru.go:61-67 | one record more at the recent end, its key in the map, its entry not in the pool |
| LruCache.SetGetter.Link | pkg/cache/lru.go:66-67 | a filled entry gets its node at the recent end and its key in the map |
| LruCache.SetGetter.Get | pkg/cache/lru.go:70-88 | a miss, a drop of a record younger than the time to live, or a hit that makes the record the most recent; nothing new is reached |
| LruCache.SetGetter.LastUpdated | pkg/cache/lru.go:90-100 | the stamp of the held record, and nothing for another key |
| LruCache.SetGetter.CleanUp | pkg/cache/lru.go:102-117 | for any visiting order and any advancing clock: exactly the records too old when examined go, the count is the drop in size, the pool grows by that count and stays within the entries the cache owns |
| LruCache.SetGetter.Len | pkg/cache/lru.go:119-124 | the number of records |
| LruCache.SetGetter.RemoveElement | pkg/cache/lru.go:126-131 | one record leaves map and list, its entry enters the pool, everything else is as before |
| LruReplay.Replay | pkg/cache/lru.go:24-131 | any calls on a new cache, one after the other: the class holds the records of the run of their operations, and gives its answers; a lookup that hits answers with the value last stored under its key, at least as old as the time to live, and every record carries the value and stamp last stored |
| LruReplay.Perform | pkg/cache/lru.go:38-117 | one call of any kind is one operation on the sequence of records, and another can follow |
| LruReplay.Compare | pkg/cache/lru.go:38-88 | two new caches given the same stores and lookups reach the states, and give the answers, of one and the same run at their capacities; the smaller holds a subsequence of what the larger holds |
| LruReplay.AnswersServe | pkg/cache/lru.go:70-88 | the same of every answer, read off the calls alone; a clean-up answers with the number of records it has taken away |
| LruReplay.AnswersHit | pkg/cache/lru.go:38-117 | a stored value is served, once old enough, until its key is named again, a clean-up finds it too old, or as many other keys have been named since as the cache has room for, whatever else is dropped |
| LruReplay.AnswersMiss | pkg/cache/lru.go:70-88 | a key that a lookup has missed or dropped is not found again before it is stored again |
| LruReplay.AnswersClean | pkg/cache/lru.go:102-117 | a clean-up takes away every record too old when it starts, and only those found too old when it comes to them |
| LruReplay.RecordsCarry | pkg/cache/lru.go:46-67 | every record a run leaves carries what was last stored under its key |
| LruSpec.DropOne | pkg/cache/lru.go:126-131 | dropping one key takes that record alone out of the sequence |
| LruSpec.RunKeeps | pkg/cache/lru.go:38-131 | on every run, for any two drop rules, keys stay distinct and the number of records stays within the capacity, or within one when the capacity is negative |
| LruSpec.SweepKeeps | pkg/cache/lru.go:108-114 | a clean-up keeps exactly the records not too old when examined |
| LruSpec.SweptNext | pkg/cache/lru.go:108-114 | examining one more key in any order drops its record exactly when it is too old |
| LruSpec.SweptAll | pkg/cache/lru.go:108-114 | when every key has been examined, the outcome does not depend on the visiting order |
| LruRuns.Inclusion | pkg/cache/lru.go:38-117 | two caches driven by one run and one clock: the smaller always holds a subsequence of the larger, with the same values and stamps, and they differ by no more records than their bounds do |
| LruRuns.SetIncludes | pkg/cache/lru.go:38-68 | a store into both keeps that inclusion, whichever of them is full or holds the key |
| LruRuns.GetIncludes | pkg/cache/lru.go:70-88 | a lookup in both keeps it, also when it hits or drops in the larger alone |
| LruRuns.WithinSweep | pkg/cache/lru.go:102-117 | a clean-up of both keeps it |
| LruRuns.SweepWindow | pkg/cache/lru.go:102-117 | what had expired when a clean-up began is gone, what has not expired when it ends is kept, survivors keep their order |
| LruRuns.ServedAtExactAge | pkg/cache/lru.go:76-85 | a lookup serves exactly the held records at least as old as the time to live; of what a clean-up leaves, a lookup at the same instant serves those of exactly that age |
| LruRuns.CarriesLastStored | pkg/cache/lru.go:46-67 | on every run, for any drop rules, the record of a key holds the value and stamp of the last store under it, found by searching the operations backward |
| LruRuns.Retained | pkg/cache/lru.go:54-67 | a record stays, whatever else expires or is dropped, until its key is named, a clean-up finds it too old, or as many other keys as the bound have been named since |
| LruRecency.LastTouchedOrder | pkg/cache/lru.go:46-68 | the reference order: every touched key once, ordered by its last touch |
| LruRecency.Recency | pkg/cache/lru.go:46-85 | without age drops the cache holds exactly the last min(capacity, n) of the n keys touched, so the victim is always the least recently touched |
| LruRecency.SetKeys | pkg/cache/lru.go:46-67 | a store keeps that, evicting the least recently touched key when full |
| LruRecency.TouchKeys | pkg/cache/lru.go:82-85 | a hit keeps that |
| BackgroundCache.SetGetter.Set | pkg/cache/background.go:32-45 | the key holds the stamped value, no other key changes, entries in use stay apart from each other and from the pool |
| BackgroundCache.SetGetter.Get | pkg/cache/background.go:47-53 | the value of a held key; for a key not held the nil entry is dereferenced |
| BackgroundCache.SetGetter.LastUpdated | pkg/cache/background.go:55-65 | the stamp of a held key and nothing for another |
| BackgroundCache.SetGetter.CleanUp | pkg/cache/background.go:67-82 | for any visiting order and any advancing clock: exactly the entries over ten times the time to live old when examined go, each to the pool once, and the count says how many |
| BackgroundCache.SetGetter.Examine | pkg/cache/background.go:73-79 | one entry goes to the pool exactly when it is too old |
| BackgroundCache.SetGetter.Len | pkg/cache/background.go:84-89 | the number of entries |
| TemplateUpdaters.LocalStorage.UpdateTemplate | internal/repository/local_db/local_storage.go:51-122 | the directory pass file by file, with its skips, its gathered errors, a failing listing and a cancellation that discards them |
| TemplateUpdaters.LocalStorage.UpdateFile | internal/repository/local_db/local_storage.go:70-118 | one file: not a template, stat failure, skip on an older write, read failure, parse failure or a store stamped before the read; no other key changes |
| TemplateUpdaters.LocalStorage.IncrementalUpdateTemplate | internal/repository/local_db/local_storage.go:124-176 | every file of that stem is loaded, whatever its extension and its stamp: the last one that parses decides the entry, whatever was cached |
| TemplateUpdaters.MongoStorage.UpdateTemplate | internal/repository/mongo_db/mongo_storage.go:143-186 | the cursor pass under one stamp taken before the query, with its gathered errors |
| TemplateUpdaters.MongoStorage.UpdateDoc | internal/repository/mongo_db/mongo_storage.go:157-178 | one document: decode failure, skip on an older write, parse failure or a store; no other key changes |
| TemplateUpdaters.MongoStorage.IncrementalUpdateTemplate | internal/repository/mongo_db/mongo_storage.go:188-209 | the one template is stored exactly when it is found and parses |
| TemplateUpdaters.Repository.FullUpdate | internal/repository/repository.go:32-42 | the directory is read exactly when Mongo reports an error, on top of what Mongo stored; both error lists are those of their passes, over the answers given and clock readings in order, and the update counts as clean exactly when Mongo was |
| TemplateUpdaters.Repository.IncrementalUpdate | internal/repository/repository.go:43-53 | the same fallback for one template: its entry becomes the parse of the document, under the stamp from before the query, or else that of the last file that names it and parses, whatever was cached; otherwise nothing changes |
| TemplateEntries.NamedPassEntry | internal/repository/local_db/local_storage.go:136-173 | of the files of an update of one template the last one whose stem names it and that parses decides the entry, under the clock reading at that file, whatever was cached and whatever its extension |
| TemplateEntries.NamedPassNone | internal/repository/local_db/local_storage.go:136-173 | without such a file nothing changes |
| TemplateEntries.NamedPassClean | internal/repository/local_db/local_storage.go:136-175 | no error is reported exactly when every file that names the template can be read and parsed |
| TemplateEntries.IncrementStores | internal/repository/repository.go:43-53 | the same of the whole update of one template, with its fallback |
| TemplateEntries.FilePassDecides | internal/repository/local_db/local_storage.go:87-118 | errors or not: a full update replaces the entry of a template with one file by its parse exactly when the file can be asked, read and parsed and was written no earlier than the stamp; a file that cannot is reported and leaves the entry as it was |
| TemplateEntries.DocPassDecides | internal/repository/mongo_db/mongo_storage.go:157-178 | the same of a document, the present instant standing in for a missing date |
| TemplateEntries.UpdateOfDoc | internal/repository/repository.go:32-42 | so the entry of a document between the two passes of a full update, and after it when no directory pass meets it |
| TemplateEntries.UpdateOfFile | internal/repository/repository.go:32-42 | and the entry of a file that the directory pass, made when Mongo has reported an error, comes to |
| TemplateEntries.PartsUntouched | internal/repository/repository.go:32-42 | each pass leaves alone the keys its source does not hold, and after an error-free Mongo pass there is no other |
| TemplateEntries.UpdateCancelled | internal/repository/local_db/local_storage.go:64-68 | a cancellation ends the directory pass before the file and is all it reports |
| TemplateEntries.UpdateUnlisted | internal/repository/local_db/local_storage.go:51-59 | a directory that cannot be listed is reported, and the cache stays as the pass over Mongo left it |
| TemplateEntries.ExtExactly | internal/repository/local_db/local_storage.go:74-83 | stem and extension make up a file name; the extension is a dot and what follows it, neither dot nor slash, or empty when the last part has no dot |
| TemplateAges.FilePassRenews | internal/repository/local_db/local_storage.go:63-119 | a full update takes no key away, and what it changes is stamped within it |
| TemplateAges.DocPassRenews | internal/repository/mongo_db/mongo_storage.go:155-179 | the same of a full update from Mongo |
| TemplateAges.NamedPassRenews | internal/repository/local_db/local_storage.go:136-173 | an incremental update takes no key away and changes no other template |
| TemplateAges.FilePassPresent | internal/repository/local_db/local_storage.go:87-118 | after a directory pass without errors every template file has its entry |
| TemplateAges.DocPassPresent | internal/repository/mongo_db/mongo_storage.go:155-179 | after a cursor pass without errors every document has its entry |
| TemplateAges.FilePassEntry | internal/repository/local_db/local_storage.go:87-118 | a directory pass without errors keeps an entry exactly when its file was written before the stamp, and else replaces it by the parse of the file |
| TemplateAges.DocPassEntry | internal/repository/mongo_db/mongo_storage.go:157-178 | a cursor pass without errors keeps an entry exactly when its document is dated from before the stamp, and else replaces it by the parse of the document; a document without a date is always replaced |
| TemplateAges.BoundedGapFiles | pkg/cache/component.go:129-158 | a template file absent at some instant, whose entry if it got one since is stamped since, is present after the next tick whose directory pass, made because Mongo failed, reports no error and meets it, if the clean-up examines it within ten times the time to live of that instant; the step of which TemplateCache.BoundedGap makes a theorem on runs |
| TemplateAges.BoundedGapDocs | pkg/cache/component.go:129-158 | the same step for Mongo documents and error-free ticks |
| TemplateAges.UnchangedVanishes | pkg/cache/background.go:73-79 | a live template unchanged in the directory is gone, after a tick that Mongo failed and whose directory pass has no error, exactly when its stamp, which updates do not renew, is over ten times the time to live old |
| TemplateAges.DocVanishes | internal/repository/mongo_db/mongo_storage.go:162-171 | the template of a Mongo document is gone after an error-free tick exactly when ten times the time to live has passed since its stamp, if it is dated from before it, or since the update, if it is newer or not dated |
| TemplateCache.Cache.Start | pkg/cache/component.go:83-116 | the first update is a full update of the empty or given cache; the ticks begin exactly when it reports no error before the caller gives up, and then every document has its entry |
| TemplateCache.Cache.Refresh | internal/repository/repository.go:32-42 | a full update reports the errors of its two passes, none exactly when Mongo was clean; it stamps what it changes, takes nothing away, and leaves an entry for every template of the source it went through without error; Mongo entries are restamped exactly when not unchanged |
| TemplateCache.Cache.IncrementalUpdate | pkg/cache/component.go:167-186 | one template changes, stamped at the update and to the parse of what the sources gave, whatever was cached, and no other |
| TemplateCache.Cache.Tick | pkg/cache/component.go:129-158 | a tick is a full update and then a clean-up, errors or not: exactly the refreshed entries not over ten times the time to live old when examined are left |
| TemplateCache.UpdateGives | internal/repository/repository.go:32-42 | a full update renews what it touches and leaves an entry for every template of the source gone through without error; which source that is follows from the errors of the two passes |
| TemplateCache.OutcomeForced | internal/repository/repository.go:32-42 | an update goes through Mongo when the query succeeds and every document decodes and parses, not when the query or the cursor fails, and else through the directory when that can be listed and each template file asked, read and parsed |
| TemplateCache.TickGives | pkg/cache/component.go:129-158 | after a tick no entry exceeds ten times the time to live at the instant it was examined; a template of the source gone through without error is missing only if its stamp had expired or the tick took that long; after an error-free tick a Mongo template is missing exactly when the stamp the update left it has expired |
| TemplateCache.IncrementGives | internal/repository/repository.go:43-53 | an update of one template leaves the others alone and is clean exactly when Mongo finds it and it parses |
| TemplateCache.Cache.Serve | pkg/cache/component.go:118-186 | any ticks and incremental updates in any order: the history of the run, record after record what the event made of the record before, from what the cache held to what it holds, with the errors of each event |
| TemplateCache.Cache.Handle | pkg/cache/component.go:125-186 | one event is the tick or the update it stands for, over the answers given |
| TemplateCache.BoundedGap | pkg/cache/component.go:118-186 | on every history, however often entries expire and are replaced on the way: a template missing after some event is there after every later tick that goes through the source that lists it without error and ends within ten times the time to live of that event |
| TemplateCache.BoundedGapReadable | pkg/cache/component.go:118-186 | the same from the answers alone: a document of a later tick whose query succeeds and whose documents all decode and parse |
| TemplateCache.HistoryAdds | pkg/cache/component.go:118-186 | what the cache holds after an event was there after any earlier one, or is stamped since |
| TemplateCache.HistoryStores | pkg/cache/component.go:167-186 | in every history an update of one template stores the parse of what the sources give, and reports no error exactly when Mongo has it and it parses |
| TemplateCache.Live | pkg/cache/component.go:83-186 | a cache from its making on: the first update of the empty cache, and exactly when it succeeds the history of all the events |
| TemplateCache.CursorPassGives | internal/repository/mongo_db/mongo_storage.go:155-185 | a clean cursor pass leaves an entry for every document, restamped exactly when not unchanged |
| TemplateCache.DirPassGives | internal/repository/local_db/local_storage.go:63-119 | a clean directory pass leaves an entry for every template file |
| RefreshProtocol.StepKeeps | internal/repository/local_db/local_storage.go:87-118 | each write, clock reading, stamp question, read, store or expiry, by any number of updaters at once, keeps every cached and every seen value the parse of a version current at or after its stamp |
| RefreshProtocol.WriteKeeps | internal/repository/local_db/local_storage.go:95-101 | a write at the source makes no stamp lie, since stamps are from before |
| RefreshProtocol.StoreKeeps | internal/repository/local_db/local_storage.go:118 | storing what was read under the earlier stamp keeps coherence, however late and whatever was stored meanwhile |
| RefreshProtocol.CacheCoherent | internal/repository/local_db/local_storage.go:87-118 | in every reachable state each cached value is the parse of content the source held at an instant no earlier than its stamp |
| RefreshProtocol.SkipIsSafe | internal/repository/local_db/local_storage.go:87-99 | whenever a file is skipped, the value seen is the parse of what the source holds now |
| RefreshProtocol.SkipOfReadIsSafe | internal/repository/mongo_db/mongo_storage.go:166-171 | whenever a document is skipped, the value seen is the parse of that version or a later one |
| RefreshProtocol.StrictnessNeeded | internal/repository/local_db/local_storage.go:95 | with a comparison that is not strict a reachable state would be skipped wrongly |
| RefreshProtocol.StampFirstNeeded | internal/repository/local_db/local_storage.go:101-102 | a store stamped after the read: an updater that looks at the stamp, however much later, skips an item whose cached value is not what the source holds |
| RefreshProtocol.QuietUpdateAgrees | internal/repository/local_db/local_storage.go:51-122 | after any history, a directory pass without errors undisturbed by writes leaves every entry the parse of its file |
| RefreshProtocol.QuietMongoUpdateAgrees | internal/repository/mongo_db/mongo_storage.go:143-186 | after any history, an error-free update from Mongo undisturbed by writes leaves every entry the parse of its document, dated or not |
| RefreshRuns.FileStepIsRun | internal/repository/local_db/local_storage.go:87-118 | what one step of a directory pass does to the cache is done by a run of the protocol: ask, wait, read the clock, read, and store unless up to date or unparsed |
| RefreshRuns.FilePassIsRun | internal/repository/local_db/local_storage.go:63-119 | a whole directory pass over an undisturbed source, errors or not, is a run of the protocol |
| RefreshRuns.DocStepIsRun | internal/repository/mongo_db/mongo_storage.go:157-178 | so is one step of a cursor pass, over a document read in whatever version |
| RefreshRuns.CleanUpIsRun | pkg/cache/background.go:67-82 | a clean-up, at whatever instants it examines the keys, is a run of expiries |
| RefreshRuns.TickIsCoherent | pkg/cache/component.go:129-158 | so from any reachable state, after a directory pass and a clean-up, every entry is the parse of content the source held no earlier than its stamp |
| TemplateLaws.CombineByKey | pkg/parser/parser.go:180-193 | in the semantics each key of the result is the fold of what the templates write to that key; the code gives this result for quiet lists (TemplateResults.ReadsByKey), and not for others (TemplateSharing.SharedKeys) |
| TemplateLaws.Projection | pkg/parser/parser.go:161-193 | in the semantics rendering only some keys of every template gives the result with only those keys; of the code it holds for quiet lists (TemplateResults.AdjustKeys), not for others (TemplateSharing.SharedKeys) |
| TemplateLaws.OverwriteForgets | pkg/parser/parser.go:186-191 | in the semantics, once a template overwrites a key, no earlier template affects it; of the code it holds for quiet lists (TemplateResults.AdjustLater), not for others (TemplateSharing.ShowsThrough) |
| TemplateLaws.FoldIsSearch | pkg/parser/parser.go:240-247 | in the semantics a merged key holds an object whose every field comes from the last template to contribute it since the key was overwritten, and nothing else; of the code it holds for quiet lists (TemplateResults.ReadsByField) |
| TemplateLaws.SafeExactly | pkg/parser/parser.go:240-244 | templates are safe to combine exactly when, key by key, no merge of a field follows an object stored by reference with no overwriting in between |
| TemplateLaws.QuietExactly | pkg/parser/parser.go:240-244 | templates are quiet exactly when, key by key, no merge that adds or alters a field follows an object stored by reference with no overwriting in between |
| TemplateLaws.SafeIsQuiet | pkg/parser/parser.go:240-244 | templates that merge no field into a shared object change none |
| TemplateLaws.ClearRestrict | pkg/parser/parser.go:180-193 | leaving keys out of safe, or quiet, templates leaves them so |
| TemplateLaws.ClearSuffix | pkg/parser/parser.go:161-178 | so does leaving out the first templates |
| TemplateLaws.OverwriteDecides | pkg/parser/parser.go:180-193 | in the semantics the templates before one that overwrites a key can be left out as far as that key goes |
| TemplateLaws.RenderItemsAppend | pkg/parser/parser.go:352-380 | array rendering is an order-preserving filter and map: it distributes over concatenation |
| TemplateRules.ElementRule | pkg/parser/parser.go:354-378 | an element of an array is kept exactly when it is an object whose `if` is missing, no text, empty or a condition that holds; what is kept has no key that trims to `if`, and its plain fields as they are |
| TemplateRules.ArrayInOrder | pkg/parser/parser.go:352-380 | the rendered array holds the kept elements, each rendered as it is alone, in order |
| TemplateRules.FieldRule | pkg/parser/parser.go:229-238 | a rendered object has a field for each entry that writes something, with what it writes |
| TemplateRules.PathRule | pkg/parser/parser.go:250-283 | a string or number with a path stores what the path leads to, whatever else it holds: nothing without an answer, nil when it fails |
| TemplateRules.NumberRule | pkg/parser/parser.go:304-340 | a number without a path writes nothing |
| TemplateRules.StringRule | pkg/parser/parser.go:284-302 | a string without a path stores its text interpolated, or as it is when that fails |
| TemplateRules.BoolRule | pkg/parser/parser.go:212-215 | a bool stores its value when that is one |
| TemplateRules.ArrayRule | pkg/parser/parser.go:342-381 | an array stores its rendered elements when its value is one |
| TemplateRules.ObjectRule | pkg/parser/parser.go:223-248 | an object, of that type or of none, contributes its rendered fields, or is stored as it is when its value is no object |
| TemplateRules.OtherRule | pkg/parser/parser.go:218-220 | a map of any other type is stored as it is |
| TemplateRules.ResultKeys | pkg/parser/parser.go:180-193 | no result has a key that trims to `if`, nor one that no template has |
| TemplateRules.NothingInvented | pkg/parser/parser.go:195-381 | every plain value an entry renders to, at whatever depth, stands in the entry, is the interpolation of a text there, is part of the answer to a path there, or is the nil of a path there that fails |
| TemplateRules.ResultFrom | pkg/parser/parser.go:161-248 | the same of every key of a result, of what some template holds under that key |
| TemplateRules.TrimExactly | pkg/parser/parser.go:130 | trimming takes spaces off both ends, and all of them |
| TemplateRules.SelectedExactly | pkg/parser/parser.go:125-159 | a name is selected exactly when a View whose condition is empty or holds lists it as a text |
| TemplateRules.SelectedInOrder | pkg/parser/parser.go:161-178 | the templates selected of a list are those of its parts, in order |
| TemplateRules.SelectedAlone | pkg/parser/parser.go:164-173 | a Template instruction is selected exactly when its name, a text in its metadata or else empty, is |
| TemplateLaws.SelectedNamesUnion | pkg/parser/parser.go:125-159 | a name is selected exactly when some applicable View lists it |
| TemplateLaws.ViewsAreASet | pkg/parser/parser.go:125-178 | permuting, duplicating or moving Views changes nothing; the Template instructions in order decide |
| TemplateEngine.Rendering.WritePath | pkg/parser/parser.go:252-283 | a path writes nothing, nil or the value it resolves to, by reference |
| TemplateEngine.Rendering.ProcessStringValue | pkg/parser/parser.go:250-302 | a string entry writes its path's value, its interpolation, or its text when that fails |
| TemplateEngine.Rendering.ProcessNumberValue | pkg/parser/parser.go:304-340 | a number entry writes its path's value |
| TemplateEngine.Rendering.ProcessBoolValue | pkg/parser/parser.go:212-215 | a bool entry writes its value when that is a bool |
| TemplateEngine.Rendering.ApplyMapValue | pkg/parser/parser.go:195-221 | writes at most its own key; a whole object is stored as the map of the template or the answer of the path itself, not a copy; an object merges into the map already there, whoever made it: its fields, which just before read as the semantics says, are written over those of the map, no other map is touched, and the effect says whether this adds or alters a field |
| TemplateEngine.Rendering.ApplyNestedObject | pkg/parser/parser.go:223-248 | an object without an object value is stored by reference; another is rendered into a new map, which is stored or merged field by field |
| TemplateEngine.Rendering.PutObject | pkg/parser/parser.go:240-247 | the rendered object is written field by field over the map under the key, or stored when there is none |
| TemplateEngine.Rendering.MergeInto | pkg/parser/parser.go:241-243 | for any visiting order the fields overwrite those of the map, which is not written when there are none |
| TemplateEngine.Rendering.AddsNothing | pkg/parser/parser.go:240-244 | the watch: comparing two maps in memory, values in depth, finds exactly whether a merge would add or alter a field |
| TemplateEngine.Rendering.MergedTree | pkg/parser/parser.go:240-244 | a merge leaves a map of the template or item the tree it was exactly when it adds and alters no field |
| TemplateEngine.Rendering.RenderInto | pkg/parser/parser.go:231-238 | for any visiting order the new map holds the fields the semantics gives |
| TemplateEngine.Rendering.ProcessArrayValue | pkg/parser/parser.go:342-381 | the array of the rendered elements replaces the key, or nothing is written when there is no array |
| TemplateEngine.Rendering.RenderElements | pkg/parser/parser.go:352-379 | the elements kept, in order, each in a new map; as many as the conditions let through |
| TemplateEngine.Rendering.RenderElement | pkg/parser/parser.go:354-378 | one element: kept exactly when it is an object whose `if` is missing, no text, empty or a condition that holds; the new map has no key that trims to `if`, and the plain fields read as in the template |
| TemplateEngine.Rendering.IsExcluded | pkg/parser/parser.go:358-364 | a condition excludes an element only when it is a text, is not empty and fails or does not hold |
| TemplateEngine.Rendering.OverlayShared | pkg/parser/parser.go:223-248 | an object stored by reference and then merged into: the map of the template that owns it becomes its old content overwritten by the fields, and reads as before exactly when it had them |
| GoValues.MergeExactly | pkg/parser/parser.go:240-244 | writing fields over one map of a heap, which may itself be reached from them, leaves it the same tree exactly when they add and alter nothing |
| GoValues.ReadsAfterMerge | pkg/parser/parser.go:240-244 | after such a merge any value reads as before exactly when it does not go through the map, or nothing was added or altered |
| GoValues.MergedReads | pkg/parser/parser.go:240-244 | the map reads as its old content overwritten by the fields, unless a field goes through the map itself: then it reads as no tree at all |
| GoValues.ReadsAtPath | pkg/parser/parser.go:103-123 | at every path a value in memory holds what the tree it reads as holds there: the same plain value, an array of the same length, or a map with the same keys |
| TemplateComposer.Composer.PutKey | pkg/parser/parser.go:186-191 | one key of a template, written into the combined result in memory as in the semantics; clean exactly when it adds and alters no field of a map this rendering did not make for a key, and then everything reads as before; otherwise that map alone has changed, as described |
| TemplateComposer.Composer.PutMap | pkg/parser/parser.go:195-247 | a key whose value is a map: no map that was there is written when the key is safe; a quiet merge leaves every reading as it was; an altering one changes exactly one map, to its old content overwritten by the fields |
| TemplateComposer.Composer.ApplyTemplateSpec | pkg/parser/parser.go:180-193 | one template, its keys visited in any order: clean exactly when every key is quiet, and then it gives the result of the semantics and everything reads as before; otherwise it stops at the first altering key. While it is safe the maps there are untouched and the result shares them |
| TemplateComposer.AfterAltered | pkg/parser/parser.go:240-244 | after the altering write a value reads as before exactly when it does not go through the map merged into; the map reads as its old content overwritten by the fields, or as no tree when one of these goes through it |
| TemplateComposer.OtherKeys | pkg/parser/parser.go:240-244 | what every other key of the result reads as then: as before exactly when it does not go through that map; a key that shares the map itself reads as the merged object |
| TemplateLibrary.TemplateLib.FindApplicableTemplate | pkg/parser/parser.go:125-159 | the names listed by the Views that apply |
| TemplateLibrary.TemplateLib.NamesOfView | pkg/parser/parser.go:129-156 | one View: none when it does not apply or is not of the expected form |
| TemplateLibrary.TemplateLib.CombineTemplates | pkg/parser/parser.go:161-178 | for every list of instructions: clean exactly when the selected templates are quiet, and then everything reads as before and the result is their left fold; when they are safe no map that was there is written at all; otherwise it stops at the first alteration, which the contract describes |
| TemplateLibrary.TemplateLib.AdjustTemplate | pkg/parser/parser.go:103-123 | the same for the whole rendering: a clean result reads as the semantics says, and instructions, item and answers read as before |
| TemplateLibrary.TemplateLib.AdjustTwice | pkg/parser/parser.go:103-123 | when the first rendering is clean so is the second, and both results read as the same tree |
| TemplateLibrary.TemplateLib.AdjustBoth | pkg/parser/parser.go:103-123 | two lists rendered one after the other: when both are quiet each result reads as the semantics says, also after the other rendering |
| TemplateLibrary.HeldAfter | pkg/parser/parser.go:240-244 | after the first alteration an instruction reads as before exactly when it does not go through the map merged into |
| TemplateLibrary.AlterationSeen | pkg/parser/parser.go:240-244 | if nothing was merged into a shared map before the first alteration, some map that was there reads otherwise after it |
| TemplateResults.ReadsByKey | pkg/parser/parser.go:180-193 | a clean result in memory holds under each key what the templates write to that key folds to |
| TemplateResults.ReadsByField | pkg/parser/parser.go:240-247 | each field of a merged key of it reads as what the last template to decide the field gives |
| TemplateResults.TextsFrom | pkg/parser/parser.go:103-248 | every text a clean result in memory holds, at whatever path, comes from what some selected template holds under that key |
| TemplateResults.AdjustKeys | pkg/parser/parser.go:103-193 | rendering a quiet list, and then the same with only some keys of every template: the second result reads as the first with only those keys |
| TemplateResults.AdjustLater | pkg/parser/parser.go:103-193 | rendering a quiet list, and then one without the templates before one that overwrites a key: the key reads the same in both results |
| TemplateResults.SelectedRestrict | pkg/parser/parser.go:161-178 | which templates are selected does not depend on their keys |
| TemplateSharing.SharedKeys | pkg/parser/parser.go:240-283 | a list that is not quiet, in memory: two keys take the map {a: 1} of the item by path, an object {z: 1} is merged into one; the other then reads {a: 1, z: 1}, rendered alone it reads {a: 1} |
| TemplateSharing.RenderWhole | pkg/parser/parser.go:240-283 | the same for every item and memory in which no other map has the keys of the item's: the first alteration, both keys holding that map, and no other map changed |
| TemplateSharing.ShowsThrough | pkg/parser/parser.go:240-283 | the same list, and a third template that overwrites the first key by the path again: the key still reads {a: 1, z: 1}, where the semantics gives {a: 1} |
| TemplateSharing.SharedFolds | pkg/parser/parser.go:180-193 | what the semantics gives for that list, and that it is not quiet |
| TemplateRewriting.RenderTwice | pkg/parser/parser.go:103-248 | a View and two templates, in memory: the first rendering stops having altered the first template, and answers {value: {y: 1}} under the key; the instructions then read as those whose first template holds that object, and their rendering answers {y: 1, value: {y: 1}} |
| TemplateRewriting.FirstFolds | pkg/parser/parser.go:223-248 | these templates are not quiet: the first stores its empty object, the second merges a field into it |
| TemplateRewriting.SecondFolds | pkg/parser/parser.go:223-248 | what they have become is safe, and renders to something else |
| ConfigMerge.SelfMerge | internal/config/utils.go:157 | merging a tree into itself is the identity at every depth |
| ConfigMerge.MergeTwice | internal/config/utils.go:48 | regenerating a generated configuration changes nothing |
| ConfigMerge.MergeAtPath | internal/config/utils.go:146-161 | at every path where both sides are maps: the union of the keys, user values and maps kept, missing and null settings filled with the default subtree |
| ConfigMerge.UserValueKept | internal/config/utils.go:147-149 | a value the user set is kept at whatever depth |
| ConfigMerge.MergedKind | internal/config/utils.go:146-161 | at every path the merge holds what the defaults hold there, if anything, where the user's settings come to a missing or null one on the way, and what the user's settings hold otherwise |
| ConfigMerge.NothingInvented | internal/config/utils.go:146-161 | every path of the result is a path of one side |
| ConfigMerge.AddsExactly | internal/config/utils.go:146-161 | merging adds nothing exactly when every setting of the defaults is already there |
| ConfigMerge.AssociativeExactly | internal/config/utils.go:144-163 | the order of two merges does not matter exactly when no plain value of the middle tree stands between a map of the first and settings of the third that add to it |
| ConfigMerge.NotAlwaysAssociative | internal/config/utils.go:144-163 | a triple on which the order does matter |
| ConfigMergeInPlace.MergeConfig | internal/config/utils.go:144-163 | the in-place recursion on shared mutable maps ends, gives the merge of the two trees for any visiting order, and leaves the content of the defaults' maps as it was; read in memory, at every path of keys: the same plain value the user had there, or the one of the defaults where the user's maps left the path open |
| ConfigMergeInPlace.MergeIntoItself | internal/config/utils.go:146-161 | with the same map on both sides it ends and changes nothing |
| ConfigMergeInPlace.MergeKey | internal/config/utils.go:147-160 | one key: the value of the defaults itself is taken over when missing or null, any other stays, then both are merged when maps, disturbing no other key |
| ConfigMergeInPlace.BuiltKind | internal/config/utils.go:144-163 | the tree of a setting in memory holds at every path of keys what is there in memory |
| ElasticSink.StepKeeps | pkg/logger/elastic/sink.go:76-150 | every step of writers, worker, Sync callers and shutdown keeps the accounting of entries and documents |
| ElasticSink.Conservation | pkg/logger/elastic/sink.go:76-97 | in every reachable state what is sent, buffered and queued is, in order, what was accepted and parses, exactly when no document was dropped from the buffer |
| ElasticSink.LostExactly | pkg/logger/elastic/sink.go:127-177 | documents are dropped exactly when, on the actions of the run, the worker takes an entry that parses between a Sync that found something to send and the success of its request |
| ElasticSink.RunSays | pkg/logger/elastic/sink.go:76-150 | what was accepted, what is queued and how much is buffered can be read off the actions: the n-th entry taken is the n-th written |
| ElasticSink.FlightExactly | pkg/logger/elastic/sink.go:88-97 | a request of a Sync is on its way, and has been overtaken, exactly when the actions show it |
| ElasticSink.SyncCanLose | pkg/logger/elastic/sink.go:88-97 | a run with a Sync in which an accepted entry is lost |
| ElasticSink.WorkerLosesNothing | pkg/logger/elastic/sink.go:108-150 | as long as only the worker flushes, nothing is lost and the order is kept, through failures and shutdown |
| ElasticSink.ShutdownDrains | pkg/logger/elastic/sink.go:99-106 | when the worker has gone, every entry accepted before the sink was closed has left the queue |
| ElasticSink.ShutdownSends | pkg/logger/elastic/sink.go:138-148 | when no request fails, the worker leaves an empty buffer: all it held has been sent but for what an overtaken Sync dropped, and without a Sync everything added has been sent in order |
| ElasticSink.AcceptedIsSent | pkg/logger/elastic/sink.go:76-148 | so, on the actions of the run, what writers were told is accepted before the sink was closed has been sent by the time the worker has gone |
| ElasticSink.ExitTried | pkg/logger/elastic/sink.go:147-148 | a worker that has gone and left documents in the buffer has made a request that failed, and taken nothing since |
| ElasticSink.FlushBeforeTake | pkg/logger/elastic/sink.go:129-136 | when the ticker finds documents in the buffer, or a document makes a hundred of them, the worker begins a flush before it takes another entry |
| ElasticSink.FlushesWhenDue | pkg/logger/elastic/sink.go:129-136 | and it flushes in its main loop for no other reason |
| ElasticSink.DoneSays | pkg/logger/elastic/sink.go:99-101 | which entries had been accepted when the sink was closed, on the actions of the run |
| ElasticSink.RunCounts | pkg/logger/elastic/sink.go:76-150 | the queue never holds more than its capacity, or one entry in the worker's hand; batches sent, documents drained and the closing are what the actions say |
| ElasticSink.HandedOver | pkg/logger/elastic/sink.go:76-127 | with a queue of size zero an accepted entry is in the hands of the worker, who does nothing before adding it |
| ElasticSink.RefusedWhenClosed | pkg/logger/elastic/sink.go:83-85 | a writer is turned away only after the sink has been closed |
| ElasticSink.CrashOnlyClosed | pkg/logger/elastic/sink.go:76-106 | a write panics only once the queue is closed, when the sink is done and the worker gone |
| ElasticSink.ShutdownCanStrand | pkg/logger/elastic/sink.go:76-106 | a run in which an entry is accepted when the worker has gone, stays in the queue, and a later write to the closed queue panics |
| ElasticSink.BatchBounds | pkg/logger/elastic/sink.go:114-148 | with all requests succeeding the buffer stays under a hundred between turns, batches have at most a hundred, and after draining at most ninety-nine and what draining added |
| RetryLoop.PauseNear | pkg/provider/grpc_provider.go:174-177 | cutting to whole nanoseconds and capping at every step stays within 1 + m + ... + m^(i-1) of the capped geometric term, for any multiplier m of at least 1 and any initial pause |
| RetryLoop.DriftClosed | pkg/provider/grpc_provider.go:174-177 | that distance in closed form |
| RetryLoop.ClosedNext | pkg/provider/grpc_provider.go:174-177 | capping as one goes gives the capped closed form |
| RetryLoop.PauseBelow | pkg/provider/grpc_provider.go:174-177 | with an initial pause that is not negative the pause is never above the capped geometric term |
| RetryLoop.PauseExact | pkg/provider/grpc_provider.go:174-177 | with a whole multiplier it is that term exactly |
| RetryLoop.Provider.NextBackoff | pkg/provider/grpc_provider.go:174-177 | one step of the pause: multiplied, cut to whole nanoseconds, capped |
| RetryLoop.Provider.ExecuteMethod | pkg/provider/grpc_provider.go:128-187 | no attempt for an unknown method, a filter that fails or one that does not match; otherwise the attempts |
| RetryLoop.Provider.Attempts | pkg/provider/grpc_provider.go:147-187 | at most the allowed attempts; an answer is the first success after retried failures only; each other outcome has its exact cause, the context being asked about each pause; the pauses waited are those of the step law and their total is bounded |
| RetryLoop.AttemptGoesOn | pkg/provider/grpc_provider.go:151-184 | every attempt but the last has failed in a way worth retrying, and the context lived through the pause after it |
| RetryLoop.LastDecides | pkg/provider/grpc_provider.go:151-187 | what the last attempt gave is the outcome: its answer, its error if not worth retrying, the last error when none is left, or the cancellation |

## Left out

- RetryLoop.Provider.Attempts: the product of pause and multiplier is exact before it is cut, so the rounding of floating point numbers and durations beyond 64 bits are not modelled; the matching of status codes is the `retryable` predicate, and the evaluation of a filter is a parameter.
- TemplateLibrary.TemplateLib.AdjustTemplate: stops at the first alteration of a map of the instructions, of the item or of an answer; what the rest of the rendering does with the changed maps is stated only for the list of TemplateSharing. Marshalling the result to JSON is not modelled.
- TemplateLibrary.TemplateLib.CombineTemplates: stops at that alteration too.
- TemplateComposer.Composer.ApplyTemplateSpec: stops at that alteration too, with the keys not yet visited left unwritten.
- ConfigMergeInPlace.MergeConfig: asks that the user's settings share no map with the defaults and none with themselves, as freshly decoded YAML does not; lists are values it does not look into.
- TemplateUpdaters.LocalStorage.UpdateTemplate: each file's modification time and content are given as the answers the pass received; the path handed to the file read is not modelled.
- TemplateUpdaters.MongoStorage.UpdateTemplate: the cancellation of the context inside the cursor shows up as a failing cursor.
- TemplateCache.Cache.Start: when the caller gives up, the update that goes on in the background is taken as complete; the closing of the cache is not modelled.
- RefreshProtocol.SkipIsSafe: states coherence for one source; two sources with stamps of their own in one cache are not covered.
- The refresh protocol and the sink are step systems over values, not classes: their steps belong to several goroutines, and what they share is captured, while locks other than the sink's mutex are not.
- ParseTemplate, YAML decoding, the expression language, text templates, provider registration, gRPC and MongoDB calls: parameters of the model.
- Metrics, logging, tracing, server, wiring and option handling: no effect on the state modelled.
