# combaine alert senders, modelled in Dafny

This project models the alert-dispatch core of combaine: the juggler sender and the agave sender.

The juggler sender hands aggregation results to a Lua plugin and decodes the plugin's table into juggler events. For every event it then reconciles the remote check of the sender's host with the sender's configuration and posts every check that changed. Two revisions of the Lua bridge are modelled:
- `senders/juggler/plugins.go`, the current one;
- `senders/juggler/go2lua.go`, the older one, with its numeric level table and its default check level.

The other pieces are:
- the TTL cache that the check fetcher sits behind;
- the two host fan-out loops that try the backend hosts in order;
- the agave sender, which repacks aggregation results into per-subgroup lines, sends them to every agave host and decides whether the send failed.

Modules, one per source concern:

| module | file | models |
|---|---|---|
| `Wrappers` | wrappers.dfy | `Option` and `Result` |
| `GoStrings` | strs.dfy | `strings.Split`, `strings.Join`, `strings.SplitN(s, sep, 2)` |
| `GoValues` | values.dfy | the Go values the bridges and agave receive (`interface{}` trees, nil included), `common.AggregationResult` |
| `LuaValues` | lua.dfy | gopher-lua values and tables, `LVAsString`, `RawGetString`, `ForEach` order |
| `HostFanout` | fanout.dfy | the check fetcher loop of `getCheck` and the host loop of `updateCheck` |
| `TtlCache` | cache.dfy | `cache`: `TuneCache`, `Get`, `Delete`, one cleaner pass |
| `Checks` | checks.dfy | `jugglerCheck` and the seven reconcilers as functions on values |
| `JugglerSender` | sender.dfy | `Sender` with its configuration, the `ensure*` methods, `ensureCheck`, the flap merge of `getCheck` |
| `Plugins` | plugins.dfy | the current Lua bridge |
| `Go2Lua` | go2lua.dfy | the older Lua bridge |
| `Agave` | agave.dfy | agave `send` (repacking) and `Send` (fan-out and verdict) |

Conventions:
- A Go map whose iteration order can show in the result is a sequence in iteration order. This covers a `PluginConfig`, a metric map, `tasks.DataType` and the string-keyed part of a Lua table. The sequence is one arbitrary such order.
- A Go map iterated only for its effect uses Dafny's `:|` choice, so every order is covered. This covers the update loop of `ensureCheck`, the flap merge and the cleaner.
- Each network exchange is replaced by the reply it produced. A host's reply is success with a body, failure with its message, or context cancellation.
- Clock readings are parameters.
- The following library calls have no body in the model; they are named constants that the proofs never look into:
  - `strconv.ParseFloat`
  - Lua's number printing
  - `fmt.Sprintf("%v")` on limit values
  - `common.GetSubgroupName`
  - `common.InterfaceToString`
  - the value of `DEFAULT_CHECK_LEVEL`

Behaviour of the code a reader might not expect, which the model keeps:
- **Children are not deduplicated within one run.** The childSet is built once before the trigger loop and is not extended inside it (`senders/juggler/api.go:168-216`). Two events for the same new host:service pair therefore link the same child twice. See `DuplicateEventsLinkTwice`.
- **New checks miss their per-service flap option.** A check created during the loop (`senders/juggler/api.go:176-180`) is reconciled while its `Service` field is still empty, and `ensureFlap` looks its option up by that field (`senders/juggler/api.go:329-355`). The global setting therefore applies instead. See `NewCheckMissesServiceFlap`. Once stored under its service, the check picks the option up, so the next run finds it dirty and posts it again: a second run is quiet only when no created check has such an option. See `NewCheckFlapDirtyOnSecondRun` and `SecondRunIssuesNoUpdate`.
- **A failed update aborts the update loop.** It returns from `ensureCheck` at once (`senders/juggler/api.go:233-241`), so the checks after it in map order are not posted. See `UpdatesIssued`.
- **The default service name is spelled "UnknownServce".** Both decoders use that spelling (`senders/juggler/plugins.go:170-172`, `senders/juggler/go2lua.go:163`).
- **An unrecognised level string is kept.** The current decoder keeps the level string as given and forces "OK" only when the level is absent (`senders/juggler/plugins.go:173-179`).
- **The current decoder never sets the event's host.** No line of its callback assigns it (`senders/juggler/plugins.go:143-180`).

## Model

| member | source | states |
|---|---|---|
| GoStrings.Split | senders/juggler/api.go:302 | `strings.Split` yields at least one part and no part contains the separator |
| GoStrings.JoinSplit | senders/juggler/api.go:302 | joining the parts of a split with the same separator gives back the string |
| GoStrings.SplitJoin | senders/agave/agave.go:134-139 | splitting a '+'-join of separator-free parts gives back exactly those parts |
| GoStrings.SplitTwo | senders/agave/agave.go:94 | `SplitN(s, ".", 2)`: the head has no dot; without a dot the head is the whole name, otherwise name = head + "." + tail |
| GoValues.ByteString | senders/juggler/plugins.go:54-55 | definition: a `[]byte` printed with `%s` is the string with the same bytes, one character per byte |
| GoValues.TagsByName | senders/agave/agave.go:108 | the tag map has every tag name as a key, and every key maps to the value of some tag with that name |
| LuaValues.AsString | senders/juggler/plugins.go:145-146 | `LVAsString`: a string is itself, anything but a string or number is "" |
| LuaValues.RawGetString | senders/juggler/plugins.go:150 | a non-nil lookup result is stored under that key, and a key holding a non-nil value is found |
| LuaValues.Pairs | senders/juggler/plugins.go:142 | `ForEach` hands the callback only non-nil values |
| HostFanout.CheckFetcher | senders/juggler/api.go:105-136 | the fetch loop returns what the reference definition `FetchSpec` gives for the hosts' replies |
| HostFanout.FetchCharacterised | senders/juggler/api.go:105-136 | the first success returns that host's body; a cancellation returns the errors so far plus its own; if no host stops the loop, every host's error is returned in host order |
| HostFanout.FetchIgnoresLaterHosts | senders/juggler/api.go:126-129 | replies after the first success or cancellation do not change the outcome |
| HostFanout.PostUpdate | senders/juggler/api.go:402-444 | the update host loop returns what `PostFrom` gives for the replies |
| HostFanout.PostCharacterised | senders/juggler/api.go:402-444 | success iff a host accepts before any cancellation; a cancellation is returned as is; if every host fails, the error holds the distinct messages of all of them; only an empty host list gives the "unexpected error" |
| TtlCache.Swept | senders/juggler/cache.go:95-108 | a cleaner pass keeps exactly the entries whose expiry is not in the past, unchanged |
| TtlCache.Cache.constructor | senders/juggler/cache.go:29-33 | GlobalCache starts empty, with a one-minute lifetime and five-minute sweeps |
| TtlCache.Cache.TuneCache | senders/juggler/cache.go:36-41 | sets lifetime and interval and leaves the store alone |
| TtlCache.Cache.Get | senders/juggler/cache.go:46-79 | fetches iff the key is absent; a present key is served from the store; a failed fetch is not kept; an entry is dropped once the finishing time reaches its expiry; otherwise it is stored with expiry start + ttl |
| TtlCache.Cache.Delete | senders/juggler/cache.go:82-86 | removes exactly the key |
| TtlCache.Cache.Sweep | senders/juggler/cache.go:88-110 | one cleaner pass leaves the store equal to `Swept(store, now)` |
| Checks.MethodsOrDefault | senders/juggler/api.go:300-306 | the method list written back is never empty |
| Checks.Normalize | senders/juggler/api.go:245-385 | after the defaults are written, the TTL, method list, tag list and namespace are set, and the description is empty only without a check name; identity, token, flap settings and aggregator arguments are untouched |
| Checks.SyncTTL | senders/juggler/api.go:244-253 | the check gets the desired TTL; the flag rises iff the TTL differed; nothing else changes |
| Checks.SyncDescription | senders/juggler/api.go:255-264 | an empty desired description leaves the check alone; otherwise it is set, and the flag rises iff it differed |
| Checks.SyncNamespace | senders/juggler/api.go:382-391 | without a token the check is untouched; with one, the namespace is set and the flag rises iff it differed |
| Checks.SyncAggregator | senders/juggler/api.go:266-297 | an outdated check (flag, limit count, or a desired limit key missing or printing differently) takes the aggregator and its arguments and is flagged; otherwise it is unchanged |
| Checks.CheckOnlyKeysIgnored | senders/juggler/api.go:276-288 | limit keys only the check has never make it outdated |
| Checks.SyncMethods | senders/juggler/api.go:307-326 | methods differing in count or lacking a desired one are replaced and flagged; otherwise the check is unchanged |
| Checks.ReorderedMethodsKept | senders/juggler/api.go:307-321 | the same methods in another order are left alone |
| Checks.SyncFlap | senders/juggler/api.go:329-355 | the option for the check's service wins when enabled, a disabled one keeps the check's settings, otherwise an enabled global setting applies, otherwise flap is cleared; the flag rises only on a differing enabled setting |
| Checks.Missing | senders/juggler/api.go:372-378 | the tags appended are exactly the desired ones the check lacks |
| Checks.TagsMerged | senders/juggler/api.go:357-380 | existing tags stay a prefix, an empty list becomes the desired list, every desired tag ends up present, only desired tags are added, and the flag rises iff tags were empty or one was missing |
| Checks.ReconcileDirtyIff | senders/juggler/api.go:186-204 | after the seven reconcilers, the flag is up iff it was up or some attribute differed; host, service and children are untouched |
| Checks.ReconcileIdempotent | senders/juggler/api.go:186-204 | reconciling a reconciled check again, under the same service name, changes nothing and raises no flag |
| JugglerSender.ReconciledOncePerService | senders/juggler/api.go:174-204 | after the trigger loop the reconciled set is the services of the events, and the reconcilers ran once per service not reconciled before |
| JugglerSender.RunsEqualServices | senders/juggler/api.go:174-204 | a fresh run reconciles each distinct service of the events exactly once |
| JugglerSender.ChildrenLinked | senders/juggler/api.go:168-222 | no check disappears; prior children stay a prefix; every appended child comes from an event whose pair was not in the childSet; every such event's child is present |
| JugglerSender.ChangedChecksStamped | senders/juggler/api.go:175-223 | only services of the events change, and a changed check is dirty and carries the sender's host and its own service name |
| JugglerSender.DuplicateEventsLinkTwice | senders/juggler/api.go:168-216 | two events for one new host:service pair link the child twice |
| JugglerSender.NewCheckMissesServiceFlap | senders/juggler/api.go:176-203 | a check created in the loop ignores its enabled per-service flap option |
| JugglerSender.ReconciledSettled | senders/juggler/api.go:186-204 | a reconciled check differs from the configuration in no attribute |
| JugglerSender.FirstRunSettles | senders/juggler/api.go:174-223 | when no created check has an enabled per-service flap option, the trigger loop leaves every service of the events stored under its own name and settled, and every other check as it was |
| JugglerSender.SecondRunIssuesNoUpdate | senders/juggler/api.go:161-241 | under that premise, running the same events again over the stored checks, with their dirty flags cleared, changes nothing and leaves no check dirty, so nothing is posted |
| JugglerSender.NewCheckFlapDirtyOnSecondRun | senders/juggler/api.go:176-204 | without it, a check created with an enabled per-service flap option is dirty again on the next run |
| JugglerSender.PostedIffDirty | senders/juggler/api.go:224-241 | some check is posted iff some check is dirty, which decides the cache drop |
| JugglerSender.PostDirty | senders/juggler/api.go:233-241 | in any map order: only dirty checks are posted, each once; all posts but the last succeeded; without error every dirty check was posted; an error is the last post's outcome |
| JugglerSender.AttachFlaps | senders/juggler/api.go:145-155 | a flap setting is attached iff one of its timings is non-zero; other checks stay as decoded |
| JugglerSender.Sender.EnsureTTL | senders/juggler/api.go:244-253 | writes the TTL default into the sender and returns `SyncTTL` of the check |
| JugglerSender.Sender.EnsureDescription | senders/juggler/api.go:255-264 | writes the check name as default description and returns `SyncDescription` |
| JugglerSender.Sender.EnsureAggregator | senders/juggler/api.go:266-297 | the limit scan, stopping at the first difference, returns `SyncAggregator` |
| JugglerSender.Sender.EnsureMethods | senders/juggler/api.go:299-327 | writes the method default (split check method or GOLEM) and returns `SyncMethods` |
| JugglerSender.Sender.EnsureFlap | senders/juggler/api.go:329-355 | returns `SyncFlap` of the check |
| JugglerSender.Sender.EnsureTags | senders/juggler/api.go:357-380 | writes the tag default and returns `SyncTags` |
| JugglerSender.Sender.AddMissingTags | senders/juggler/api.go:362-379 | the set-then-append loop returns `SyncTags` |
| JugglerSender.Sender.EnsureNamespace | senders/juggler/api.go:382-391 | writes the namespace default and returns `SyncNamespace` |
| JugglerSender.Sender.EnsureAll | senders/juggler/api.go:190-203 | the seven methods in order normalise the sender and return `Reconcile` of the check |
| JugglerSender.Sender.CollectChildren | senders/juggler/api.go:168-173 | the childSet holds exactly host:service of every child already present |
| JugglerSender.Sender.LinkTrigger | senders/juggler/api.go:176-222 | one loop iteration yields the services of one `Step` of the trigger fold |
| JugglerSender.Sender.LinkTriggers | senders/juggler/api.go:174-223 | the trigger loop yields the services of the `Triggers` fold; the sender is normalised iff there was an event |
| JugglerSender.Sender.EnsureCheck | senders/juggler/api.go:161-242 | the host's map becomes the fold's result; the updates issued satisfy `UpdatesIssued`; the host's cache entry is dropped iff some check was dirty |
| Plugins.Dump | senders/juggler/plugins.go:95-131 | the number dumper accepts numbers and parsable strings, the value dumper numbers, strings and booleans, each converted to the matching Lua value |
| Plugins.ToLua | senders/juggler/plugins.go:49-93 | bytes are dumped as their string; a slice becomes an array table and a map or struct a string-keyed table, element by element |
| Plugins.ToLuaItems | senders/juggler/plugins.go:57-66 | on success, one converted element per element, in order |
| Plugins.ToLuaFields | senders/juggler/plugins.go:67-89 | on success, one field per entry under its key, in order |
| Plugins.ToLuaItemsFirstFailure | senders/juggler/plugins.go:58-63 | a failed slice conversion reports the first element that fails |
| Plugins.ToLuaFieldsFirstFailure | senders/juggler/plugins.go:69-88 | a failed map or struct conversion reports the first value that fails |
| Plugins.ToLuaSucceedsIff | senders/juggler/plugins.go:49-131 | conversion succeeds iff every scalar inside the value is one the dumper accepts |
| Plugins.ConfigToTable | senders/juggler/plugins.go:16-26 | the configuration table is the conversion of the configuration as a map, with the same error |
| Plugins.TagsTable | senders/juggler/plugins.go:33-36 | definition: one string field per tag |
| Plugins.DataToTable | senders/juggler/plugins.go:28-47 | succeeds iff every result converts; then one table per item, in order, with its tags and converted result; otherwise the first failing item's error |
| Plugins.TagMap | senders/juggler/plugins.go:155-158 | every tag key is present, every key comes from a pair, and the last pair's value is what its key holds |
| Plugins.DecodeItemChecks | senders/juggler/plugins.go:143-180 | the exact messages for a non-table item, a missing tags table and a missing `type` tag; the service default; with a level present, the description is the one given or "no trigger description" when that is empty; the level default |
| Plugins.Errors | senders/juggler/plugins.go:140-146 | the error set holds exactly the messages of the failed items |
| Plugins.CopyTags | senders/juggler/plugins.go:155-158 | the tag loop builds `TagMap` |
| Plugins.DecodeOne | senders/juggler/plugins.go:142-181 | the callback's outcome for one pair is `DecodeItem` |
| Plugins.DecodeAll | senders/juggler/plugins.go:140-181 | the messages of all failed items; without failures, one event per item, in order |
| Plugins.DecodeEvents | senders/juggler/plugins.go:135-186 | a nil result is an error; otherwise success iff every item decodes, with one event per item in ForEach order, else the set of messages |
| Go2Lua.Dump | senders/juggler/go2lua.go:100-134 | as in the current bridge, but the value dumper rejects booleans |
| Go2Lua.ByteTable | senders/juggler/go2lua.go:57-66 | definition: a `[]byte` becomes an array table of its bytes as numbers |
| Go2Lua.ToLua | senders/juggler/go2lua.go:53-98 | bytes become a byte table; slices, maps and structs convert element by element |
| Go2Lua.ToLuaItems | senders/juggler/go2lua.go:57-67 | on success, one converted element per element, in order |
| Go2Lua.ToLuaFields | senders/juggler/go2lua.go:68-90 | on success, one field per entry under its key, in order |
| Go2Lua.ToLuaItemsFirstFailure | senders/juggler/go2lua.go:59-66 | a failed slice conversion reports the first element that fails |
| Go2Lua.ToLuaFieldsFirstFailure | senders/juggler/go2lua.go:70-89 | a failed map or struct conversion reports the first value that fails |
| Go2Lua.ToLuaSucceedsIff | senders/juggler/go2lua.go:53-134 | conversion succeeds iff every scalar inside the value is one the dumper accepts |
| Go2Lua.BoolConfigRejected | senders/juggler/go2lua.go:120-133 | a boolean in the plugin configuration makes its conversion fail |
| Go2Lua.ConfigToTable | senders/juggler/go2lua.go:25-35 | the configuration table is the conversion of the configuration as a map, with the same error |
| Go2Lua.Nested | senders/juggler/go2lua.go:37-39 | definition: the data is one map from host to that host's metric map, in order |
| Go2Lua.MetricsTable | senders/juggler/go2lua.go:42-48 | the metric loop gives the fields of converting the metric map with the number dumper |
| Go2Lua.DataToTable | senders/juggler/go2lua.go:37-51 | the table is the conversion of the nested map, with the same error; on success one host table per host, each with one field per metric |
| Go2Lua.EffectiveDefault | senders/juggler/go2lua.go:139-141 | definition: an empty default level becomes `DEFAULT_CHECK_LEVEL` |
| Go2Lua.LevelCode | senders/juggler/go2lua.go:165-171 | definition: the four level names map to 0..3; an unknown name reads as 0 |
| Go2Lua.DecodeItemChecks | senders/juggler/go2lua.go:154-173 | a table item fails iff its host is empty ("UnknownHost in event"); otherwise the host, defaulted service and description, and a known level or the default level with " (Forse status …)" appended |
| Go2Lua.Recorded | senders/juggler/go2lua.go:146-158 | the recorded messages, in order, are empty iff every item decoded, and each comes from a failed item |
| Go2Lua.Emitted | senders/juggler/go2lua.go:147-173 | when every item decodes, one event per item, in order |
| Go2Lua.DecodeOne | senders/juggler/go2lua.go:149-173 | the corrected callback's outcome for one pair is `DecodeItem` |
| Go2Lua.DecodeAll | senders/juggler/go2lua.go:146-174 | the corrected loop records `Recorded` and emits `Emitted` of the decoded items |
| Go2Lua.DecodeEvents | senders/juggler/go2lua.go:138-179 | the corrected decoder: nil is an error; otherwise success iff every item decodes, one event per item, else the ordered messages |
| Go2Lua.AsWrittenItem | senders/juggler/go2lua.go:149-158 | the callback as written panics iff the item is not a table, and otherwise agrees with `DecodeItem` |
| Go2Lua.AsWrittenLoopPanics | senders/juggler/go2lua.go:148-174 | the loop as written panics iff some item is not a table |
| Go2Lua.AsWrittenLoopFinishes | senders/juggler/go2lua.go:148-174 | where the loop as written finishes, it recorded and emitted what the corrected loop does |
| Go2Lua.AsWrittenDecode | senders/juggler/go2lua.go:138-179 | the decoder as written: nil is an error, and it panics iff some item is not a table |
| Go2Lua.NonTableItemPanics | senders/juggler/go2lua.go:149-155 | a result holding the number 7 makes the decoder as written panic, while the corrected one reports an error |
| Agave.Roots | senders/agave/agave.go:93-101 | the roots are exactly the heads of the configured items |
| Agave.QueryItems | senders/agave/agave.go:92-102 | the query map's keys are exactly the roots, each mapped to its metric names in order |
| Agave.AddItem | senders/agave/agave.go:94-101 | definition: a dotted item appends its tail under its root; a dotless one registers its root without touching existing names |
| Agave.QueryItemsSnoc | senders/agave/agave.go:93-102 | one more item changes the query map exactly as the loop body does |
| Agave.BuildQueryItems | senders/agave/agave.go:92-102 | the loop over the items builds `QueryItems` |
| Agave.FieldsLineSplits | senders/agave/agave.go:134-139 | a slice line split at '+' gives back one field:value part per field, when no part holds a '+' |
| Agave.SliceLines | senders/agave/agave.go:124-139 | definition: a slice yields a line iff there are fields and as many as elements; that line is the '+'-join |
| Agave.Lookup | senders/agave/agave.go:147-151 | a metric is missing iff no entry has its name, and a found value is that entry's |
| Agave.MetricLine | senders/agave/agave.go:145-172 | at most one line per metric; none for a missing metric, a nested map or a nil value (the nil case is where the source panics, see `Crashes`); a scalar gives name:value |
| Agave.MetricLines | senders/agave/agave.go:145-173 | at most one line per metric name; none when no metric is present |
| Agave.NilMetricSome | senders/agave/agave.go:147-172 | the metric loop panics iff some queried metric holds nil |
| Agave.MapLines | senders/agave/agave.go:145-173 | the metric loop panics iff some queried metric holds nil; otherwise it builds `MetricLines` |
| Agave.ResultLines | senders/agave/agave.go:122-177 | a slice yields its field line only without metric names; a map with no metric names yields nothing; a scalar yields root:value |
| Agave.Contribution | senders/agave/agave.go:103-177 | an item is skipped iff it lacks the aggregate tag, its root is not queried or its subgroup fails; otherwise its subgroup and lines |
| Agave.JoinFields | senders/agave/agave.go:134-139 | the join loop builds `FieldsLine` |
| Agave.RepackOne | senders/agave/agave.go:103-177 | one item's processing panics iff the item `Crashes`; otherwise it gives `Contribution` |
| Agave.Repack | senders/agave/agave.go:88-181 | panics iff some item crashes; otherwise a subgroup is present iff it has lines, and it holds its lines in data order |
| Agave.AnyCrashSome | senders/agave/agave.go:103-177 | the repacking loop panics iff some item is a map with a nil value under a queried metric of its root, with its subgroup known |
| Agave.SendErrors | senders/agave/agave.go:206-240 | at most one error per host |
| Agave.SendErrorsFull | senders/agave/agave.go:206-240 | a point reports one error per host iff every host was tried and none accepted it |
| Agave.SendPoint | senders/agave/agave.go:206-240 | the host loop reports `SendErrors` of the replies |
| Agave.AsWrittenVerdict | senders/agave/agave.go:75-85 | definition: as written, Send fails iff the number of distinct messages equals subgroups × hosts |
| Agave.DistinctBound | senders/agave/agave.go:75-85 | there are never more distinct messages than subgroups × hosts, and exactly that many only when nothing was delivered |
| Agave.AsWrittenErrorOnlyWhenUndelivered | senders/agave/agave.go:75-85 | the verdict as written reports an error only when every subgroup was tried on every host and none accepted it |
| Agave.RepeatedFailureReportedAsSuccess | senders/agave/agave.go:75-85 | one subgroup, two hosts both answering 500: undelivered, yet reported as success |
| Agave.Send | senders/agave/agave.go:53-86 | fails iff there are subgroups and hosts and every subgroup was tried on every host and none accepted it; the error holds every distinct message |

## Left out

- HTTP itself is not modelled: URLs, query encoding, headers, the OAuth header and the request templates. Each host exchange is the `Reply` it produced, so status codes and unreadable bodies become a failure message.
- JSON is not modelled: the decoding of the `getCheck` reply into checks and flap settings, and the encoding of a check in `updateCheck`, including its error path.
- The `http.NewRequest` error in `updateCheck` is not modelled; that constructor fails only on a malformed method or URL.
- `Agave.SendPoint`: the panic when `http.NewRequest` rejects the point's URL is not modelled. `sendPoint` discards that error (`senders/agave/agave.go:208`) and then sets the headers of the nil request (`senders/agave/agave.go:209`), which panics. The URL is printed through a template without escaping (`senders/agave/agave.go:187-195`), so a control character in a printed value, a malformed `%`-escape in the subgroup or graph name, or a malformed configured host would reach that panic. URLs are not part of this model, so the model cannot tell such a point apart, and it treats every request as sent.
- `getCheck` is covered only by its flap merge (`AttachFlaps`) and its fetch loop (`CheckFetcher`). Its query building and its write of the tag default are not part of this model. That default is the same one `ensureTags` writes.
- Concurrency is not modelled:
  - the cache mutex, the `ready` channel and the `sync.Once` of the cleaner;
  - the cleaner's sleep;
  - agave's goroutines, WaitGroup and error channel.
- Each cache operation is one atomic step on the store, and agave's points are sent one after another. The outcome is a set of messages, so the order of sending does not show in it.
- `TtlCache.Cache.Sweep`: one cleaner pass compares every entry with a single clock reading, where the cleaner reads the clock once per entry (`senders/juggler/cache.go:99-100`); an entry that expires while the pass runs is kept by the model and may be dropped by the code, until the next pass.
- Single-flight waiting in `cache.Get` is not modelled. A caller waiting on an in-flight fetch gets that fetch's result, its error included, which the sequential model does not show.
- Floating point is not modelled. Integer-to-float conversions are exact in the model, and `ParseFloat`, Lua's number printing, `fmt.Sprintf("%v")`, `common.InterfaceToString` and `common.GetSubgroupName` are uninterpreted.
- Map keys that are not strings, and unexported struct fields (reflection panics on them), are not part of the Go value model.
- The Lua interpreter (`LoadPlugin`, `preparePluginEnv`, `runPlugin`) is not part of this model; the bridges' inputs and outputs are tables.
- Table keys other than array positions and strings are not part of this model.
- `DEFAULT_CHECK_LEVEL` is defined outside the modelled files; its value is a named constant.
- Logging is left out.
- `Agave.Send`: a template error in `handleOneItem` is not modelled. It would count as one more message for the subgroup, and with a constant template it cannot occur.
- `JugglerSender.Sender.EnsureFlap`: the sharing of flap settings is not modelled. `c.Flap = js.Flap` makes the check hold the sender's own setting, so the in-place `Enable = 1` write is seen by both. `Enable` is never sent and is always forced to 1 before comparing, so the sharing does not change any result.
- `Agave.Send` starts from the repacked map, because the source's `send` never returns an error and its map is passed on as is.
- `Agave.RepackOne`: the lines of one item are built first and then appended to the subgroup, where the source appends in place; the resulting map is the same.

## Findings

| source | as written | input that shows it | evidently intended | confidence | as-written member | corrected member |
|---|---|---|---|---|---|---|
| senders/juggler/go2lua.go:149-155 | a non-table item records its error but does not return, so the nil table is dereferenced on the next line | a result table whose only item is the number 7 | record the error and skip the item, as the other failure branches do | high, not executed | Go2Lua.NonTableItemPanics | Go2Lua.DecodeEvents |
| senders/agave/agave.go:75-85 | failures are counted as distinct message strings, so repeated identical failures fall short of subgroups × hosts | one subgroup, two hosts, both answering 500 | report an error when every subgroup was tried on every host and none accepted it | high, not executed | Agave.RepeatedFailureReportedAsSuccess | Agave.Send |
