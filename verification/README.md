# Verified models of Superset components

A Dafny 4.11 project that models the stateful and algorithmic parts of Apache Superset and proves
what they promise. `dafny verify dfyconfig.toml` checks all of it.

## The WebSocket event server

`superset-websocket/src/index.ts` keeps three registries - channels, sockets and the cursor of the
global event stream - and changes them in every handler.

- `EventServer` is the server itself: a class with those registries, heap records for channels,
  socket instances and sockets, and one method per handler. A throwing send, a channel record that is
  replaced or deleted while the send loop runs over it, and a socket that dies during a send are all
  possible. Each method is tied to a function on `Registries`.
- `EventSystem` is the same server within its surroundings as a state machine over whole runs:
  publishers, connections, batches, range reads answered later, state changes, pongs, sweeps,
  collections and the clock.
- `EventSafety` proves the invariant step by step, `EventTheorems` the promises for every run:
  agreement of the registries, no gap after a reconnection (with the exact condition), contiguity of
  the global stream, and the time bound on silent sockets. `EventRuns` builds reachable runs in which
  a reconnecting client loses an event.

Redis reads are steps that may return any admissible batch, `ws.send` has a fate per socket (whether
it throws, and the state it leaves the socket in), and `Date.now()` is a clock that does not run
backwards. A publisher appends an event first to its channel's stream and then, in a step of its own,
to the global one, and gets a generated id from each (`superset/utils/async_query_manager.py:206-211`).
The model keeps both streams, counts the sends of the global reader and of the range reads apart,
proves the exact conditions under which a reconnecting client misses nothing and gets nothing twice.
The last id a client sends back is the id of the last record it got
(`superset-frontend/src/middleware/asyncEvent.ts:169-170` and `:228`): one of the global stream when
the global reader sent it, one of the channel's stream when a range read did. What a client wants is
therefore stated for both orders.

## SQL parsing and SQL Lab

- `TableWalker` walks a token tree with the source's flag and its two growing sets. The walk is proved
  equal to a description by positions and paths, at every depth.
- `TableNames` models the text tables are compared under, including UTF-8 and the percent-encoding of
  section 2.1 of RFC 3986 with the dot also escaped.
- `LimitRewriter` overwrites the value of a token in place, as the source does, and relates the
  resulting text to the rewritten token list.
- `SqlLab` runs the statements of a query against a session whose row the stop views of other
  sessions may write. A stop view reads the row at one moment, has the engine cancel, and writes at a
  later one, also after the run; it is refused without a committed cancel id. Everything observable -
  refreshes, commits, sends, the commit of the connection, stored payloads - goes to a log, and the
  promises are about that log; moments are counted by the refreshes and commits of the run, so that
  the exact span in which a stop takes effect can be told. What a cancelled connection does to the
  statements is part of how the database answers them. `RowLimit` is the arithmetic of fetching one
  more row.

## The chart-data cache

`ChartCache` models the key, the retrieval and any history of requests and evictions; `Rehydration`
builds query objects from request data (which changes the request's own `extras`), runs a context
through the cache and builds it again from what was kept.

## Smaller algorithms

`Sankey` (cycle search with one shared path set), `Dedup` (column names), `Menus` (worklist flattening
with in-place sorting, previous and next links), `TaskList` (directory stack) and `KeepLatest`
(selection of superseded workflow runs). `Decimal`, `Options`, `Sequences`, `Sorting` and `SqlTokens` are shared.

## Where the code and its own words differ

The model follows the code in each case.

- `dedup` says that it always returns unique values; `Dedup.GeneratedNameCanClash` shows a list for
  which it does not, and `Dedup.DistinctExactly` says exactly when it does.
- The raised row limit is computed before the overall maximum is applied
  (`superset/sql_lab.py:213` and `:241`); `RowLimit.RowLimitExactly` says exactly for which limits the
  returned rows are right all the same.
- The key of a query holds neither its time shift nor, for a query with a datasource of its own, the
  context's datasource; `ChartCache.TransparencyExactly` says that this is exactly what can go wrong.
- `LIMIT offset, count` is overwritten even by a larger limit, although the docstring of
  `set_or_update_query_limit` promises the lower value, and `LIMIT 0` gets a second LIMIT clause;
  `LimitRewriter.LoweringExactly` says exactly when the promise holds.
- The link named by the Sankey error leads to a loop but need not lie on it:
  `Sankey.NamedLinkCanMissTheLoop` is an example, `Sankey.NamedLinkOnLoopExactly` the exact condition.
- While the cursor is still `$` a reconnecting client can miss records, and so it can when the ids of
  the two streams differ, at the upper end of its range read as well as at the lower one; the
  conditions are stated exactly, and `EventRuns` has a run for each.
- Routes are compared with all slashes removed, so different routes can be one page;
  `Menus.LinksExactly` says what that does to the links.
- A stop is refused before the cancel id is committed, and on engines without cancel ids always; one
  that is written after the last refresh is overwritten by success; `SqlLab.StopDecides` says that
  these are all that a run can outlast. A stop view that is slower than the run overwrites the
  recorded success in turn; `SqlLab.RunAndSettle` says exactly when.
- A run that is listed twice, as when it starts between the two listings, is kept and cancelled;
  `KeepLatest.KeptIsSafeExactly` says that this is the only way to lose a kept run.
- A forced run of two queries that differ in time shift alone leaves one entry for both;
  `Rehydration.RehydratesExactly` says what that does to a replay.

## Model

| member | source | states |
|---|---|---|
| `StreamIds.IncrementIdIsSuccessor` | superset-websocket/src/index.ts:278-283 | incrementing the text of a well-formed id gives the text of its successor, for every counter that `Number` holds exactly |
| `StreamIds.NothingBetween` | superset-websocket/src/index.ts:276-283 | the successor is exact in (ms, counter) order: no id lies between an id and its successor |
| `StreamIds.MalformedIsUnchanged` | superset-websocket/src/index.ts:280-281 | a text without a dash is returned as it is |
| `StreamIds.RenderIsInjective` | superset-websocket/src/index.ts:279-282 | different ids have different texts |
| `Decimal.DigitsMeaning` | superset-websocket/src/index.ts:282 | a number is printed in its decimal digits, the last one last, without a leading zero |
| `Registries.CleanMeaning` | superset-websocket/src/index.ts:413-428 | cleaning a channel keeps exactly its ids that are tracked and connecting or open, drops it exactly when none is left, and leaves other channels and all sockets alone |
| `Registries.RecipientsAreExactlyTheChannel` | superset-websocket/src/index.ts:160-178 | a send reaches once each id that was listed at entry and is tracked, nobody else, and so every live socket of the channel |
| `Registries.TrackAgrees` | superset-websocket/src/index.ts:137-153 | tracking a new socket keeps the agreement of the registries |
| `Registries.TrackMeaning` | superset-websocket/src/index.ts:137-153 | tracking enters the socket under its id, and the id at the end of its channel's list alone |
| `Registries.SendAgrees` | superset-websocket/src/index.ts:160-178 | a send, whichever sends throw and whatever is cleaned in between, keeps the agreement, adds nothing and forgets no socket |
| `Registries.SendTidies` | superset-websocket/src/index.ts:166-177 | after a send the channel lists only tracked sockets, and of those whose send threw only live ones; when every listed socket is tracked and none throws the lists are as before |
| `Registries.SweepAgrees` | superset-websocket/src/index.ts:381-406 | a sweep keeps the agreement and adds nothing |
| `Registries.CleanAllMeaning` | superset-websocket/src/index.ts:445-450 | a collection over channels in any order keeps the agreement and leaves only live ids in the channels it visited |
| `Registries.CollectionListsTheLive` | superset-websocket/src/index.ts:445-450 | after a collection over all channels the listed ids are exactly the live sockets |
| `Registries.SweepThenCollectAgrees` | superset-websocket/src/index.ts:381-450 | a sweep followed by a collection makes the listed ids equal the keys of `sockets` |
| `EventSystem.XrangeMeaning` | superset-websocket/src/index.ts:184-198 | a range read returns each of the channel's records between its two ids once, and nothing else |
| `EventSystem.LiveSocketsGetTheBatch` | superset-websocket/src/index.ts:241-252 | for a socket still live after a batch, `ws.send` was called with exactly the batch's records for its channel, each as often as the batch holds it, with bad records, throwing sends and cleaned channels in between |
| `EventSafety.PublishScopedKeeps` | superset/utils/async_query_manager.py:206-208 | appending an event to its channel's stream, at any moment and whatever other publishers do, keeps the invariant |
| `EventSafety.PublishGlobalKeeps` | superset/utils/async_query_manager.py:209-211 | appending it later to the global stream keeps the invariant |
| `EventSafety.ConnectKeeps` | superset-websocket/src/index.ts:288-310 | a connection keeps the invariant of the whole server |
| `EventSafety.GlobalReplyKeeps` | superset-websocket/src/index.ts:229-230 | handing a batch on and then moving the cursor to its last id keeps the invariant |
| `EventSafety.RangeReplyKeeps` | superset-websocket/src/index.ts:184-198 | answering a reconnecting client's range read, at any later moment, keeps the invariant |
| `EventSafety.PongKeeps` | superset-websocket/src/index.ts:313-321 | a pong, known or unknown, keeps the invariant |
| `EventSafety.SweepKeeps` | superset-websocket/src/index.ts:381-406 | a sweep keeps the invariant, including the bound on silence |
| `EventSafety.NextKeeps` | superset-websocket/src/index.ts:130-450 | every step of the server, its publishers and its clock keeps the invariant |
| `EventSafety.ReachableInv` | superset-websocket/src/index.ts:130-450 | the invariant holds in every state of every run |
| `EventTheorems.RegistriesAgree` | superset-websocket/src/index.ts:137-178 | in every reachable state each live socket is listed once, under its own channel, no id is in two channels, no list is empty; a sweep and a collection make listed and tracked ids the same |
| `EventTheorems.ReconnectLeavesNoGap` | superset-websocket/src/index.ts:297-310 | a client that reconnects and stays live has `ws.send` called for everything newer than its last id, in the order of the stream that id was taken from, once the cursor is a real id and what the reader had passed lies in the range read by the ids of the channel's stream |
| `EventTheorems.CallsExactly` | superset-websocket/src/index.ts:160-178 | how often `ws.send` was called for an event, by the global reader and by range reads, follows from positions and ids alone |
| `EventTheorems.ReconnectGapExactly` | superset-websocket/src/index.ts:297-310 | whether newer means by the ids of the global stream or of the channel's own: nothing newer is missed if and only if each such event passed before the connection lies, by its channel-stream id, after the last id and up to the cursor, or was covered by another range read on the channel; with a single range read, if and only if the id condition holds |
| `EventTheorems.OnceEachExactly` | superset-websocket/src/index.ts:297-310 | with a single range read, and in either order of newer, each wanted event is sent exactly once if and only if those passed before the connection are exactly those that lay between the last id and the noted cursor in the channel's stream when that read was taken |
| `EventTheorems.SameIdsNeverGap` | superset-websocket/src/index.ts:297-310 | when the channel's events have the same ids in both streams nothing is ever missed |
| `EventTheorems.SameIdsSplitTheWork` | superset-websocket/src/index.ts:300-309 | when the channel's events have the same ids in both streams each wanted event is sent exactly once: by the range read if it was passed before the connection, by the global reader otherwise, and no other record is about it |
| `EventTheorems.FirstReplyGapExactly` | superset-websocket/src/index.ts:302-303 | while the cursor is still `$`, in either order of newer, nothing newer is missed if and only if every such event before the reader's first batch was covered by a range read; with a single one, if and only if its channel-stream id lies after the last id and it was published before that read was taken |
| `EventTheorems.FirstReplyOnceExactly` | superset-websocket/src/index.ts:302-303 | and each wanted event is sent exactly once if and only if those before the first batch are exactly those the single range read covered |
| `EventRuns.FirstReplyCanGap` | superset-websocket/src/index.ts:302-303 | there is a run in which an event published between the range read and the first batch is lost |
| `EventRuns.IdsApartCanGap` | superset/utils/async_query_manager.py:206-211 | there is a run in which two events are published in opposite orders to the two streams and a reconnected client misses the one that lies past the end of its range read |
| `EventRuns.GlobalLastIdCanGap` | superset-frontend/src/middleware/asyncEvent.ts:169-170 | there is a run in which a client sends back the global id of the last event it got and, its range read starting after that id in the channel's stream, misses the next event, although nothing is missing by the channel stream's ids |
| `EventTheorems.FirehoseIsContiguous` | superset-websocket/src/index.ts:205-236 | from any concrete cursor, the batches handed to the listener join to one contiguous run of the stream right after it |
| `EventTheorems.SilentSocketsAreForgotten` | superset-websocket/src/index.ts:386-394 | no socket stays tracked longer than the timeout and one sweep period after its last pong |
| `EventTheorems.OnlySilenceOrDeathForgets` | superset-websocket/src/index.ts:386-405 | a step forgets a socket if and only if it is a sweep and the time since its last pong has reached the timeout or its state is neither connecting nor open |
| `EventServer.Server.TrackClient` | superset-websocket/src/index.ts:137-153 | the class's registries change as the tracking step says, with the channel record shared in place |
| `EventServer.Server.CleanChannel` | superset-websocket/src/index.ts:413-428 | replacing or deleting a channel record in place is the cleaning step |
| `EventServer.Server.SendToEach` | superset-websocket/src/index.ts:166-177 | the loop sends exactly once to each id of the list it found at entry, although the list's record may be replaced or deleted meanwhile |
| `EventServer.Server.SendToChannel` | superset-websocket/src/index.ts:160-178 | the registries and every socket's sends end up as the send step says; an unknown channel is skipped |
| `EventServer.Server.ProcessStreamResults` | superset-websocket/src/index.ts:241-252 | a batch is sent record by record; one bad record does not stop the rest |
| `EventServer.Server.ReadOnce` | superset-websocket/src/index.ts:211-234 | timeouts, empty replies and errors change nothing; a batch is handed on and the cursor becomes its last id |
| `EventServer.Server.SubscribeToGlobalStream` | superset-websocket/src/index.ts:205-236 | any number of turns of the reader's loop is the fold of its single turns |
| `EventServer.Server.CheckSocket` | superset-websocket/src/index.ts:384-405 | a socket stays active if and only if its last pong is younger than the timeout and its state is connecting or open; it is terminated if and only if that pong is not, pinged once if it stays, and forgotten otherwise |
| `EventServer.Server.CheckSockets` | superset-websocket/src/index.ts:381-406 | looking at the sockets in any order, deleting on the way, is the sweep step; of every socket it is told by its last pong and its state whether it is kept, pinged and terminated |
| `EventServer.Server.Gc` | superset-websocket/src/index.ts:445-450 | cleaning every channel, deleting on the way, is a collection over all of them |
| `EventServer.Server.PongFrom` | superset-websocket/src/index.ts:313-321 | a pong sets the time of its socket and of no other, or is ignored |
| `EventServer.Server.WsConnection` | superset-websocket/src/index.ts:288-310 | a connection is tracked; the range read it asks for starts at the incremented id - the successor of a well-formed one - and ends at the cursor, or at `+` |
| `EventServer.ReaderIsContiguous` | superset-websocket/src/index.ts:205-236 | over any replies the reader hands on the records right after its cursor, each once and in order |
| `EventServer.InboxIsWhatWasSent` | superset-websocket/src/index.ts:166-177 | the run model's count of sends is the count in the sockets' inboxes |
| `EventServer.LiveInboxInOrder` | superset-websocket/src/index.ts:241-252 | a socket still live after a batch was sent the batch's events for its channel, in the batch's order |
| `TableNames.Utf8RoundTrip` | superset/sql_parse.py:97 | decoding the encoded bytes gives the text back |
| `TableNames.EncodingMeaning` | superset/sql_parse.py:97 | one byte below 0x80, otherwise a first byte that tells the length and six bits in each further byte, the highest first |
| `TableNames.EscapeRoundTrip` | superset/sql_parse.py:97 | percent-encoding with the dot also escaped is undone by percent-decoding, and leaves no dot |
| `TableNames.EscapeMeaning` | superset/sql_parse.py:97 | letters, digits, `_`, `-` and `~` stand for themselves, any other ASCII character, the dot included, is `%` and its number in two hexadecimal digits |
| `TableNames.EscapeJoins` | superset/sql_parse.py:97 | the escaping goes character by character |
| `TableNames.StrRoundTrip` | superset/sql_parse.py:91-100 | splitting a table's text at the dots and decoding gives the present parts back |
| `TableNames.PartsExactly` | superset/sql_parse.py:91-100 | the text is made of catalog, schema and table in this order, of those that are given and not empty |
| `TableNames.PlainText` | superset/sql_parse.py:91-100 | parts made of letters, digits, `_`, `-` and `~` stand in the text as they are, with dots in between; a table alone is its own name |
| `TableNames.StrIdentifiesParts` | superset/sql_parse.py:91-100 | two tables have the same text if and only if they have the same present parts |
| `TableNames.StrIsInjective` | superset/sql_parse.py:81-100 | for names of the form [[catalog.]schema.]table the text identifies the table |
| `TableNames.CatalogAloneIsAmbiguous` | superset/sql_parse.py:96-99 | a catalog without a schema is not told from a schema |
| `TableWalker.WalkExactly` | superset/sql_parse.py:268-312 | at every depth exactly the dotted names without CTE prefix after a table-announcing sibling keyword, and exactly the aliases of subselects, are found |
| `TableWalker.TablesExactly` | superset/sql_parse.py:187-240 | the walk finds a table if and only if it looks at a name without parentheses whose tokens before the alias spell that table, token by token |
| `TableWalker.TableYielded` | superset/sql_parse.py:187-214 | before its alias, cut at the first white space, a name is `table`, `schema.table` or `catalog.schema.table`, unquoted, and no name of a CTE; no other tokens give a table |
| `TableWalker.UnquotedMeaning` | superset/sql_parse.py:212 | one pair of quotes of one kind is taken off, other texts stay |
| `TableWalker.OpensMeaning` | superset/sql_parse.py:287-293 | the keywords that announce a table are the six listed ones and those that end in ` JOIN` |
| `TableWalker.AliasYielded` | superset/sql_parse.py:234-239 | a name with parentheses gives its alias, and its first token when that is a name |
| `TableWalker.FromQualified` | superset/sql_parse.py:205-212 | `SELECT * FROM schema.table` has that one table in that schema |
| `TableWalker.GovernedNext` | superset/sql_parse.py:293-302 | the flag the loop carries says that the nearest preceding sibling keyword announces a table |
| `TableWalker.ParsedQuery.ExtractFromToken` | superset/sql_parse.py:268-312 | the mutable walk adds to the two sets exactly what the walk of the token finds, and terminates |
| `TableWalker.ParsedQuery.ProcessTokenlist` | superset/sql_parse.py:220-240 | a dotted name adds its table, a subselect its aliases and what lies inside it |
| `TableWalker.ParsedQuery.Tables` | superset/sql_parse.py:118-127 | the property answers the extracted tables whose text is no alias, and keeps an answer that is not empty |
| `TableWalker.TablesTwice` | superset/sql_parse.py:118-127 | a second reading of the property gives the same tables, in terms of the walks of the statements alone |
| `LimitRewriter.PositiveLimitIsRewritten` | superset/sql_parse.py:333-340 | an existing positive limit becomes the intended one; every other token, and the offset of the comma form, is unchanged |
| `LimitRewriter.ClauseIsAppended` | superset/sql_parse.py:324-325 | a statement without LIMIT gets exactly the new limit |
| `LimitRewriter.RewritingExactly` | superset/sql_parse.py:314-345 | afterwards there is one LIMIT clause, with the new limit when forced or in the comma form and the lower one otherwise, if and only if there was none or a positive number before |
| `LimitRewriter.RewrittenText` | superset/sql_parse.py:324-345 | the rewritten text: the clause appended to all of it, or all of it with the number replaced when forced or lowered, or with the list's first member and the new limit |
| `LimitRewriter.ExtractMeaning` | superset/sql_parse.py:48-74 | a statement has the limit n exactly when a number of that value follows its first LIMIT after white space, alone or after the first comma of a list |
| `LimitRewriter.CountMeaning` | superset/sql_parse.py:56-68 | the count of a list is what follows its first comma, with white space or without; a list without a comma or with nothing after it has none |
| `LimitRewriter.LoweringExactly` | superset/sql_parse.py:314-321 | unforced, there is one LIMIT clause with the lower of the two limits, as the docstring promises, if and only if there was none, or a positive number which in the comma form is at least the new one |
| `LimitRewriter.LoweringComposes` | superset/sql_parse.py:333-338 | lowering to n and then to m is lowering to the smaller one if and only if n is not zero and, in the comma form, m is at most n |
| `LimitRewriter.CommaFormIsOverwritten` | superset/sql_parse.py:339-340 | `LIMIT offset, count` is always overwritten, never only lowered |
| `LimitRewriter.LimitedQuery.SetOrUpdateQueryLimit` | superset/sql_parse.py:314-345 | overwriting the token's value in place and joining the values gives the text of the rewritten statement |
| `RowLimit.RowLimitExactly` | superset/sql_lab.py:210-281 | asking for one row more and dropping it returns the first rows up to the limit, and flags NOT_LIMITED if and only if that is all, for every result set, exactly when the limit is positive and at most the overall maximum |
| `RowLimit.DeliveredExactly` | superset/sql_lab.py:210-281 | which rows come back for any limit, and whether they count as all of them |
| `RowLimit.LimitInText` | superset/sql_lab.py:238-247 | the text has one more than the limit, exactly for a SELECT that is not exempt with a limit in force |
| `RowLimit.InexactOtherwise` | superset/sql_lab.py:213-247 | otherwise there is a result set that comes back wrong, because the raised limit is taken before the maximum is applied |
| `SqlLab.BuildSql` | superset/sql_lab.py:213-247 | the text, the limit field and the CREATE AS flag after the rewriting part of a statement's execution |
| `SqlLab.FetchData` | superset/sql_lab.py:276-281 | the data is the first `query.limit` rows when the limit is in step with the overall maximum, flagged NOT_LIMITED if and only if that is all, and otherwise the delivery for the raised limit |
| `SqlLab.ExecuteSqlStatement` | superset/sql_lab.py:196-308 | one statement: refused without a send, or committed and sent once, and then fetched, stopped or failed |
| `SqlLab.RunStatement` | superset/sql_lab.py:457-498 | the loop body keeps the order of sends; it completes exactly when no stop was written since the run began and the statement delivers, and a stop ends it with nothing sent |
| `SqlLab.RunStatements` | superset/sql_lab.py:456-498 | the loop sends the plan's statements in order and completes exactly when all deliver and no stop is written up to the last refresh; nothing is sent that is refreshed after a stop |
| `SqlLab.Finish` | superset/sql_lab.py:500-583 | the connection is committed first, and when that fails nothing else happens; the results are stored before success is written; a second serialization that fails raises after success was written |
| `SqlLab.ExecuteSqlStatements` | superset/sql_lab.py:359-583 | in every interleaving with stops the log is lawful; success is answered exactly when all is well, stops included; every text sent is the one for its statement and the limit as it then stands, and a run that returns looks as promised |
| `SqlLab.GetSqlResults` | superset/sql_lab.py:162-192 | success is recorded if and only if all is well; what is sent are the first parsed statements that have a text, in their order, and none that writes where only reading is allowed; nothing is sent that is refreshed after a stop; a raised error is recorded as failed |
| `SqlLab.AllWellMeaning` | superset/sql_lab.py:359-583 | all is well, in full: the backend and the CREATE AS checks, the connection, every statement allowed, answered and given a valid limit, no failing step after the loop, and no obeyed stop that found the cancel id and is written up to the last refresh |
| `SqlLab.NonEmptyInOrder` | superset/sql_parse.py:176-184 | the plan are the parsed statements that have a text, at ascending positions |
| `SqlLab.TextMeaning` | superset/sql_lab.py:213-247 | every text sent is its statement with one more than the query's limit for a SELECT, unless it fills a table and those are exempt, and with CREATE AS only on the last one |
| `SqlLab.LimitAtMeaning` | superset/sql_lab.py:239-241 | an overall maximum replaces a limit that is missing, zero or greater from the first SELECT on |
| `SqlLab.LastRows` | superset/sql_lab.py:469-503 | the rows of the answer are those the last statement brought back |
| `SqlLab.StopDecides` | superset/sql_lab.py:449-462 | a run that would succeed undisturbed records success whatever is stopped on an engine without cancel ids; on the others if and only if every stop the engine obeyed read the row before the cancel id was committed or is written after the last refresh |
| `SqlLab.RunAndSettle` | superset/views/core.py:2324-2346 | with the stop views still at work after the run: success stays if and only if all is well and no view that read the query as running before success was written, with its cancel id, writes after it |
| `SqlLab.OneStop` | superset/sql_lab.py:449-462 | two statements and one stop, on either kind of engine: for which moments of reading and writing the run ends in success, and for which success stays |
| `SqlLab.Session.Interfere` | superset/views/core.py:2324-2346 | at a moment the stopped status is written if and only if a stop view writes then that read an unfinished query with a committed cancel id and had the engine cancel it; otherwise the row stays |
| `SqlLab.HandleQueryError` | superset/sql_lab.py:91-122 | an error is committed as failed and the temporary table name is dropped |
| `SqlLab.SuccessComesLast` | superset/sql_lab.py:500-560 | a committed success has the whole plan sent and the connection committed before it, and the payload of its results key in the backend |
| `SqlLab.EarlyExitCommitsNothing` | superset/sql_lab.py:458-501 | a run that did not send its whole plan never commits the connection and never writes success |
| `SqlLab.StopIsObeyed` | superset/sql_lab.py:458-487 | a run that has seen a stop sends nothing more, never commits the connection and never writes success |
| `SqlLab.CreateAsIsLast` | superset/sql_lab.py:464-468 | at most one text is a CREATE AS, it is the plan's last statement, and a committed run that was asked for one has it |
| `Sankey.CycleFinder.Visit` | superset/viz.py:1889-1895 | a fruitless visit restores `path` and clears everything reachable; a fruitful one names the first target that leads to a cycle; it terminates because `path` grows |
| `Sankey.CycleFinder.FindCycle` | superset/viz.py:1885-1901 | None if and only if the graph has no cycle, `path` empty again; otherwise the first root that leads to a cycle with the first of its targets that does |
| `Sankey.BuildHierarchy` | superset/viz.py:1881-1883 | the hierarchy has exactly the rows as edges, its keys in row order, its sets iterated in any order |
| `Sankey.RowCycleIsCycle` | superset/viz.py:1881-1901 | the hierarchy is acyclic exactly when no rows follow one another back to the first source |
| `Sankey.CyclesDependOnLinks` | superset/viz.py:1881-1901 | what leads to a cycle does not depend on the order of sources and targets |
| `Sankey.GetData` | superset/viz.py:1869-1911 | rows are shown exactly when there are some and they form no loop; the refused link is the first row source that leads to a loop with, in some order of iteration, the first of its targets that does |
| `Sankey.NamedLinkOnLoopExactly` | superset/viz.py:1885-1910 | the link named for the first source lies on a loop under every order of iteration if and only if every target of it that leads to a loop leads back to it |
| `Sankey.NamedLinkCanMissTheLoop` | superset/viz.py:1885-1910 | with rows a-b, b-c, c-b the link a-b is named and lies on no loop |
| `Dedup.Dedup` | superset/result_set.py:35-58 | same length and order; a first occurrence keeps its text, a later one gets the number of earlier ones |
| `Dedup.NewNameMeaning` | superset/result_set.py:49-57 | a name stays if no earlier one compares equal, otherwise it gets the suffix and the number of those that do |
| `Dedup.FoldMeaning` | superset/result_set.py:51 | names compare equal when they have the same letters, in the same case if case matters |
| `Dedup.Examples` | superset/result_set.py:41-47 | both examples of the description |
| `Dedup.DistinctExactly` | superset/result_set.py:38-39 | the result has no duplicates if and only if no name equals a repeated name with the suffix and a number below its multiplicity |
| `Dedup.GeneratedNameCanClash` | superset/result_set.py:38-39 | unique values are not always returned |
| `ChartCache.DataCache.GetDfPayload` | superset/common/query_context.py:311-409 | the payload is a readable entry's parts unless forced to refresh; otherwise a success exactly when every asked column is the datasource's or the time column, the source answered and the annotations came, with what they gave; exactly such a success is stored, and the source is called once for known columns and not at all for an entry |
| `ChartCache.OnlyAnswersAreStored` | superset/common/query_context.py:362-396 | after any history every entry has a request for known columns whose source call answered with exactly its frame, query text and annotations; never a failure |
| `ChartCache.KeyMeaning` | superset/common/query_object.py:288-335 | two requests have one key exactly when they agree in all listed fields: time ranges up to emptiness, layers in nine fields each |
| `ChartCache.KeyFixesInput` | superset/common/query_object.py:288-335 | requests with one key ask the source the same thing if and only if they agree in time shift and in the context's datasource |
| `ChartCache.OwnDatasourceIsInKey` | superset/common/query_object.py:304-305 | for queries that use the context's datasource only the time shift is missing from the key |
| `ChartCache.CacheIsTransparent` | superset/common/query_context.py:325-343 | after any history of requests and evictions an answer served from the cache is what the source would answer |
| `ChartCache.TransparencyExactly` | superset/common/query_context.py:217-237 | that condition is exact: where it fails some source gives the second request a wrong answer |
| `ChartCache.ForcedCacheNeverAsks` | superset/common/query_context.py:345-349 | with the cache forced a request is served from a readable entry or raises, and nothing is asked or stored |
| `Rehydration.BuildQueryObject` | superset/common/query_object.py:131-234 | every field of the query object comes from the request's field of that name or its default - groupby, columns, metrics one by one, limits, granularity with its override, post-processing and layers in order - and the request's own `extras` dictionary, which the object shares unless it is empty, changes with it |
| `Rehydration.ExtrasMeaning` | superset/common/query_object.py:185-234 | the extras are the request's, with the four retired fields that hold something under their new names, and the endpoints |
| `Rehydration.MovingSettles` | superset/common/query_object.py:215-234 | moving the retired fields leaves each of them under its new name and the endpoints untouched |
| `Rehydration.ConstructAgain` | superset/common/query_object.py:187-234 | building again from the changed request data gives the same query object |
| `Rehydration.KeptMeaning` | superset/common/query_object.py:127-234 | what is kept of a request differs from it in the extras alone |
| `Rehydration.ContextMeaning` | superset/common/query_context.py:76-104 | a context has the given datasource and result type, and each of its queries is built from the request at its place |
| `Rehydration.GetPayload` | superset/common/query_context.py:166-178 | the queries are answered one after the other through the one cache; the first forced miss ends the run |
| `Rehydration.EachQuery` | superset/common/query_actions.py:40-148 | columns, time grains and query text are answered without the cache, any other query by its payload, or that of the samples it asks for, from the cache the queries before it left |
| `Rehydration.SamplesMeaning` | superset/common/query_actions.py:119-135 | samples are all columns of the datasource, at most the smaller of the two limits, without grouping, metrics, order, offset and post-processing |
| `Rehydration.RunFillsCache` | superset/common/query_context.py:389-396 | after a run in which every cacheable query succeeded every key holds the content its query was answered with |
| `Rehydration.ReplayFinds` | superset/common/query_actions.py:91-148 | the entry of every query answered before is found by the forced cache, samples included, and gives the same frame |
| `Rehydration.ReplayReads` | superset/common/query_context.py:345-349 | a run on the forced cache reads entry after entry, changes nothing, and raises if and only if one is missing |
| `Rehydration.Rehydrates` | superset/common/query_context.py:97-102 | a context rebuilt from its kept values gives the same frames from the cache alone and never asks the source |
| `Rehydration.RehydratesExactly` | superset/common/query_context.py:97-102 | for a forced context the replay gives the same frames, whatever the source answers, if and only if queries under one key agree in time shift |
| `Rehydration.ForcedReplayCanDiffer` | superset/common/query_context.py:389-396 | two queries that differ in time shift alone: some source makes the replay answer one with the frame of the other |
| `Sorting.SortByMeaning` | docs/src/utils.js:73 | the sort is an ascending rearrangement that keeps the order of equal keys |
| `Menus.ListOrderedMenu` | docs/src/utils.js:67-78 | the worklist lists the leaves as the recursion over index-sorted submenus does, and would list the same again after its in-place sorting, which leaves every submenu with the same items in ascending order of index |
| `Menus.SmallerIndexFirst` | docs/src/utils.js:72-75 | of two items of one submenu all that the one with the smaller index stands for comes before all that the other stands for |
| `Menus.EarlierFirst` | docs/src/utils.js:68-77 | the top level is listed in its own order |
| `Menus.Unshift` | docs/src/utils.js:72-75 | sorting a submenu in place and putting it on the stack leaves what is still to be listed as it was |
| `Menus.FlatAllIsTheLeaves` | docs/src/utils.js:72-76 | the list holds exactly the items without a submenu |
| `Menus.FlatAllHasNoRepeats` | docs/src/utils.js:69-77 | every leaf is listed once |
| `Menus.PreviousAndNextUrls` | docs/src/utils.js:81-99 | for each link the last entry for the current page that has a neighbour on that side decides; without one the link is missing |
| `Menus.PathNameMeaning` | docs/src/utils.js:21 | a path compares without its slashes: a text without any is itself, and a slash adds nothing |
| `Menus.LinksAreNeighbours` | docs/src/utils.js:87-96 | a page that stands once has its neighbours in the list as links |
| `Menus.LinksExactly` | docs/src/utils.js:81-99 | every page gets its own neighbours as links if and only if no two routes are one page |
| `Menus.LinksAreInverse` | docs/src/utils.js:81-99 | with distinct pages the next and the previous link are inverse |
| `Menus.SlashesCanMislead` | docs/src/utils.js:88 | an example: two routes that differ in slashes only share the links of the later one |
| `TaskList.PrintTaskList` | scripts/generate_frontend_ts_tasklist.js:41-74 | the stack loop prints the lines of the recursive walk, the last root first |
| `TaskList.LineMeaning` | scripts/generate_frontend_ts_tasklist.js:47-64 | the line in full: an empty box for a directory with a file that ends in .js or .jsx, a filled one for .ts or .tsx alone, none otherwise, after two spaces for every slash of the path |
| `TaskList.WalkIsComplete` | scripts/generate_frontend_ts_tasklist.js:66-72 | the walk visits exactly the directories at or below a root |
| `TaskList.WalkOrder` | scripts/generate_frontend_ts_tasklist.js:66-72 | a directory comes before what lies below it, and an earlier subdirectory with all it holds before a later one |
| `TaskList.EveryPathOnce` | scripts/generate_frontend_ts_tasklist.js:66-72 | no path is visited twice |
| `TaskList.SourceBeforeSpec` | scripts/generate_frontend_ts_tasklist.js:25-42 | of the two initial directories `src` is walked first, and no path comes twice |
| `KeepLatest.SelectCancelled` | scripts/cancel_github_workflows.py:194-220 | the cancelled runs are those of the sorted list that a later run of the same key supersedes, in that order |
| `KeepLatest.KeyIsInjective` | scripts/cancel_github_workflows.py:209 | for the three allowed events the joined key identifies event, branch and workflow |
| `KeepLatest.LatestIsNewest` | scripts/cancel_github_workflows.py:208-213 | the kept run of a key is its newest |
| `KeepLatest.LatestIsLast` | scripts/cancel_github_workflows.py:208-213 | the kept run is the last of its key in the sorted list, which settles equal creation times |
| `KeepLatest.KeepsExactlyTheLatest` | scripts/cancel_github_workflows.py:193-220 | cancelled and kept entries together are all listed entries, each event, branch and workflow keeps exactly one, its newest and the last in the sorted list, and the cancelled ones stay in order of creation |
| `KeepLatest.KeptIsSafeExactly` | scripts/cancel_github_workflows.py:203-220 | no kept run is cancelled, by value and by id, if and only if every kept run stands once in the list |
| `KeepLatest.ListedTwice` | scripts/cancel_github_workflows.py:89-97 | a run listed twice is both kept and cancelled |

## Left out

- WebSocket server: Redis connections, HTTP upgrade, JWT, metrics and logging; `fetchRangeFromStream` reports errors only to the log, so a failed range read is a range read that is never answered.
- WebSocket server: channel names that are also names of built-in object properties (`channel in channels` finds those too), and fresh socket ids are assumed to be unused.
- WebSocket server: trimming of the streams, and listeners other than `processStreamResults`.
- StreamIds.IncrementIdIsSuccessor: counters from 2^53 on, where `Number` rounds, are excluded; `PlusOne` treats every part that is not made of decimal digits as not a number, while `Number` also reads signs, fractions and exponents.
- EventTheorems.ReconnectLeavesNoGap: what is counted are the calls of `ws.send`; a call that throws is one of them, as the source does not repeat it.
- EventTheorems.OnceEachExactly: for a client whose own range read is the only one handled on its channel since it connected; `CallsExactly` has the counts for any number of them.
- The lexer and the grouping of sqlparse: token trees, aliases and identifier lists are inputs. `remove_quotes` strips one surrounding pair of single quotes, double quotes or backticks.
- LimitRewriter.LimitedQuery.SetOrUpdateQueryLimit: one statement only; with several the source takes the limit of the last statement and rewrites the first. That the returned text is lexed into the rewritten token list is not modelled.
- LimitRewriter.RewritingExactly: for statements with at most one LIMIT keyword on their own level.
- Lower-casing is modelled for ASCII letters (`Dedup.Fold`, `LimitRewriter.Lower`).
- Dedup.DistinctExactly: for suffixes that end in something other than a digit.
- SQL Lab: polling inside `handle_cursor`, the name of the temporary table, serialization formats, expansion of nested columns, timing and logging; the query row is the only thing another session changes, and only the stop view does.
- SqlLab.Session.Interfere: each attempt of the stop view's backoff is a stop of its own, the answer to its caller is left out, and an engine that obeys a stop is an input of the stop, not tied to the answers of the statements.
- SqlLab.FetchData: that the database obeys the LIMIT of a text is assumed.
- The chart cache: timeouts are evictions at any moment, the hash of the key is free of collisions, a query has succeeded or failed and nothing else. Extra cache keys depend on the datasource and the query's fields only. Applied and rejected filters, colnames and CSV output are not modelled, and an annotation layer without a type is kept.
- ChartCache.DataCache.GetDfPayload: error texts and stack traces of failed payloads are left out, and every entry has its time stamp.
- Rehydration.Rehydrates: no eviction in between, and the same time-stamp and row-level-security ids of the datasource.
- Rehydration.BuildQueryObject: the time bounds and the applied time extras are left out; the fields other than `extras` are built by one expression.
- Menus: a menu is a tree (no item object appears in two places), and every leaf has a route.
- TaskList: directories are a finite tree, so links that lead back up are not modelled; a path on the stack carries the directory that `chdir` finds there.
- KeepLatest: creation times are integers; listing runs from GitHub and sending the cancellations are left out.
- Pandas, SQLAlchemy, Celery and Flask code, REST APIs, command-line parsing and configuration: plumbing over libraries.
