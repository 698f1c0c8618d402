# Calce: live data, market data, calculations and sessions

A Dafny model of the parts of Calce that carry state, protocols or arithmetic, with proofs of what
they keep. It covers four components.

**The live-update pipeline.** PostgreSQL row changes reach the in-memory stores and the subscribers:

- `Protocol` is the byte-level decoder; `WireFormat` holds an encoder written from sections 55.4, 55.5
  and 55.9 of the PostgreSQL 16 documentation, with bytes of its own, and proves that decoding inverts it; `Truncation` says
  exactly which cut messages slip through; `LsnText` is the text form of a position.
- `Listener` is the streaming loop and the reconnect loop. `Replication` sets it against an abstract
  server log and proves at-least-once delivery over reconnects; `Confirmations` says in which order
  positions are confirmed.
- `CdcApply` applies row changes to the stores; `Redelivery` proves when overlapping redelivery is
  harmless; `Pipeline` puts the two together, from bytes to stores; `Subscribers` goes on from the stores
  to what each subscriber holds.
- `Cache` is the time-series cache one call at a time; `CopyOnWrite` its concurrent history updates.
- `PubSub` and `Dispatcher` are the subscription registry and the coalescing dispatcher one call at a
  time; `RegistrySteps` interleaves the registry's single-entry steps, and `RegistryCalls` shows that each
  call is a run of them; `NoLostSignal` interleaves writers, dispatcher, subscribers and registry.

**The dense market-data store.** `DenseStore` models the date-indexed arrays and the plain map store;
`StoreAgreement` proves that they answer alike, for every history of writes and updates.

**The calculations.** `Aggregation`, `MarketValue`, `Allocation`, `Volatility` and `ComparisonDates`, over
reals, with `Domain`, `Sorting` and `Sums` beneath them.

**Refresh-token families.** `TokenFamilies` proves what every run of login, refresh and logout keeps.

`Prelude` and `Bytes` hold the shared small types. `dafny verify dfyconfig.toml` checks the whole project.

## How the code is modelled

- A class whose methods update its fields is a class here, each method tied to a specification function
  or to the old state; parsers advance a cursor; loops over hash maps take the entries in an arbitrary
  order, so nothing depends on it.
- Concurrency is a state machine over atomic steps: one entry of a `DashMap`, one `try_send`, one
  compare-and-swap. Memory is sequentially consistent. Statements about runs quantify over all
  interleavings.
- What the environment decides is a parameter: bytes read, write results, timers and reconnects of a
  session are scripts of arrivals; events and client calls between two flushes are a schedule; clocks,
  fresh tokens and families, the logarithm, the square root, number parsing and trimming are arguments.
- `f64` is a real, with infinities and not-a-number where the code tells them apart (prices and rates in
  the stores); rounding is not modelled. 32-bit and 64-bit widths, signed lengths cast to `usize` and
  truncating division are written out.

## Where code and documentation disagree

The model follows the code.

- `crates/calce-data/src/auth/mod.rs:17-18` and the comments at `crates/calce-api/src/routes/auth.rs:209-210`
  and `227` say that a refresh in the grace period returns the token that was already rotated to. The code
  returns the token of the request, which is the superseded one (`TokenFamilies.ReplyIsNewestIff`, with a run in `GraceReplyIsSuperseded`), and
  using it again later revokes the family (`TokenFamilies.GraceReplyLeadsToRevocation`).
- `crates/calce-core/src/calc/value_change.rs:87-89` says that missing prices or rates are errors; they
  are warnings, and only a currency conflict or a misdirected rate is an error
  (`MarketValue.MarketValueAt`).
- `ConcurrentMarketData::from_builder` drops instrument types and allocations when there is no price or
  rate at all (`StoreAgreement.TypesKeptIff`).
- The decoder checks the length of a text column but clamps that of a binary one
  (`Truncation.TruncationDetected`).
- Confirmations are not monotone: data frames assign the position, and it restarts at zero in every session.
  `Confirmations` says exactly when they ascend, within a session and over reconnects, and has a served
  history for each way in which they fall.
- The listener confirms whatever position it was last told. Section 55.4 of the PostgreSQL 16 documentation
  calls that field the current end of WAL on the server; were it to cover a row change still to be sent, the
  change could be lost (`Replication.AnnouncedTooEarly`, and exactly when in `Replication.DeliveredIff`).
- The reconnect backoff is never reset by a good session (`Listener.CdcListener.Run`).

## Model

| member | source | states |
|---|---|---|
| `Pipeline.LiveUpdatesConverge` | crates/calce-data/src/cdc.rs:29-88 | From the server's bytes to the stores: over any history of sessions that ends caught up, whatever broke and whatever was sent twice, the stores end as if every row change of the log had been applied exactly once; if, from any price row on, its instrument is listed under the same ticker or never. |
| `Subscribers.FollowersConverge` | crates/calce-data/src/cdc.rs:105-140 | From the server's log to the subscribers: after any such history, for every interleaving of the consumer's writes with dispatcher, subscribers and registry, once everything is at rest and nothing was refused for want of room, each follower of a price or rate holds the one that a single pass over the log leaves. |
| `Pipeline.StartCdc` | crates/calce-data/src/cdc.rs:29-54 | The listener's events go through the consumer in channel order: the consumer ends in the state that applying the events of all performed sessions gives; whenever these sessions catch up with the log they were served from, in the state that applying each of its row changes once gives; and so it does whenever all sessions together catch up, if no event of the log stops the consumer and only a stopped consumer closes the channel. |
| `Pipeline.NeverGivesUp` | crates/calce-cdc/src/listener.rs:39-55 | If only a stopped consumer closes the channel and no event of the log stops it, the listener performs every session. |
| `Pipeline.StretchesOverlap` | crates/calce-cdc/src/listener.rs:39-55 | The sessions of a served history deliver overlapping stretches of the log. |
| `Replication.AtLeastOnce` | crates/calce-cdc/src/listener.rs:39-55 | Every row change of a transaction that commits after the first confirmed position and at or before the last one has been put on the event channel, whatever read errors, parse errors, write errors or disconnects ended the sessions; for a server that replays every transaction committing after the confirmed position, describes each table before its changes in every session, and announces no position at or past the commit of a row change it has still to send. |
| `Replication.DeliveredIff` | crates/calce-cdc/src/listener.rs:167-195 | That last obligation is exact, message by message: for a listener in step and any message of the right shape, everything confirmed stays delivered for every timing of statuses, failing writes and the channel, if and only if no row change still unsent commits at or before the announced position. |
| `Replication.RowDeliveredIff` | crates/calce-cdc/src/listener.rs:222-239 | So is the one on descriptions: the next row change becomes the next event of the log if and only if the listener has a description of its table with the same table name and, under every column name, where it last occurs among the columns of the row, the same cell; without any it is skipped without an error. |
| `Replication.SameEventIff` | crates/calce-cdc/src/listener.rs:242-258 | Two descriptions make the same event of a row exactly when their table names and, under every column name, the last cells agree. |
| `Replication.ZipShowsLast` | crates/calce-cdc/src/listener.rs:242-258 | The column map holds under each name the cell of its last occurrence. |
| `Replication.TooEarly` | crates/calce-cdc/src/listener.rs:172-194 | The turn that loses a change: a position announced too early is confirmed when a status is due, without an error. |
| `Replication.AnnouncedTooEarly` | crates/calce-cdc/src/listener.rs:172-194 | The failing input: a Begin frame that announces the commit of its own transaction is confirmed with no event delivered, and a server that goes on from there owes nothing. |
| `Replication.SessionsOverlap` | crates/calce-cdc/src/listener.rs:162-239 | Each session delivers one unbroken stretch of the log in log order, starting at the first change the server still owes, and the next session starts inside or right after it: no gap. |
| `Replication.LoopDelivers` | crates/calce-cdc/src/listener.rs:162-197 | A whole session, however it ends: its events are a stretch of the log that reaches past every transaction covered by a confirmation it wrote. |
| `Replication.TurnKeepsStep` | crates/calce-cdc/src/listener.rs:167-195 | One turn of the streaming loop keeps the listener in step with the server: same schemas, same events so far, and no confirmation past what was delivered. |
| `Replication.RowFollows` | crates/calce-cdc/src/listener.rs:199-239 | A row change of a described table is put on the channel as exactly one event, the next of the log. |
| `Replication.ChangeEventIs` | crates/calce-cdc/src/listener.rs:204-258 | What the events of the log are: an insert, update or delete of the table, showing under each column name the text that the server sent for the last column so named, or null if it sent none. |
| `Listener.RowIsSent` | crates/calce-cdc/src/listener.rs:204-258 | A row of a described table adds exactly one event: the description's table name, the row's own operation, text columns as their text, null and unchanged ones as null, and no other names; nothing else changes. |
| `Listener.OtherwiseNothingIsSent` | crates/calce-cdc/src/listener.rs:204-239 | Every other message sends nothing: a description is kept, a row without one skipped, a closed channel an error. |
| `Replication.Decoded` | crates/calce-cdc/src/protocol.rs:32-58 | The listener decodes every frame the server may send to what the server meant, through both protocol layers. |
| `Confirmations.SessionAscendsIff` | crates/calce-cdc/src/listener.rs:162-197 | For every timing of statuses, failing writes and the channel, a session confirms in ascending order, if and only if, up to the frame that breaks it, no position that may be confirmed is below one that could be confirmed before. |
| `Confirmations.SessionsAscendIff` | crates/calce-cdc/src/listener.rs:162-197 | The same over reconnects: if and only if each session climbs from zero without going below what an earlier one could confirm. |
| `Confirmations.SteadySessionAscends` | crates/calce-cdc/src/listener.rs:172-187 | A session in which no frame moves the position back confirms in ascending order. |
| `Confirmations.FallingFramesAreServed` | crates/calce-cdc/src/listener.rs:172-194 | Within a session, a server that keeps all its obligations can make two confirmations fall. |
| `Confirmations.ReconnectGoesBack` | crates/calce-cdc/src/listener.rs:162-165 | Over a reconnect, two sessions of a served history in each of which the position never falls confirm a position and then a smaller one, since it starts at zero again. |
| `Confirmations.TurnConfirms` | crates/calce-cdc/src/listener.rs:171-194 | A turn confirms nothing but the position it moves to, at most twice. |
| `Confirmations.ConfirmsWhen` | crates/calce-cdc/src/listener.rs:171-194 | While writes work: once for a keep-alive that asks for it, and once when a status is due and the position is not zero. |
| `Confirmations.FailedWriteEnds` | crates/calce-cdc/src/listener.rs:171-194 | A confirmation that cannot be written ends the session. |
| `Listener.PositionGoesBackIff` | crates/calce-cdc/src/listener.rs:172-187 | The position held, which is the one to be confirmed next, goes back in a turn exactly when a data frame carries a smaller one: it is assigned there, and only raised by a keep-alive. |
| `Listener.CdcListener.StreamLoop` | crates/calce-cdc/src/listener.rs:162-197 | The loop over any script of arrivals puts on the channel and confirms exactly what the step function of one turn says, and ends with its error. |
| `Listener.CdcListener.Process` | crates/calce-cdc/src/listener.rs:171-188 | One message: schema cache, position, events and confirmations, and the error that ends the loop. |
| `Listener.CdcListener.HandlePgoutput` | crates/calce-cdc/src/listener.rs:199-239 | A relation replaces the cached schema; a row change of a known relation is sent (what as, is `Listener.RowIsSent`), of an unknown one skipped; a closed channel is an error. |
| `Listener.CdcListener.Run` | crates/calce-cdc/src/listener.rs:39-55 | Performs exactly the sessions before the channel is seen closed or found closed, sends their events and writes their confirmations one session after the other, and sleeps after every other failure: one second, doubling, at most sixty, never reset. |
| `Listener.CdcListener.RunOnce` | crates/calce-cdc/src/listener.rs:57-76 | One session starts with an empty schema cache and position zero, whatever earlier sessions did. |
| `Listener.Backoffs` | crates/calce-cdc/src/listener.rs:40-51 | The sleeps after successive failures are the doubling, capped backoffs. |
| `Listener.BackoffIs` | crates/calce-cdc/src/listener.rs:40-51 | 1, 2, 4, 8, 16, 32 and then always 60 seconds. |
| `LsnText.LsnRoundTrip` | crates/calce-cdc/src/listener.rs:261-266 | Reading back the text sent in START_REPLICATION gives the same position, for every 64-bit position. |
| `LsnText.HexReadBack` | crates/calce-cdc/src/wire.rs:266 | The upper-case hexadecimal text of a number reads back as that number and holds no slash. |
| `LsnText.OrIsSum` | crates/calce-cdc/src/listener.rs:265 | Or-ing the lower half onto the shifted upper half is addition. |
| `LsnText.Slash` | crates/calce-cdc/src/listener.rs:262 | The split is at the first slash. |
| `LsnText.HalvesOfText` | crates/calce-cdc/src/listener.rs:261-266 | Before the slash stands the upper half, after it the lower one; without a slash there is only the lower one. |
| `LsnText.PlaceValue` | crates/calce-cdc/src/listener.rs:263-264 | Each hexadecimal character counts sixteen times the one after it. |
| `LsnText.DigitIs` | crates/calce-cdc/src/listener.rs:263-264 | What each character counts, in either case. |
| `LsnText.HexOrZeroIs` | crates/calce-cdc/src/listener.rs:263-264 | What is not a hexadecimal number of at most 64 bits counts as zero; one plus sign may come first. |
| `WireFormat.MessageRoundTrip` | crates/calce-cdc/src/protocol.rs:127-264 | Decoding inverts the format of section 55.9 of the PostgreSQL 16 documentation, written with its own literal bytes: every well-formed Begin, Commit, Relation, Insert, Update (no old tuple, key, or full row) and Delete comes back, old tuple skipped, for any number of columns and any text lengths, with any bytes after it. |
| `WireFormat.FrameRoundTrip` | crates/calce-cdc/src/protocol.rs:32-58 | Both replication frames of section 55.4 decode to their position, and payload or reply flag. |
| `WireFormat.StatusReachesServer` | crates/calce-cdc/src/wire.rs:336-345 | A status update in its CopyData frame is read by the server as three copies of the position, without a clock and asking for no reply, with nothing lost or added. |
| `WireFormat.TupleInverts` | crates/calce-cdc/src/protocol.rs:219-253 | A tuple of null, unchanged, text and binary columns decodes to those values and leaves the rest. |
| `WireFormat.ValueInverts` | crates/calce-cdc/src/protocol.rs:225-244 | One column value of each kind decodes to itself; a binary one to null. |
| `WireFormat.RelationInverts` | crates/calce-cdc/src/protocol.rs:190-216 | A relation decodes to its id, its name (not its namespace) and its column names in order. |
| `WireFormat.UpdateInverts` | crates/calce-cdc/src/protocol.rs:153-169 | An update decodes to the new tuple in each of its three forms. |
| `WireFormat.FirstByteDecides` | crates/calce-cdc/src/protocol.rs:127-187 | The first byte, spelled out, decides which message the bytes can be; with any other one they are skipped without an error. |
| `WireFormat.FirstByteOfFrameDecides` | crates/calce-cdc/src/protocol.rs:32-58 | And which frame; any other first byte is an error. |
| `WireFormat.FrameLayout` | crates/calce-cdc/src/protocol.rs:32-58 | At which byte of a frame its position, payload and reply flag stand. |
| `WireFormat.MessageLayout` | crates/calce-cdc/src/protocol.rs:127-187 | At which byte of a message its table id and its tuple stand, and how long a Begin and a Commit are. |
| `WireFormat.RelationLayout` | crates/calce-cdc/src/protocol.rs:190-216 | A relation has its namespace before its name. |
| `WireFormat.ColumnLayout` | crates/calce-cdc/src/protocol.rs:204-210 | A column has its flags before its name, and eight bytes after it. |
| `WireFormat.ColumnByteDecides` | crates/calce-cdc/src/protocol.rs:224-250 | And how a column is read; any other kind is an error. |
| `WireFormat.TextIsRead` | crates/calce-cdc/src/protocol.rs:228-239 | A text column, byte for byte, reads as its text. |
| `WireFormat.DeleteWithoutTuple` | crates/calce-cdc/src/protocol.rs:170-183 | A delete with neither a key nor an old row has no values. |
| `Bytes.MostSignificantFirst` | crates/calce-cdc/src/protocol.rs:127-244 | Integers are read most significant byte first: what each byte counts. |
| `Bytes.SignedReadings` | crates/calce-cdc/src/protocol.rs:222-244 | Signed readings are two's complement, and a negative length casts to two to the 64th plus itself. |
| `Protocol.ParseMessage` | crates/calce-cdc/src/protocol.rs:127-187 | The pgoutput parser, over a cursor, terminates on every byte string with the value or the error of its specification and never reads past the buffer. |
| `Protocol.ParseReplication` | crates/calce-cdc/src/protocol.rs:32-58 | The frame parser terminates on every byte string with the value or the error of its specification. |
| `Protocol.ParseRowChange` | crates/calce-cdc/src/protocol.rs:146-183 | Insert, Update and Delete: the bytes after the tag decide the value or the error. |
| `Protocol.Cursor.ParseRelation` | crates/calce-cdc/src/protocol.rs:190-216 | Same for Relation. |
| `Protocol.Cursor.ParseTuple` | crates/calce-cdc/src/protocol.rs:219-253 | The tuple parser leaves the cursor right after the tuple, or fails with the error of its specification. |
| `Protocol.Cursor.ParseValues` | crates/calce-cdc/src/protocol.rs:222-252 | The column loop reads as many values as the count says, none for a negative count. |
| `Protocol.Cursor.ParseValue` | crates/calce-cdc/src/protocol.rs:224-250 | One value, with its signed length cast to an unsigned one. |
| `Protocol.Cursor.ReadCString` | crates/calce-cdc/src/protocol.rs:256-264 | The bytes before the first zero byte, the cursor after it; an error without one. |
| `Protocol.TupleOf` | crates/calce-cdc/src/protocol.rs:219-222 | A successful tuple has exactly max(count, 0) values. |
| `Protocol.ValuesOf` | crates/calce-cdc/src/protocol.rs:222-252 | Exactly the number of values asked for, each taking at least a byte of the buffer. |
| `Protocol.FirstZero` | crates/calce-cdc/src/protocol.rs:257-260 | The position of the first zero byte. |
| `Truncation.TruncationDetected` | crates/calce-cdc/src/protocol.rs:127-253 | Some strict prefix of a well-formed message is accepted if and only if the message ends in a non-empty binary column: the length of such a column is clamped, not checked. |
| `Truncation.CutMessage` | crates/calce-cdc/src/protocol.rs:127-253 | Exactly which prefixes are accepted: those that keep all but bytes of the trailing binary column. |
| `Truncation.NegativeLengthsAndCounts` | crates/calce-cdc/src/protocol.rs:218-244 | A text column is accepted exactly when its signed length fits what is left; a negative count gives an empty tuple, a negative binary length a null. |
| `Truncation.ValuesLeaveSuffix` | crates/calce-cdc/src/protocol.rs:219-253 | What is left after a tuple is a suffix of the buffer. |
| `Redelivery.RedeliveryHarmless` | crates/calce-data/src/cdc.rs:56-149 | If, from any price row on, its instrument is listed under the same ticker or never, any overlapping replay that catches up leaves exactly the store that applying each event once leaves, and no history changes. |
| `Redelivery.WritesTheSameIff` | crates/calce-data/src/cdc.rs:56-149 | That condition is exact: in every overlapping replay every event writes what it writes in a single pass, if and only if it holds. |
| `Redelivery.StoresEndDifferent` | crates/calce-data/src/cdc.rs:90-123 | When the stores end different: a price row is replayed once its instrument is listed under a ticker in the cache that no later row prices and whose price a single pass leaves at another value; such a replay catches up and ends with the price of the row. |
| `Redelivery.OneTickerSettles` | crates/calce-data/src/cdc.rs:90-116 | The condition holds in particular if every instrument keeps one ticker and is listed before its first price. |
| `Redelivery.UnknownFirstDiffers` | crates/calce-data/src/cdc.rs:105-116 | A failing input: a price row before its listing is skipped the first time and applied when redelivered. |
| `Redelivery.TwoTickersDiffer` | crates/calce-data/src/cdc.rs:90-103 | Another: a price replayed after its instrument got another ticker goes to the wrong stock. |
| `Redelivery.AppliedReads` | crates/calce-data/src/cdc.rs:56-149 | An event overwrites the places it names where something is stored already, adds instruments, and changes nothing else. |
| `Redelivery.AppliedFrame` | crates/calce-data/src/cdc.rs:105-149 | No event changes a history or which prices, rates and users exist. |
| `Redelivery.WritesAreStable` | crates/calce-data/src/cdc.rs:105-116 | Under the condition, what an event writes does not depend on how much later, or after which stretches, it is replayed. |
| `CdcApply.EventConsumer.Dispatch` | crates/calce-data/src/cdc.rs:56-88 | One event: the new instrument map, prices, rates and users, the entity key it is forwarded as, if any, and the price or rate notification it offers to the caches' channels. |
| `CdcApply.RateRowSets` | crates/calce-data/src/cdc.rs:125-140 | An fx_rates row sets the current rate from the trimmed from_currency to the trimmed to_currency, and signals that pair if it is in the cache; no other pair changes; a code that is not three upper-case letters stops the consumer. |
| `CdcApply.PriceRowSets` | crates/calce-data/src/cdc.rs:105-123 | A prices row sets the current price of the ticker its instrument_id is listed under, and signals it if it is in the cache; no other price changes; an unlisted instrument changes nothing. |
| `CdcApply.InstrumentRowLists` | crates/calce-data/src/cdc.rs:90-103 | An instruments row lists its id under its ticker, and changes nothing else. |
| `CdcApply.UserRowOverwrites` | crates/calce-data/src/cdc.rs:142-149 | A users row overwrites name and email of the user named by external_id where it has them. |
| `CdcApply.OtherUserRowsIgnored` | crates/calce-data/src/cdc.rs:142-149 | And changes nothing for an unknown or unnamed user. |
| `CdcApply.IncompleteRowsIgnored` | crates/calce-data/src/cdc.rs:56-123 | A row without a column it needs changes nothing, and neither does a deleted price, rate or instrument. |
| `CdcApply.ForwardedAs` | crates/calce-data/src/cdc.rs:63-88 | What is forwarded, and as which key: table, colon, and external id, else id, else unknown. |
| `CdcApply.EventConsumer.UpdateInstrumentMap` | crates/calce-data/src/cdc.rs:90-103 | The map gains the id and ticker of the row, if both are there and the id is a number. |
| `CdcApply.EventConsumer.ApplyPrice` | crates/calce-data/src/cdc.rs:105-123 | Sets the current price of the ticker of a known id, when the price is a number and the ticker is in the cache, and then offers the notification of that ticker. |
| `CdcApply.EventConsumer.ApplyFxRate` | crates/calce-data/src/cdc.rs:125-140 | Sets the current rate of the trimmed pair and offers its notification; a code that is not a currency stops the consumer. |
| `CdcApply.EventConsumer.ApplyUser` | crates/calce-data/src/cdc.rs:142-149 | Overwrites name and email of a known user where the row has them. |
| `CdcApply.EventConsumer.Consume` | crates/calce-data/src/cdc.rs:42-46 | The receive loop applies the events in order and forwards their entity keys until the consumer stops. |
| `Subscribers.FollowersHoldApplied` | crates/calce-datastructs/src/cache.rs:114-121 | At rest, each follower of a price or rate holds the one that the consumer's events leave, whatever they are. |
| `Subscribers.LastStored` | crates/calce-data/src/cdc.rs:105-140 | A price or rate ends with the last number that an event stores in it, or with the one it had. |
| `Subscribers.CacheHoldsLast` | crates/calce-datastructs/src/cache.rs:114-121 | In every run the cache holds the last value stored under a key, or the first one. |
| `Subscribers.PriceSignalIffStored` | crates/calce-datastructs/src/cache.rs:114-121 | A price row raises the notification of a ticker exactly when it stores its price. |
| `Subscribers.FxSignalIffStored` | crates/calce-datastructs/src/cache.rs:114-121 | Same for rates. |
| `NoLostSignal.NoSignalLost` | crates/calce-datastructs/src/pubsub.rs:323-397 | In every interleaving of writers, dispatcher, subscribers and registry: a subscriber that has read a value since its subscribe returned holds the current one, or a signal for it is with a writer, in the channel, pending, being fanned out or in its queue, or the last send of it met a full queue; and no queue exceeds its capacity. |
| `NoLostSignal.AtRestAllAgree` | crates/calce-datastructs/src/cache.rs:114-121 | At rest, a subscriber none of whose signals was refused agrees with the cache on everything it follows. |
| `NoLostSignal.FirstInFirstOut` | crates/calce-datastructs/src/pubsub.rs:134-147 | The event channel and every subscriber queue are first in, first out, and a full one takes nothing. |
| `NoLostSignal.StepKeepsInv` | crates/calce-datastructs/src/pubsub.rs:125-177 | Every atomic step of every party keeps that invariant. |
| `NoLostSignal.LiveIsListed` | crates/calce-datastructs/src/pubsub.rs:79-106 | A live subscriber is in the list of each key it asked for, or in the broadcast set. |
| `RegistrySteps.RegistryIsExact` | crates/calce-datastructs/src/pubsub.rs:79-119 | With subscribe and unsubscribe split into their single-entry steps: a subscriber whose subscribe returned and for which no removal has begun is in the list of each of its keys exactly once and in no other, and after the removal that took its key list no list mentions it. |
| `RegistrySteps.RemoveIfDiscardsNothing` | crates/calce-datastructs/src/pubsub.rs:115-116 | The atomic removal of an empty entry never changes what any key lists. |
| `RegistrySteps.SplitRemovalLosesSubscriber` | crates/calce-datastructs/src/pubsub.rs:111-116 | Were emptiness test and removal two steps, a live subscriber could be discarded in between: the race named in the code. |
| `RegistrySteps.EarlyRemovalLeaks` | crates/calce-datastructs/src/pubsub.rs:88-94 | Why an id must not be removable before its subscribe returned: an entry made after the removal would stay for ever. |
| `RegistrySteps.EarlyRemovalRun` | crates/calce-datastructs/src/pubsub.rs:79-119 | A run from the empty registry that gets there, since the program accepts any id: it ends with the removed id in a list, and removing it again changes nothing. |
| `RegistrySteps.StepKeepsInv` | crates/calce-datastructs/src/pubsub.rs:79-119 | Every single-entry step keeps the exactness of the two indexes. |
| `RegistrySteps.Deduped` | crates/calce-datastructs/src/pubsub.rs:83-88 | The keys once each, none lost. |
| `RegistrySteps.DedupedGrows` | crates/calce-datastructs/src/pubsub.rs:83-88 | Keys named earlier come first. |
| `PubSub.SubscriptionRegistry.Subscribe` | crates/calce-datastructs/src/pubsub.rs:79-99 | A fresh id, its distinct keys recorded, the id at the end of the list of each of them and of no other. |
| `PubSub.SubscriptionRegistry.SubscribeAll` | crates/calce-datastructs/src/pubsub.rs:101-106 | A fresh id in the broadcast set. |
| `PubSub.SubscriptionRegistry.Unsubscribe` | crates/calce-datastructs/src/pubsub.rs:108-119 | The id leaves the broadcast set and the list of every key, every other entry stays in order, and empty lists are gone. |
| `RegistryCalls.SubscribeIsARun` | crates/calce-datastructs/src/pubsub.rs:79-99 | From any registry, the single-entry steps of subscribe are enabled one after the other and have exactly the effect that the method has. |
| `RegistryCalls.SubscribeAllIsARun` | crates/calce-datastructs/src/pubsub.rs:101-106 | Same for subscribe_all. |
| `RegistryCalls.UnsubscribeIsARun` | crates/calce-datastructs/src/pubsub.rs:108-119 | From any reachable registry, the single-entry steps of unsubscribe, for a returned id that no other call is removing, are enabled one after the other and have exactly the effect that the method has. |
| `PubSub.SubscriptionRegistry.FanOut` | crates/calce-datastructs/src/pubsub.rs:125-177 | Every subscriber of the key and every broadcast subscriber is offered the event once (what is then in the queues is `PubSub.QueuesAfterOffer`); sent are those whose queue took it, sent and dropped together all of them; then exactly those whose receiver is gone are forgotten. |
| `PubSub.QueuesAfterOffer` | crates/calce-datastructs/src/pubsub.rs:132-168 | After an offer to some subscribers each queue holds one more event at its end exactly if the subscriber is one of them, its receiver is there and there was room; all other queues are as before. |
| `PubSub.SubscriptionRegistry.Offer` | crates/calce-datastructs/src/pubsub.rs:134-147 | One try_send: the event is in the queue exactly if it was counted as taken. |
| `RegistryCalls.DeliveryIsOffer` | crates/calce-datastructs/src/pubsub.rs:134-147 | The deliveries that interleave put in a queue what an offer does. |
| `PubSub.SubscriptionRegistry.OfferToAll` | crates/calce-datastructs/src/pubsub.rs:130-168 | The two loops of a fan-out, over subscribers in any order. |
| `PubSub.SubscriptionRegistry.OfferEach` | crates/calce-datastructs/src/pubsub.rs:134-147 | Offering to distinct subscribers one by one gives counts and queues that do not depend on the order. |
| `PubSub.SubscriptionRegistry.UnsubscribeAll` | crates/calce-datastructs/src/pubsub.rs:170-172 | Unsubscribing the dead one after the other takes them out of every list and changes no order. |
| `PubSub.KeyedSubscribers` | crates/calce-datastructs/src/pubsub.rs:134-135 | The subscribers of a key are listed once each. |
| `Dispatcher.Dispatcher.Run` | crates/calce-datastructs/src/pubsub.rs:323-369 | For every schedule of arriving events and of client calls, in the window and between any two fan-outs, up to a stop or a closed channel: every event received is fanned out once with its batch, those left in the channel at a stop included, and the returned statistics count exactly the events, the duplicates within batches, the fan-outs, the sends and the refusals. |
| `Dispatcher.EachEventOncePerBatch` | crates/calce-datastructs/src/pubsub.rs:383-397 | The fan-outs of a batch stand together after those of earlier batches, each of its events exactly once and nothing else. |
| `Dispatcher.Dispatcher.Coalesce` | crates/calce-datastructs/src/pubsub.rs:371-381 | At every point, events received are events coalesced, fan-outs done and events pending: kept when an event is received. |
| `Dispatcher.Dispatcher.FlushOne` | crates/calce-datastructs/src/pubsub.rs:391-395 | And kept when a pending event is fanned out. |
| `Dispatcher.Dispatcher.FlushPending` | crates/calce-datastructs/src/pubsub.rs:383-397 | A flush fans out each pending event once, leaves nothing pending, and counts a batch unless there was nothing to do. |
| `Dispatcher.Dispatcher.RunRound` | crates/calce-datastructs/src/pubsub.rs:344-366 | One turn of the loop: the waking event, those waiting and those arriving in the window form one batch. |
| `Dispatcher.Dispatcher.Finish` | crates/calce-datastructs/src/pubsub.rs:335-342 | The last flush covers what is left in the channel after a stop. |
| `CopyOnWrite.Linearizable` | crates/calce-datastructs/src/cache.rs:129-165 | Any mix of concurrent history updates with compare-and-swap retries: the published history is what the successful calls give one at a time in swap order, each once, between its start and its end; a rejected index was out of bounds; and an index checked on the first snapshot is in bounds on every retry. |
| `CopyOnWrite.SnapshotsNeverChange` | crates/calce-datastructs/src/cache.rs:177-179 | A snapshot already handed out holds the same values at every later point. |
| `CopyOnWrite.RealTimeOrder` | crates/calce-datastructs/src/cache.rs:129-165 | Of two successful updates, one that ended before the other began comes first. |
| `CopyOnWrite.StepKeepsInv` | crates/calce-datastructs/src/cache.rs:129-165 | Every atomic step keeps the invariant behind this. |
| `CopyOnWrite.EntriesMean` | crates/calce-datastructs/src/cache.rs:129-165 | What each call does to the history: one value more at the end, one place overwritten, or another history. |
| `Cache.TimeSeriesCache.UpdateCurrent` | crates/calce-datastructs/src/cache.rs:114-121 | Only the current value of an existing entry changes, and then its signal is offered to the channel; a missing key is an error. |
| `Cache.TimeSeriesCache.UpdateHistory` | crates/calce-datastructs/src/cache.rs:129-147 | One place of one history gets the value and nothing else changes, and then its signal is offered; a missing key is reported before a bad index. |
| `Cache.TimeSeriesCache.AppendHistory` | crates/calce-datastructs/src/cache.rs:154-165 | One value is added at the end of one history, and then its signal is offered. |
| `Cache.TimeSeriesCache.Insert` | crates/calce-datastructs/src/cache.rs:92-100 | Inserts or replaces an entry. |
| `Cache.TimeSeriesCache.SetNotifier` | crates/calce-datastructs/src/cache.rs:84-89 | Only the first notifier is taken. |
| `Cache.TimeSeriesCache.GetHistoryRange` | crates/calce-datastructs/src/cache.rs:185-192 | The half-open range, clamped; nothing for a missing key. |
| `Cache.TimeSeriesCache.ReadBatch` | crates/calce-datastructs/src/cache.rs:196-208 | The snapshots of the keys that exist, in the order asked. |
| `Cache.SnapshotsConcat` | crates/calce-datastructs/src/cache.rs:196-208 | They come in the order of the keys. |
| `Cache.Clamped` | crates/calce-datastructs/src/cache.rs:188-190 | What clamping gives for bounds in range, reversed or past the end. |
| `StoreAgreement.Replay` | crates/calce-data/src/concurrent_market_data.rs:104-375 | For every sequence of writes before the store is built and every sequence of updates after, the dense store holds the same points as the plain map store given the same writes and the updates that succeeded; and instrument types and allocations agree exactly if some write was a price or rate, or there are only defaults. |
| `StoreAgreement.TypesKeptIff` | crates/calce-data/src/concurrent_market_data.rs:128-130 | A store built from a builder without a price or rate forgets instrument types and allocations: they answer as the builder holds them if and only if it has a price or rate, or every type is the default one and there is no allocation. |
| `DenseStore.ConcurrentMarketData.FromBuilder` | crates/calce-data/src/concurrent_market_data.rs:104-178 | Scattering keeps exactly the last point of each day; the covered days run from the first to the last point; with no point at all nothing is kept, instrument types and allocations included. |
| `DenseStore.ConcurrentMarketData.GetPrice` | crates/calce-data/src/concurrent_market_data.rs:395-417 | The point of the day, or PriceNotFound: the answer that the plain store gives for the same points. |
| `DenseStore.ConcurrentMarketData.GetPriceHistory` | crates/calce-data/src/concurrent_market_data.rs:424-457 | The points of a range of days in order, whatever the bounds, or PriceNotFound if there is none. |
| `DenseStore.ConcurrentMarketData.GetFxRate` | crates/calce-data/src/concurrent_market_data.rs:459-475 | The identity for equal currencies, else the point of the day or FxRateNotFound. |
| `DenseStore.LookupsAre` | crates/calce-data/src/concurrent_market_data.rs:395-475 | What a lookup answers: the point of the day, one for a currency in itself, or the error that names what was asked. |
| `DenseStore.RangesAre` | crates/calce-data/src/concurrent_market_data.rs:424-457 | What a range answers: exactly its points by ascending day, or the error that names its first day. |
| `DenseStore.ConcurrentMarketData.UpdatePrice` | crates/calce-data/src/concurrent_market_data.rs:348-356 | One point is set and nothing else, current value included, if the day is covered and the instrument had a point when the store was built; else the error says which. |
| `DenseStore.ConcurrentMarketData.UpdateFxRate` | crates/calce-data/src/concurrent_market_data.rs:364-373 | Same for rates. |
| `DenseStore.Scatter` | crates/calce-data/src/concurrent_market_data.rs:138-146 | The array holds the points stored one after another into holes. |
| `DenseStore.ScatterKeepsLatest` | crates/calce-data/src/concurrent_market_data.rs:138-146 | Such an array stands for exactly the points, the last one of a day winning. |
| `DenseStore.BulkLoad` | crates/calce-data/src/concurrent_market_data.rs:138-158 | Every key gets an array of the common length, with its last value as current. |
| `DenseStore.Span` | crates/calce-data/src/concurrent_market_data.rs:112-133 | The span of days is the one from the first to the last point of prices and rates together, and empty exactly if there is none. |
| `DenseStore.LastNonNan` | crates/calce-data/src/concurrent_market_data.rs:493-499 | The last value that is not a hole; a hole if there is none. |
| `DenseStore.BetweenClamped` | crates/calce-data/src/concurrent_market_data.rs:436-439 | Clamping a range of days to the array loses no point. |
| `DenseStore.MarketDataBuilder.AddPrice` | crates/calce-data/src/concurrent_market_data.rs:43-48 | The builder stands for one more point, replacing one of the same day. |
| `DenseStore.MarketDataBuilder.AddFxRate` | crates/calce-data/src/concurrent_market_data.rs:50-55 | Same for rates. |
| `DenseStore.TestMarketData.AddPrice` | crates/calce-core/src/services/test_market_data.rs:31-34 | The plain store holds one more point, replacing one of the same day. |
| `DenseStore.TestMarketData.AddFxRate` | crates/calce-core/src/services/test_market_data.rs:36-38 | Same for rates. |
| `DenseStore.TestMarketData.GetPrice` | crates/calce-core/src/services/test_market_data.rs:64-72 | The point of the day, or PriceNotFound. |
| `DenseStore.TestMarketData.GetPriceHistory` | crates/calce-core/src/services/test_market_data.rs:74-95 | Filtering the entries in any order and sorting by day gives the points of the range in order. |
| `DenseStore.TestMarketData.GetFxRate` | crates/calce-core/src/services/test_market_data.rs:97-105 | The identity for equal currencies, else the point of the day or FxRateNotFound. |
| `DenseStore.MarketDataBuilder.AddInstrumentType` | crates/calce-data/src/concurrent_market_data.rs:57-64 | The type of one instrument is set. |
| `DenseStore.MarketDataBuilder.AddAllocation` | crates/calce-data/src/concurrent_market_data.rs:66-79 | One weight is added at the end of one dimension of one instrument. |
| `DenseStore.TestMarketData.AddInstrumentType` | crates/calce-core/src/services/test_market_data.rs:40-47 | The type of one instrument is set. |
| `DenseStore.TestMarketData.AddAllocation` | crates/calce-core/src/services/test_market_data.rs:49-60 | One weight is added at the end of one dimension of one instrument. |
| `MarketValue.MarketValueAt` | crates/calce-core/src/calc/value_change.rs:140-149 | When the valuation at a date succeeds, its total is the sum over the trades up to that date of quantity times price times rate, where these exist; each aggregated position is one valued position or one warning; and it fails exactly on a currency conflict or on a rate that is not for the pair a position asks for. |
| `MarketValue.TotalIsSumOverTrades` | crates/calce-core/src/calc/market_value.rs:40-99 | The total worth of the aggregated positions is that sum, for any additive valuation. |
| `MarketValue.ValuePositions` | crates/calce-core/src/calc/market_value.rs:40-99 | Positions without price or rate become warnings, the others are valued and sorted, the total adds them up; it fails if and only if a rate found for some priced position is not for the pair asked for. |
| `MarketValue.EachPositionOnce` | crates/calce-core/src/calc/market_value.rs:45-81 | Every position becomes exactly one valued position or one warning. |
| `MarketValue.ValueEach` | crates/calce-core/src/calc/market_value.rs:48-81 | The loop fails exactly at a rate from the wrong currency. |
| `MarketValue.Total` | crates/calce-core/src/calc/market_value.rs:86-90 | The fold adds up from zero and fails exactly at an amount in another currency. |
| `MarketValue.WorthIs` | crates/calce-core/src/calc/market_value.rs:48-81 | Worth is quantity times price, and times the rate unless in the base currency; nothing without a price or a rate. |
| `MarketValue.TradesUpTo` | crates/calce-core/src/calc/value_change.rs:140-149 | The direct sum adds the worth of the trades up to the date. |
| `MarketValue.ValuedIs` | crates/calce-core/src/calc/market_value.rs:48-81 | The fields of a valued position. |
| `MarketValue.OneMorePosition` | crates/calce-core/src/calc/market_value.rs:45-81 | A position is valued when price and rate are there, and is otherwise warned of by what is missing first. |
| `MarketValue.ValuedAscend` | crates/calce-core/src/calc/market_value.rs:83-84 | The valued positions are in the order of their ids. |
| `MarketValue.MoneyIsTyped` | crates/calce-core/src/domain/money.rs:39-85 | Money converts only by a rate from its currency and adds only to its own; which currency is expected and which was found. |
| `Aggregation.AggregatePositions` | crates/calce-core/src/calc/aggregation.rs:19-59 | Strictly by instrument, exactly the instruments with a non-zero net up to the date, in the currency of their trades; fails exactly when two trades of one instrument up to the date differ in currency, with the first such trade. |
| `Aggregation.ConflictIff` | crates/calce-core/src/calc/aggregation.rs:26-38 | The conflict remembered by the loop exists exactly when two trades of one instrument differ in currency. |
| `Aggregation.FirstConflictIs` | crates/calce-core/src/calc/aggregation.rs:26-47 | Which conflict: the earliest trade in another currency than the first trade of its instrument, whose currency is the expected one. |
| `Aggregation.NetIs` | crates/calce-core/src/calc/aggregation.rs:26-38 | A net adds up the quantities up to the date. |
| `Aggregation.PositionsAscend` | crates/calce-core/src/calc/aggregation.rs:49-58 | Positions ascend by id and none is closed. |
| `Sorting.TextBeforeIff` | crates/calce-core/src/calc/aggregation.rs:57 | The order of ids: by the first characters that differ, a prefix first. |
| `Aggregation.OrderDoesNotMatter` | crates/calce-core/src/calc/aggregation.rs:19-59 | Any permutation of the trades fails just when they do and has the very same positions. |
| `Aggregation.NetConcat` | crates/calce-core/src/calc/aggregation.rs:26-31 | The nets of a concatenation are the sums of the nets. |
| `Allocation.TypeAllocation` | crates/calce-core/src/calc/allocation.rs:31-67 | One entry for each type, of what its positions are worth, the heaviest first, weighted by the given total. |
| `Allocation.WeightedAllocation` | crates/calce-core/src/calc/allocation.rs:98-146 | One entry for each category, of what the weights give it, all of a position without weights to Uncategorized. |
| `Allocation.TypesConserve` | crates/calce-core/src/calc/allocation.rs:31-67 | Type entries add up to the positions' value, and their weights to one when the total is that value and not zero. |
| `Allocation.WeightsConserve` | crates/calce-core/src/calc/allocation.rs:98-159 | Category entries add up to each position's value times the sum of its weights, so to the whole value if every list of weights sums to one. |
| `Allocation.CollectingConserves` | crates/calce-core/src/calc/allocation.rs:106-119 | Collecting shares by key loses nothing. |
| `Allocation.TypeEntriesAre` | crates/calce-core/src/calc/allocation.rs:31-67 | Each entry is what the positions of its type are worth, of the default type without one, and its part of the total; heaviest first, one for every type. |
| `Allocation.CategoryEntriesAre` | crates/calce-core/src/calc/allocation.rs:98-146 | Each entry is the positions' values times the shares that their weights give to its category, all of a position without weights to Uncategorized; heaviest first. |
| `Volatility.AcceptedIff` | crates/calce-core/src/calc/volatility.rs:75-104 | Accepted exactly with three positive prices, sixty days from the first one, and four fifths of the records from then on positive. |
| `Volatility.RefusedBecause` | crates/calce-core/src/calc/volatility.rs:75-104 | Which refusal: the first of the three tests that fails. |
| `Volatility.OneMoreRecord` | crates/calce-core/src/calc/volatility.rs:41-46 | What counts as a valid price and as a record of the period. |
| `Volatility.ReturnIs` | crates/calce-core/src/calc/volatility.rs:50-53 | Each return is the logarithm of a price over the one before it. |
| `Volatility.VarianceIs` | crates/calce-core/src/calc/volatility.rs:109-117 | The squares of the distances from the mean, over one less than their number. |
| `Volatility.ResultIs` | crates/calce-core/src/calc/volatility.rs:56-73 | Daily deviation, times the square root of 252 for a year; observations, first and last date. |
| `Volatility.CoverageIsExact` | crates/calce-core/src/calc/volatility.rs:97-101 | The integer percentage test rejects exactly when five times the valid prices are fewer than four times the records. |
| `Volatility.VarianceIsPositive` | crates/calce-core/src/calc/volatility.rs:109-117 | The sample variance is never negative, and zero exactly when all returns are equal. |
| `Volatility.VarianceIgnoresShift` | crates/calce-core/src/calc/volatility.rs:109-117 | Shifting every return leaves it unchanged. |
| `Volatility.VolatilityIgnoresScale` | crates/calce-core/src/calc/volatility.rs:33-73 | Multiplying all prices by one positive factor changes neither the decision nor the result. |
| `ComparisonDates.PrevYearIs` | crates/calce-core/src/calc/value_change.rs:156-163 | There is a date a year earlier unless the year is the first one; month and day are kept, but the 29th of February becomes the 28th. |
| `ComparisonDates.PrevYearIsAYearBack` | crates/calce-core/src/calc/value_change.rs:156-163 | It lies 366 days back if a 29th of February was passed or left, and 365 otherwise. |
| `ComparisonDates.PrevYearKeepsOrder` | crates/calce-core/src/calc/value_change.rs:156-163 | It never reverses the order of two dates. |
| `ComparisonDates.ComparedWithThePast` | crates/calce-core/src/calc/value_change.rs:96-106 | The four comparison dates exist unless the year is the first one: one day, seven days and a year back, and the last day of the year before; all lie strictly before the date. |
| `ComparisonDates.EarlierIff` | crates/calce-core/src/calc/value_change.rs:96-106 | Day numbers are in the order of the dates. |
| `ComparisonDates.CalendarIs` | crates/calce-core/src/calc/value_change.rs:156-163 | The calendar behind them: the lengths of the months. |
| `ComparisonDates.LeapYearIs` | crates/calce-core/src/calc/value_change.rs:156-163 | A fourth year is a leap year, a hundredth is not unless it is a four hundredth. |
| `ComparisonDates.YearsAre` | crates/calce-core/src/calc/value_change.rs:156-163 | The first and the last year that a date can have. |
| `TokenFamilies.FamiliesAreSound` | crates/calce-data/src/queries/auth.rs:154-247 | In every run of atomic requests: a family is revoked as a whole or not at all and is one user's, exactly one of its tokens is not superseded, the newest, and it has one token more than refreshes were answered with a new token of it. |
| `TokenFamilies.NoRefreshAfterRevocation` | crates/calce-api/src/routes/auth.rs:181-266 | After a logout or the late replay of an unexpired superseded token, whatever requests follow, no refresh with any token of that family succeeds again. |
| `TokenFamilies.RefreshSucceedsIff` | crates/calce-api/src/routes/auth.rs:194-232 | A refresh succeeds exactly for a known, unrevoked, unexpired token that is the newest of its family, or was superseded less than thirty seconds ago while its family has a token that is neither superseded, revoked nor expired. |
| `TokenFamilies.NoRefreshAfterThirtyDays` | crates/calce-api/src/routes/auth.rs:198-203 | Whatever requests come between, no refresh with a token succeeds more than thirty days after the request that issued it. |
| `TokenFamilies.RejectedChangesNothing` | crates/calce-api/src/routes/auth.rs:190-203 | An unknown, revoked or expired token is rejected and the table stays as it is. |
| `TokenFamilies.RotationDoes` | crates/calce-api/src/routes/auth.rs:238-252 | A rotation supersedes the token now and answers with a new one of the same family and user, good for thirty days. |
| `TokenFamilies.GraceDoes` | crates/calce-api/src/routes/auth.rs:206-232 | In the thirty seconds after that the token is answered with itself, or rejected if its family has no live token; nothing changes. |
| `TokenFamilies.ReplayDoes` | crates/calce-api/src/routes/auth.rs:233-236 | From then on its replay is reported and revokes exactly the unrevoked rows of its family. |
| `TokenFamilies.LoginAdds` | crates/calce-api/src/routes/auth.rs:154-165 | A login adds one row of a new family, good for thirty days. |
| `TokenFamilies.LogoutDoes` | crates/calce-api/src/routes/auth.rs:255-266 | A logout revokes exactly the unrevoked rows of the token's family. |
| `TokenFamilies.ReplyIsNewestIff` | crates/calce-api/src/routes/auth.rs:206-232 | The token in the reply is the newest of the family if and only if the request's was not superseded: in the grace period the superseded token itself is returned. |
| `TokenFamilies.GraceReplyLeadsToRevocation` | crates/calce-api/src/routes/auth.rs:223-236 | A client that adopts the token of a grace-period reply and refreshes with it once the period is over has its whole family revoked. |
| `TokenFamilies.GraceReplyIsSuperseded` | crates/calce-api/src/routes/auth.rs:206-232 | A run that shows it: one second after a login and a refresh, the first token is answered with itself, while the family has a newer one. |
| `TokenFamilies.StepKeepsInv` | crates/calce-api/src/routes/auth.rs:181-266 | Every request keeps the invariant of all families. |
| `TokenFamilies.AuthService.Refresh` | crates/calce-api/src/routes/auth.rs:181-253 | The handler, statement by statement, does to the table and replies what the step function says. |
| `TokenFamilies.AuthService.Login` | crates/calce-api/src/routes/auth.rs:150-165 | A login starts a new family with one token. |
| `TokenFamilies.AuthService.Logout` | crates/calce-api/src/routes/auth.rs:255-266 | Revokes the family of a known token. |
| `TokenFamilies.AuthService.IssueTokens` | crates/calce-api/src/routes/auth.rs:75-100 | One new row with a lifetime of thirty days, and its token in the reply. |
| `TokenFamilies.AuthService.RevokeTokenFamily` | crates/calce-data/src/queries/auth.rs:238-247 | Exactly the unrevoked rows of the family are revoked, at the given time. |
| `TokenFamilies.AuthService.FindActiveFamilyToken` | crates/calce-data/src/queries/auth.rs:199-224 | The newest of the family's rows that are not superseded, not revoked and not expired, if there is one. |

## Left out

- TCP, authentication, message framing on the socket, slot and publication queries: the server is an abstract log with a confirmed position, whose obligations are spelled out in `Replication`.
- Replication.AtLeastOnce: the server's obligations are assumptions about PostgreSQL, not proved of it; the ones on announced positions and on descriptions are shown to be exact.
- Listener.CdcListener.Run: sending on the event channel waits while it is full in the program; here a send either succeeds or finds the channel closed.
- UTF-8: text is kept as bytes, so the replacement of invalid sequences is not modelled.
- Pipeline.StartCdc: that the channel is found closed only after a panic in `Currency::new` stopped the consumer is a condition on the sessions (`ClosedByConsumer`); when exactly the listener notices is left open.
- Subscribers.FollowersConverge: the consumer is the only writer of the key in the run; other callers of the setters are not covered.
- NoLostSignal.NoSignalLost: the locks that keep a fan-out apart from a change of the same key's list are not modelled; more interleavings are allowed than in the program. Cache entries inserted at start-up raise no signals, so values are followed only once read.
- Dispatcher.Dispatcher.Run: clients act before any fan-out but not within one; that interleaving is covered by `NoLostSignal`, without the statistics. An event's kind and key determine it, so the pending map is a set.
- PubSub.SubscriptionRegistry.FanOut: the registry's own steps do not interleave here; that is `RegistrySteps`.
- CopyOnWrite.Linearizable: an `insert` over an existing entry waits until no update of it is running, as the entry's lock enforces.
- StoreAgreement.Replay: values are not not-a-number, and dates are day numbers.
- Query helpers of the dense store that only count or list, and the range query for rates, which repeats the one for prices.
- MarketValue.MarketValueAt: sums are over reals; in `f64` they depend on the order of addition. Percentage changes between two valuations are a single division.
- Volatility.VolatilityIgnoresScale: overflow to an infinite deviation, which the code rejects, cannot happen over reals.
- ComparisonDates.ComparedWithThePast: dates within a week of the first representable day, where the code panics, are not told apart.
- TokenFamilies.FamiliesAreSound: a request is atomic here; in the program lookup, supersede and insert are separate statements whose interleaving with other requests is not modelled.
- Passwords, lockout, rate limits, JWT contents, API keys, HTTP routes, SSE, Python bindings, the AI service, the console, migrations and import tools: plumbing or library behaviour.
