# Verification of busl's stream protocol, its Redis client and two parsers

busl relays the output of running processes over HTTP. Writers append to a channel kept in Redis;
readers get the channel from any offset, live, as plain text or as server-sent events. This project
models the logic that makes this work and proves properties of it in Dafny.

    dafny verify dfyconfig.toml

## What is modelled

- **The broker** (`Stream`, `Wakeup`, `Drain`, `Channels`, `Isolation`, `Broker`). `Stream` is one channel
  as a state machine: every Redis transaction of a writer, every fetch of the reader and every message it
  takes is one step, and steps interleave freely. `Channels` is a whole Redis with any number of channels
  behind one subscriber's wildcard; `Isolation` projects its runs onto the machine. `Broker` has the
  writers and the reader as classes, proved to take exactly the machine's steps.
- **Server-sent events** (`Sse`, `Encoder`, `Fitting`, `KeepAlive`, `Serving`, `Resume`). The specification
  is the parser of W3C Server-Sent Events (WD-eventsource-20120426), sections "Parsing an event stream" and
  "Interpreting an event stream"; `Sse.LineEnds`, `FieldForms` and `FieldEffects` say what it does beyond
  busl's own frames. `Fitting` is about frames that fit their buffer or are cut, `Serving` composes the
  broker, the encoder and the keep-alive reader, and `Resume` has the promise made to a client that
  reconnects with Last-Event-ID.
- **The connection pool** (`PoolMonitor`, `PoolIdle`, `Session`, `Pipeline`, `Pooled`). The pool is a
  monitor: each region between taking and releasing the lock is one step of one of any number of
  goroutines. `Session` has the bits the pool tracks and a model of the server's session with its replies;
  `Pipeline` is about which reply belongs to which command; `Pooled` puts the two together into a borrowed
  connection and shows what Close makes of every state it can get into.
- **The Redis protocol** (`Resp`, `Decimal`). RESP2 printing and reading against the protocol's own form of
  a reply (Redis serialization protocol specification, sections "Simple strings", "Errors", "Integers",
  "Bulk strings" and "Arrays"), with int64 wrap-around written out.
- **Two parsers** (`Flags`, `Template`): pflag's command line and the braces of mux's route templates.

`Bytes` and `Seqs` hold what the others share; `Examples` spells out the texts that printers and readers
have in common.

Fields of a state that only record history (`mark`, `closes`, `chunks`, `eof` of the broker; `out`, `taken`,
`left` of the keep-alive reader; `clients`, `clock`, `dialled` of the pool) decide no step.

## Where the code does less than one would expect

Each of these is a theorem with its exact condition.

- A live reader fetches once per notification. If one Write may be longer than a reader's buffer, wake-ups
  get lost and EOF can cut data off; otherwise neither can happen (`WakeupsKeptIff`, `EofCompleteIff`,
  `CutOff`). busl keeps its Writes small enough: body chunks and reads are at most 32K.
- An EOF found while replaying does not close the reader, so a writer that reopens the stream can make the
  next Read return data or block (`EofStaysIff`, `EofNeedNotStay`).
- A Seek to a negative offset fails and moves the reader anyway. Redis then counts from the end of the log:
  the reader is given its tail, a part of it or nothing, depending on the buffer
  (`NegativeOffsetReadsTail`), and an encoder on top prints ids that are no stream offsets (`Encoder.Seek`,
  `Resume.Open`).
- A zero-length buffer at offset 0 makes a fetch return the whole log (`FetchFitsIff`).
- The encoder prints a frame into the buffer it has read the data into, so a Read that fills its buffer is
  always cut (`FullReadIsCut`). A client that finds 32K of backlog or more runs into this (`BacklogIsCut`).
  A cut frame by itself makes no event (`CutFrameIsSilent`), but the client takes the id line of the next
  frame for data: it gets corrupted data, loses what was cut off, and is given the id behind the loss
  (`CutSpoilsNext`). A CR in the data does not survive the event format (`RoundTripIff`). So every connection
  decodes what it was sent, whatever the timing, exactly when what is left of the log fits one buffer as one
  frame and has no CR (`EveryVisitDecodesIff`, and `EveryRunFitsIff` in terms of sizes alone), and then
  resumption is exactly-once (`ResumptionIsExactlyOnce`). For longer logs it is so in those sessions in which
  every frame received was whole (`ReadableSessions`).
- A pooled connection can go back to the idle list with a WATCH still in force: after EXEC outside MULTI, or
  after an UNWATCH that a subscriber was refused and whose error reply has been read (`OnlyWatchLeaks`,
  `ExecLeavesWatch`, `RefusedUnwatchLeavesWatch`). It can go back with a reply unread, after a pub/sub
  command with several replies on a connection that never subscribed (`LeftUnreadIff`, `SecondReplyIsLeftOver`).
- After an EXEC with a wrong number of arguments, Close of a connection that was ever subscribed can wait
  for ever (`CloseEnds`, `BadExecHangsClose`).
- A cluster with a dash among its letters is not what its expansion means (`ClusterIsExpansionIff`).
- A reply length or integer of more than 63 bits wraps silently (`LenRoundTrip`, `IntRoundTrip`).

## Model

| member | source | states |
|---|---|---|
| Stream.DeliveryInOrder | broker/io.go:97-186 | In every interleaving of writers and reader, with any positive buffer sizes and any start offset `start >= 0`, the concatenation of all bytes the Reads have returned is the log from `start` to the reader's offset: in order, each byte once, across the switch from replay to live. |
| Stream.NextInOrder | broker/io.go:97-186 | The invariant behind it holds across each single step of a writer or the reader. |
| Stream.FetchFromOffset | broker/io.go:164-186 | For a non-empty buffer and an offset that is not negative, a fetch returns exactly the log from the offset on, reaching the end of the buffer or of the log, and nothing only when the offset is at or past the end. |
| Stream.FetchFitsIff | broker/io.go:168-171 | GETRANGE returns at most `len(p)` bytes if and only if `len(p) > 0`, or the offset is not 0, or the log is empty. (A zero-length buffer at offset 0 asks for `0 -1`, the whole string.) |
| Stream.NegativeOffsetReadsTail | broker/io.go:81-95 | A reader left at `-k` by a failed Seek, with `k` up to the size of the log, fetches the last `k` bytes if and only if its buffer has `k` bytes or at least `k` more than the log; with a shorter one the beginning of them, and with one between `k` and the size of the log nothing. |
| Wakeup.RunsArePrompt | broker/io.go:97-186 | Safety over whole runs with each Write no longer than each buffer: a reader that has replayed is at least at the log size just before its oldest unconsumed message; with no message outstanding nothing is undelivered; an EOF has some Close before it all of whose earlier bytes are delivered; delivery is in order. |
| Wakeup.NextAwake | broker/io.go:26-186 | Each step keeps the no-lost-wake-up invariant: every queued `id` stands for at most `w` new bytes and the reader is never behind the mark of the oldest one. |
| Wakeup.NextEofCovered | broker/io.go:26-186 | Each step keeps: done, a queued kill and a returned EOF each go back to a recorded Close, and EOF only with the offset at or past the size at that Close. |
| Wakeup.WakeupsKeptIff | broker/io.go:106-161 | "No wake-up is lost" holds of all runs with Writes up to `w` bytes and buffers from `l` bytes if and only if `w <= l`. |
| Wakeup.EofCompleteIff | broker/io.go:143-162 | "No EOF cuts data off" holds of all runs with Writes up to `w` bytes and buffers from `l` bytes if and only if `w <= l`. |
| Wakeup.CutOff | broker/io.go:143-162 | For every `1 <= l < w` a concrete run whose last Read takes the kill message of the only Close and returns EOF with bytes undelivered that were written before that Close. |
| Wakeup.EofIsEarned | broker/io.go:119-162 | In all runs with each Write no longer than each buffer, each EOF by itself: one from the done flag has the offset at or past the log as it is, one from a kill message at or past the log size at the very Close that sent it, on reopened streams too. |
| Wakeup.EofsEarnedIff | broker/io.go:119-162 | Every single EOF is earned in that sense, in all runs with Writes up to `w` bytes and buffers from `l` bytes, if and only if `w <= l`. |
| Drain.NoDeadlockAfterClose | broker/io.go:26-186 | From every reachable state in which the last writer has closed, between Reads or inside one that waits or holds a message, and whatever other channels send meanwhile: until EOF the reader always has a step to take, it starts at most as many Reads as there are messages up to the first kill or bytes still to replay, and after a bounded number of its steps it has returned EOF. |
| Drain.StepProgress | broker/io.go:97-162 | In such a state every step of the reader reaches EOF or lowers that measure, and messages of other channels do not raise it. |
| Drain.WholeStreamDelivered | broker/io.go:26-186 | A channel closed once, after its last byte, at whatever point of a Read: by the time EOF comes the log from the start offset to its end has been delivered, and EOF comes after a bounded number of steps of the reader. |
| Drain.EofStaysIff | broker/io.go:97-162 | After the replay has ended, the next Read is sure to return EOF whatever writers do in between if and only if the reader is closed or a kill message is next in its queue; an EOF found while replaying closes nothing and need not stay. |
| Drain.LiveEofStays | broker/io.go:143-162 | `read` closes the reader exactly when it returns EOF, and that EOF stays. |
| Drain.EofNeedNotStay | broker/io.go:119-141 | The first Read of an empty channel that is done returns EOF, and that EOF does not stay. |
| Channels.SuffixesDiffer | broker/redis.go:68-82 | The id, done and kill keys of any two channels never coincide. |
| Channels.KeysInjective | broker/redis.go:68-82 | Distinct channels have distinct id, done and kill keys. |
| Channels.PerformSeen | broker/io.go:26-49 | A writer's transaction on any channel is, to a subscriber, exactly one Write or Close of its own channel, or at most one foreign message that changes neither log nor done flag. |
| Channels.PerformAllSeen | broker/io.go:26-49 | The same for any list of transactions. |
| Isolation.OwnStepsRun | broker/io.go:61-162 | Every run of writers on any channels and one reader is, to that reader, a run of the steps on its own channel with an empty Read for each foreign message it takes, whatever the buffer lengths. |
| Isolation.ErasedRun | broker/io.go:97-117 | Letting each Read that comes back empty go on with the Read after it leaves a run to the same log, done flag, offset, returned chunks and EOF, up to a Read that still waits. |
| Isolation.NothingToErase | broker/io.go:97-117 | Where no Read comes back empty nothing is erased. |
| Isolation.ChannelIsolation | broker/io.go:61-162 | Every run of writers on any channels and one reader is, to that reader, the run in which the other channels do not exist: same log, done flag, offset, returned chunks and EOF, even where the wildcard delivers their messages. No empty Read is left; the one difference is a Read that still waits there where here it came back empty. |
| Isolation.OthersAreInvisible | broker/redis.go:66-82 | Two runs that differ only in what other channels do, however many of their messages each reader takes, give the reader the same bytes and the same EOF. |
| Isolation.SystemIsMachine | broker/io.go:26-162 | Every run of the many-channel system is a run of the single-channel machine. |
| Isolation.SystemKeepsPromises | broker/io.go:26-186 | In-order delivery, no lost wake-up and no early EOF for the whole system, where only Writes on the reader's own channel have to fit its buffers. |
| Broker.Writer.Write | broker/io.go:37-49 | The commands sent add up to the Write transaction and nothing else; the result is `len(p)`. |
| Broker.Writer.Close | broker/io.go:26-35 | The commands sent add up to the Close transaction and nothing else. |
| Broker.NewWriter | broker/io.go:18-24 | ErrNotRegistered exactly when the channel's key is missing. |
| Broker.Register | broker/redis.go:92-104 | Afterwards the channel is registered and its log is empty; every other channel's registration and log, and every done flag, are as they were. |
| Broker.Subscriber.Seek | broker/io.go:81-95 | All cases of whence and sign: the new offset (moved even when the call fails), the error, and the result. |
| Broker.Subscriber.FetchTx | broker/io.go:164-186 | The transaction returns the machine's fetch: data, buffered flag and EOF. |
| Broker.Subscriber.Replay | broker/io.go:97-104 | The closed check and `replay` are exactly the first step of a Read, with the bytes in `p`, the count and the error. |
| Broker.Subscriber.Consume | broker/io.go:143-162 | `read` of an id or kill message is exactly the last step of a Read; EOF for a kill or a done channel, and then the reader is closed. |
| Broker.Subscriber.Read | broker/io.go:97-117 | With any transactions of other goroutines while it waits and between message and fetch: the new state, the bytes in `p`, the count and EOF are those of `ReadResult`; it blocks only where the queue is empty. |
| Broker.ReadIsRun | broker/io.go:97-117 | `ReadResult` is a run of the machine, so everything proved of all runs holds of the methods. |
| Broker.Subscriber.ReaderDone | broker/io.go:201-216 | Done exactly when the reader is closed or the done flag is set. |
| Broker.Subscriber.NoContent | broker/io.go:218-232 | True exactly when the stream is done and the offset is at or past the log's length. |
| Broker.NewReader | broker/io.go:61-76 | ErrNotRegistered exactly when the key is missing; otherwise the machine's initial state at offset 0, and no key changed. |
| Broker.OpenAt | server/middleware.go:124-141 | A reader of a registered channel starts at the requested offset when that is positive and at 0 otherwise. |
| Sse.RoundTrip | sse/sse.go:51-61 | A frame of a CR-free message at offset `pos`, in front of anything, is read by the W3C parser as one event: data = message, id = `pos + len(msg)`; parsing goes on with the rest. |
| Sse.RoundTripIff | sse/sse.go:51-61 | A frame is read as exactly that event if and only if the message has no CR. |
| Sse.FrameSize | sse/sse.go:36-61 | A frame is `13 + digits + len(msg) + 6 * newlines` bytes long. |
| Sse.FramesParse | sse/sse.go:39-61 | The frames of successive chunks, concatenated, are read frame by frame, and the last event ID string is that of the last one. |
| Sse.LastIdIsOffset | sse/sse.go:42-44 | The last id is the absolute offset reached. |
| Sse.SplitEnded | sse/sse.go:54-56 | The lines the message is split into, each ended by LF, are the message and one LF. |
| Sse.FormatFrame | sse/sse.go:51-61 | The printing loop produces `Format`, of which the lemmas above speak. |
| Sse.ParseConcat | sse/sse.go:51-61 | Parsing can stop and go on at any line boundary. |
| Sse.CommentIsSkipped | server/middleware.go:169-170 | A line that starts with a colon changes nothing in the parser. |
| Encoder.Encoder.Seek | sse/sse.go:23-34 | After a seek from the start, encoder and reader agree on the offset if and only if it is not negative. |
| Encoder.Encoder.Read | sse/sse.go:36-49 | One Read of the reader; a non-empty result becomes its frame, cut to the buffer, and the offset moves by the bytes read, so ids stay absolute stream offsets. |
| Encoder.CutFrameIsSilent | sse/sse.go:36-49 | No strict prefix of a frame makes an event or changes the last event ID string, whatever the parser's state. |
| Encoder.EmittedIsReadIff | sse/sse.go:36-49 | What the encoder puts into a buffer of `cap` bytes is read as the event it stands for if and only if `13 + digits + len(msg) + 6 * newlines <= cap`. |
| Fitting.FullReadIsCut | sse/sse.go:36-49 | A Read that fills its buffer gives a frame that does not fit the buffer, always. |
| Fitting.BacklogIsCut | sse/sse.go:36-49 | A client that finds a buffer's worth of backlog is sent a frame that has been cut. |
| Fitting.RunFits | sse/sse.go:36-49 | Where all the log holds from the start offset on fits a buffer as one frame, no frame of any run is cut, however the data is divided. |
| Fitting.EveryRunFitsIff | sse/sse.go:36-49 | No run from offset `start` up to a log of `N` bytes, with buffers of `cap` bytes, has a frame cut if and only if `N <= start` or `13 + digits(N) + 7 * (N - start) <= cap`. |
| Fitting.CutSpoilsNext | sse/sse.go:36-61 | After a frame cut in its data, the next frame's id line is read as data: the client gets one event with the data received, that id line and the next chunk, under the id of the cut frame, and never the rest of the cut chunk. |
| KeepAlive.KeepAlivesAreInvisible | server/keepalivereader.go:26-74 | For every schedule of source reads, timer firings and client departures: the output without keep-alive packets is a prefix of what the source gave, in order; if the EOF came from the source it is everything up to that EOF. |
| KeepAlive.NextErrorLast | server/keepalivereader.go:26-74 | Each step keeps: handed out, queued and held results are the source's, in order and without gaps, the channel holds at most 100, and only the newest result can be an error. |
| KeepAlive.EofSticks | server/keepalivereader.go:44-74 | After EOF nothing more is handed out, whatever happens. |
| KeepAlive.EofArrives | server/keepalivereader.go:53-63 | Once all results of a source that ends with EOF have been handed out, Read has returned EOF and everything the source gave. |
| KeepAlive.Progress | server/keepalivereader.go:26-74 | Until then the producer or Read has a step to take that comes nearer to it: they never wait for each other. |
| KeepAlive.HandsOutAll | server/keepalivereader.go:26-74 | Every source that ends with EOF can be handed out to its end. |
| KeepAlive.ChannelHolds100 | server/keepalivereader.go:27 | The channel holds at most 100 results and takes one more exactly below that. |
| KeepAlive.PingsDecodeToNothing | server/middleware.go:160-174 | An event stream with `:keepalive` lines between its frames decodes to the same parser state as without them. |
| KeepAlive.Reader.Read | server/keepalivereader.go:44-74 | The three cases of the select: next payload, keep-alive packet, client gone; the count, the error, the bytes in `p` and the new state of each. |
| KeepAlive.Reader.Produce | server/keepalivereader.go:29-32 | The producer takes the next result of the source. |
| KeepAlive.Reader.Enqueue | server/keepalivereader.go:33-37 | The producer puts it into the channel, and stops after an error. |
| Resume.ResumptionIsExactlyOnce | server/middleware.go:90-175 | However often the connection breaks, at whichever byte, whatever the writers' timing, and the client comes back with its last event ID: the data decoded over all connections is the log from the first requested offset to the offset it would ask for next, each byte once. Asked of the log: from the first offset on it has no CR and fits one buffer as one frame. |
| Resume.EveryVisitDecodesIff | server/middleware.go:90-175 | That condition is exact. For every log and start offset: all connections that end with this log decode what they were sent and come back for the next byte if and only if the log from the offset on has no CR and fits one buffer as one frame. |
| Resume.ReadableSessions | server/middleware.go:90-175 | Beyond that condition, exactly-once holds of every session, of logs of any length, in which the frames the client received were whole and without CR. |
| Resume.VisitDecodes | server/middleware.go:90-102 | One connection under that condition: the decoded data is what was sent in whole frames, and the next Last-Event-ID asks for exactly the byte after it. |
| Resume.ReadableDecodes | server/middleware.go:90-102 | The same of every connection whose received frames were whole and without CR. |
| Serving.Produce | server/keepalivereader.go:29-39 | The producer's loop over the encoder's Reads, with any transactions of others around and inside them: its results, empty ones aside, are exactly the frames of what the broker's reader has returned, in order; that reader has taken a run of the machine; the last result is EOF exactly when the reader has returned EOF, every earlier one is without error, and the producer stops for nothing else. |
| Serving.FinishedStreamIsServed | server/keepalivereader.go:26-74 | The end of a stream closed once, after its last byte: once all results have been handed out, Read has returned EOF, and before it the frames of exactly the log from the start offset to its end. |
| Serving.AnyBreakIsAVisit | server/keepalivereader.go:26-74 | Whatever the keep-alive reader makes of those results, cut or not, and wherever the connection breaks, the client has the emitted frames and keep-alive lines in order and the beginning of one more. |
| Resume.ServedVisit | server/middleware.go:143-175 | A response broken off after any number of bytes, its frames cut or not, is a connection of the kind these theorems speak of. |
| Resume.FinishedClientGetsNoContent | broker/io.go:201-232 | A client of a finished stream whose received frames were whole is told No Content if and only if it has decoded the stream to its end. |
| Resume.Open | server/middleware.go:124-175 | How a request is answered: storage fallback exactly for a missing key, No Content exactly for a done stream at or past its end, else a reader at the requested offset, and for event streams an encoder that agrees with it if and only if the offset is not negative. For each form of the headers, where the reader and the ids start. |
| Resume.OffsetIsAsked | server/middleware.go:90-102 | A number as Last-Event-ID, or without one as Range, alone or up to the first dash, is the offset; with neither header it is 0. |
| Resume.LastEventIdComesFirst | server/middleware.go:93-98 | Range does not matter where there is a Last-Event-ID. |
| Decimal.AtoiText | server/middleware.go:100-101 | Atoi inverts the decimal text of every offset. |
| Decimal.AtoiOf | server/middleware.go:100 | Signs, numbers out of range, and text that is no number. |
| PoolMonitor.PoolConservesAndWakes | Godeps/_workspace/src/github.com/garyburd/redigo/redis/pool.go:166-295 | At every unlocked point of every run: active = idle + borrowed + being tested + being dialled; active never exceeds a positive MaxActive, idle never exceeds MaxIdle; and while anybody waits unsignalled, the pool is open and its free capacity is at most the number of signalled goroutines yet to run. |
| PoolMonitor.NextCounted | Godeps/_workspace/src/github.com/garyburd/redigo/redis/pool.go:166-295 | Each locked region keeps that invariant. |
| PoolMonitor.SleepOnlyWhenFull | Godeps/_workspace/src/github.com/garyburd/redigo/redis/pool.go:244-268 | Whenever a step puts a goroutine to sleep, the idle list is empty and every slot is out. |
| PoolMonitor.SleeperHasWaker | Godeps/_workspace/src/github.com/garyburd/redigo/redis/pool.go:184-295 | With somebody waiting and nobody signalled, all MaxActive slots are out and some goroutine holds one, so a release is still to come. |
| PoolMonitor.RefusedOnlyWhenFull | Godeps/_workspace/src/github.com/garyburd/redigo/redis/pool.go:193-295 | In every step, a client ends with nothing only in a pool that is closed, or full and not to be waited for, or after a failed dial or its own put; and starts to wait only for a pool that is open, full and to be waited for. |
| PoolMonitor.OpenPoolServes | Godeps/_workspace/src/github.com/garyburd/redigo/redis/pool.go:216-268 | Over whole runs: in an open pool below its limit, or without one, no `get` is refused or put to sleep. |
| PoolMonitor.HandedOut | Godeps/_workspace/src/github.com/garyburd/redigo/redis/pool.go:216-256 | What a client is given: the newest idle connection, to test it if there is a test; the one it has tested; or a new one. |
| PoolIdle.RunKeeps | Godeps/_workspace/src/github.com/garyburd/redigo/redis/pool.go:193-295 | In every run no connection is idle twice, held twice, or both idle and held, and the idle list runs from newest to oldest return. |
| PoolIdle.NextKeeps | Godeps/_workspace/src/github.com/garyburd/redigo/redis/pool.go:193-295 | Each locked region keeps that. |
| PoolIdle.PruningFilters | Godeps/_workspace/src/github.com/garyburd/redigo/redis/pool.go:199-214 | The same from any point of the prune loop on. |
| PoolIdle.GetFilters | Godeps/_workspace/src/github.com/garyburd/redigo/redis/pool.go:193-214 | A whole `get` as unlocked steps, from its first: without interference and at a fixed time it leaves to its main loop exactly the unexpired connections, each removed one giving back its slot. |
| PoolIdle.GetTakesNewest | Godeps/_workspace/src/github.com/garyburd/redigo/redis/pool.go:193-231 | And its main loop takes the newest connection, if that has not expired. |
| PoolIdle.NoTimeoutNoPruning | Godeps/_workspace/src/github.com/garyburd/redigo/redis/pool.go:198 | Without a timeout nothing is pruned. |
| PoolIdle.UnexpiredIs | Godeps/_workspace/src/github.com/garyburd/redigo/redis/pool.go:204-207 | The filtered list holds exactly the connections with `t + timeout > now`. |
| PoolIdle.NoneStale | Godeps/_workspace/src/github.com/garyburd/redigo/redis/pool.go:204-207 | In an ordered list, nothing is expired once the oldest is not: the early break loses nothing. |
| PoolIdle.Pool.PruneAll | Godeps/_workspace/src/github.com/garyburd/redigo/redis/pool.go:196-214 | The back-to-front loop with its early break: the list left is the filtered list, and what is taken off is the rest, in order. |
| PoolIdle.Pool.Look | Godeps/_workspace/src/github.com/garyburd/redigo/redis/pool.go:216-268 | From one look at the idle list to the next unlock: the newest idle connection is taken, and tested exactly where there is a test; with none to take, refused exactly if the pool is closed, or full and not to be waited for, put to sleep exactly if full and to be waited for, and dialled for exactly otherwise; and the whole new state. |
| PoolIdle.Pool.Put | Godeps/_workspace/src/github.com/garyburd/redigo/redis/pool.go:272-295 | Giving a connection back: a good one goes to the front of the idle list of an open pool, the oldest makes room where it is full, everything else is closed, and each closed one gives back its slot. |
| PoolIdle.Pool.Release | Godeps/_workspace/src/github.com/garyburd/redigo/redis/pool.go:184-189 | One slot less, one waiter signalled. |
| PoolIdle.Pool.DialFailed | Godeps/_workspace/src/github.com/garyburd/redigo/redis/pool.go:250-255 | A failed dial gives its slot back and signals. |
| PoolIdle.Pool.Close | Godeps/_workspace/src/github.com/garyburd/redigo/redis/pool.go:166-180 | Closing empties the idle list, gives back its slots and wakes everybody. |
| Session.LookupByVerb | Godeps/_workspace/src/github.com/garyburd/redigo/internal/commandinfo.go:21-45 | The bits each command sets and clears, whatever the case of its name. |
| Session.CaseDoesNotMatter | Godeps/_workspace/src/github.com/garyburd/redigo/internal/commandinfo.go:43-45 | The case of a command's letters does not matter. |
| Session.SendTracked | Godeps/_workspace/src/github.com/garyburd/redigo/redis/pool.go:362-372 | Across any command, malformed or not: subscriptions and MONITOR on the server are recorded in the tracked bits, those queued inside MULTI included. |
| Pooled.RunLinked | Godeps/_workspace/src/github.com/garyburd/redigo/redis/pool.go:362-380 | In every run of commands, replies read and pushes: that holds, and pending never exceeds the replies owed. |
| Pooled.CloseEnds | Godeps/_workspace/src/github.com/garyburd/redigo/redis/pool.go:320-356 | How Close ends in any such state: it waits for ever exactly inside a MULTI the bits do not know of, with the subscription bit and no error reply unread; it gives the connection back exactly when there is no MONITOR bit and, with the subscription bit, no error reply comes before the sentinel, neither unread before nor to DISCARD or UNWATCH. |
| Pooled.KeptIs | Godeps/_workspace/src/github.com/garyburd/redigo/redis/pool.go:320-356 | A connection given back has a clean session exactly when DISCARD or UNWATCH undid the MULTI and WATCH in force; nothing is pending; and nothing is unread exactly when it had the subscription bit or every unread reply was pending. |
| Pooled.CleanWhenReturnedIff | Godeps/_workspace/src/github.com/garyburd/redigo/redis/pool.go:320-372 | The three equivalences after every sequence of commands, malformed ones included. |
| Pooled.OnlyWatchLeaks | Godeps/_workspace/src/github.com/garyburd/redigo/redis/pool.go:320-372 | If commands have the right numbers of arguments, Close always returns, and a connection given back is dirty if and only if the server watches and neither the WATCH nor the MULTI bit is set; MULTI, subscriptions and MONITOR never leak. |
| Pooled.LeftUnreadIff | Godeps/_workspace/src/github.com/garyburd/redigo/redis/pool.go:320-372 | A connection given back has nothing unread if and only if it had the subscription bit or its commands had no more replies than one each and those the caller received beyond what was pending. |
| Pooled.DisciplinedIsClean | Godeps/_workspace/src/github.com/garyburd/redigo/redis/pool.go:320-372 | Callers that send EXEC and DISCARD only inside MULTI, UNWATCH only while not subscribed, UNSUBSCRIBE and PUNSUBSCRIBE only after a subscription, and the right numbers of arguments, never put a dirty session or an unread reply into the idle list; UNWATCH queued inside MULTI and subscriptions on top of a WATCH are fine. |
| Pooled.ExecLeavesWatch | Godeps/_workspace/src/github.com/garyburd/redigo/internal/commandinfo.go:32-41 | `WATCH`, `EXEC`: the connection goes back to the idle list with the watch in force. |
| Pooled.RefusedUnwatchLeavesWatch | Godeps/_workspace/src/github.com/garyburd/redigo/internal/commandinfo.go:32-41 | `WATCH`, `SUBSCRIBE`, and an `UNWATCH` whose refusal is read: the same. |
| Pooled.SubscribedWatchIsNotKept | Godeps/_workspace/src/github.com/garyburd/redigo/redis/pool.go:327-354 | `WATCH`, `SUBSCRIBE`: Close meets the error reply to its own UNWATCH before the sentinel and does not keep the connection. |
| Pooled.SecondReplyIsLeftOver | Godeps/_workspace/src/github.com/garyburd/redigo/redis/pool.go:320-356 | `UNSUBSCRIBE a b` without a subscription: the connection goes back with a reply still to come. |
| Pooled.BadExecHangsClose | Godeps/_workspace/src/github.com/garyburd/redigo/redis/pool.go:342-352 | After a subscription, `MULTI` and an `EXEC` with an argument: Close waits for ever. |
| Pooled.PooledConnection.Send | Godeps/_workspace/src/github.com/garyburd/redigo/redis/pool.go:368-372 | The bits, the server's session and the replies owed after one more command. |
| Pooled.PooledConnection.Do | Godeps/_workspace/src/github.com/garyburd/redigo/redis/pool.go:362-366 | The same, with the replies read up to the command's own and the first error among them; on a closed connection the bits alone, and the answer that it is closed. |
| Pooled.PooledConnection.Close | Godeps/_workspace/src/github.com/garyburd/redigo/redis/pool.go:320-356 | Close leaves what `CloseLink` says, or does not return; the subscription bit goes only when the sentinel is seen, the first error reply ends the wait for it, and a second Close changes nothing. |
| Pipeline.Conn.Send | Godeps/_workspace/src/github.com/garyburd/redigo/redis/conn.go:357-368 | One more reply pending; pending never exceeds the replies owed. |
| Pipeline.Conn.Receive | Godeps/_workspace/src/github.com/garyburd/redigo/redis/conn.go:380-403 | The next reply; pending goes down by one and never below 0; without pushes it is the reply to the oldest command not yet answered. |
| Pipeline.Conn.Do | Godeps/_workspace/src/github.com/garyburd/redigo/redis/conn.go:405-455 | Do reads `pending + 1` replies, of which there are enough whatever the pushes, returns the last and the first error reply among them; without pushes the last is the reply to its own command. |
| Pipeline.FirstErrorIs | Godeps/_workspace/src/github.com/garyburd/redigo/redis/conn.go:443-454 | The error of Do is that of the first error reply, and there is none exactly if no reply is an error. |
| Pipeline.Conn.DoNothing | Godeps/_workspace/src/github.com/garyburd/redigo/redis/conn.go:405-441 | Do("") reads exactly the pending replies, all of which are coming. |
| Pipeline.Conn.AwaitSentinel | Godeps/_workspace/src/github.com/garyburd/redigo/redis/pool.go:342-352 | The receive loop ends at the first error reply or at the sentinel, whichever comes first. |
| Pipeline.AwaitOutcome | Godeps/_workspace/src/github.com/garyburd/redigo/redis/pool.go:342-352 | Where only the last reply can be the sentinel, the loop finds it exactly when no error reply is on the wire, and has then read everything; it never ends exactly when neither is to come. |
| Pipeline.AwaitStopsAt | Godeps/_workspace/src/github.com/garyburd/redigo/redis/pool.go:342-352 | What is left on the wire and what is still pending where the loop stops. |
| Pipeline.Conn.CloseSubscribed | Godeps/_workspace/src/github.com/garyburd/redigo/redis/pool.go:334-353 | The clean-up of a subscribed connection, with any replies unread before it: the sentinel is found exactly when no error reply precedes it, and then nothing is unread and Do("") waits for nothing; after an error reply Do("") reads the replies still pending, all of which are coming. |
| Resp.RoundTrip | Godeps/_workspace/src/github.com/garyburd/redigo/redis/conn.go:227-355 | readReply on the encoding of any reply tree the protocol can carry, followed by anything, returns the tree and leaves exactly what followed. |
| Resp.RoundTripIff | Godeps/_workspace/src/github.com/garyburd/redigo/redis/conn.go:227-355 | That round trip holds if and only if the tree is carried: lines without LF that fit the read buffer, int64 integers, int lengths. |
| Resp.ReadIsCarried | Godeps/_workspace/src/github.com/garyburd/redigo/redis/conn.go:227-355 | readReply returns nothing but carried replies, on any input at all. |
| Resp.CommandIsRead | Godeps/_workspace/src/github.com/garyburd/redigo/redis/conn.go:186-219 | What writeCommand prints is read back as the array of the command and, for each argument in order, a bulk string that carries it, leaving exactly what follows. |
| Resp.BulksCarry | Godeps/_workspace/src/github.com/garyburd/redigo/redis/conn.go:193-217 | Each argument is carried: text and bytes as they are, an int64 as what parseInt reads as it, true and false as 1 and 0, nil as nothing. |
| Resp.WrongReplies | Godeps/_workspace/src/github.com/garyburd/redigo/redis/conn.go:300-355 | Each kind of malformed reply has its own error. |
| Resp.WrongBulks | Godeps/_workspace/src/github.com/garyburd/redigo/redis/conn.go:324-339 | A bulk string cut short, and one without CRLF after it. |
| Resp.SeenAsIs | Godeps/_workspace/src/github.com/garyburd/redigo/redis/conn.go:324-352 | Apart from null arrays, a reply is returned as it is. |
| Resp.LenRoundTrip | Godeps/_workspace/src/github.com/garyburd/redigo/redis/conn.go:147-162 | parseLen inverts the digits writeLen prints for exactly the lengths below 2^63. |
| Resp.IntRoundTrip | Godeps/_workspace/src/github.com/garyburd/redigo/redis/conn.go:265-293 | parseInt inverts the decimal text of exactly the int64s, the minimum value included, in wrapping arithmetic. |
| Resp.AccumulateWraps | Godeps/_workspace/src/github.com/garyburd/redigo/redis/conn.go:253-260 | The digit loop, wrapping at each operation, computes the value reduced to int64. |
| Resp.Conn.WriteLen | Godeps/_workspace/src/github.com/garyburd/redigo/redis/conn.go:147-162 | Prefix, digits and CRLF are written; the index never leaves the 32-byte scratch buffer. |
| Resp.Conn.WriteBytes | Godeps/_workspace/src/github.com/garyburd/redigo/redis/conn.go:164-176 | A bulk string is written in its RESP encoding. |
| Resp.Conn.WriteArgs | Godeps/_workspace/src/github.com/garyburd/redigo/redis/conn.go:189-217 | The argument loop writes the encodings of all arguments in order, which `BulksCarry` is about. |
| Resp.Conn.WriteCommand | Godeps/_workspace/src/github.com/garyburd/redigo/redis/conn.go:186-219 | A command is written as the RESP encoding of its array of bulk strings, and what was written is read back as the command and bulk strings that carry its arguments. |
| Resp.LineIff | Godeps/_workspace/src/github.com/garyburd/redigo/redis/conn.go:227-240 | A line is read exactly where the input starts with text without LF and CRLF that together fit the buffer; what is read is that text and what is left is what follows. |
| Resp.Conn.ReadLine | Godeps/_workspace/src/github.com/garyburd/redigo/redis/conn.go:227-240 | From bufio's ReadSlice, written out as its scan for LF: the line `LineIff` characterises, or the error of what is wrong with it, and the text and its CRLF taken off the input. |
| Resp.Conn.ReadReply | Godeps/_workspace/src/github.com/garyburd/redigo/redis/conn.go:300-355 | readReply returns what `Read` says, errors included, and takes exactly that off the input. |
| Resp.ParseLen | Godeps/_workspace/src/github.com/garyburd/redigo/redis/conn.go:242-263 | -1 for "-1", the value of the digits reduced to int64 for digits, and malformed exactly otherwise. |
| Resp.ParseInt | Godeps/_workspace/src/github.com/garyburd/redigo/redis/conn.go:265-293 | The value of the digits reduced to int64, negated after a minus sign, and malformed exactly where there are no digits or anything else. |
| Flags.NormalForm | Godeps/_workspace/src/github.com/ogier/pflag/flag.go:406-484 | For every successful parse, moving all positional arguments behind one `--`, flag tokens and their separate values kept in order, gives the same settings in the same order and the same positional arguments. |
| Flags.FlagTokensParse | Godeps/_workspace/src/github.com/ogier/pflag/flag.go:406-484 | The flag tokens alone, then `--`, then anything: the same settings, and everything behind the `--` positional. |
| Flags.NothingLost | Godeps/_workspace/src/github.com/ogier/pflag/flag.go:406-484 | Flag tokens with their values, positional arguments and terminator are the argument list, as multisets. |
| Flags.ClusterIsExpansionIff | Godeps/_workspace/src/github.com/ogier/pflag/flag.go:450-481 | A cluster parses like its expansion (`-abn5` like `-a -b -n 5`), failures included, if and only if no letter looked up in it is a dash. |
| Flags.ClusterFrame | Godeps/_workspace/src/github.com/ogier/pflag/flag.go:450-481 | What a cluster does depends on nothing after the argument it takes. |
| Flags.SettingsRoundTrip | Godeps/_workspace/src/github.com/ogier/pflag/flag.go:406-484 | Any list of settings of defined flags to values they accept, each printed as `--name=value`, `--name` or `-c` for a boolean, `-c value` or `-cvalue`, with words between them, parses to exactly those settings in order, booleans set to "true", and those words; and so it does before `--` and anything, which is positional. |
| Flags.FirstWordEnds | Godeps/_workspace/src/github.com/ogier/pflag/flag.go:410-415 | Without interspersed arguments the first word ends the flags. |
| Flags.UnknownFails | Godeps/_workspace/src/github.com/ogier/pflag/flag.go:431-439 | An unknown name fails; `help` asks for help. |
| Flags.NoArgumentFails | Godeps/_workspace/src/github.com/ogier/pflag/flag.go:440-443 | A name without its argument fails. |
| Flags.RefusedFails | Godeps/_workspace/src/github.com/ogier/pflag/flag.go:445-448 | A refused value fails, and is the last one set. |
| Flags.BadSyntaxFails | Godeps/_workspace/src/github.com/ogier/pflag/flag.go:425-428 | Three dashes, or an equals sign for a name, fail. |
| Flags.LetterFailures | Godeps/_workspace/src/github.com/ogier/pflag/flag.go:450-481 | The same for letters: unknown, without an argument, or with a refused value. |
| Flags.FailsAfter | Godeps/_workspace/src/github.com/ogier/pflag/flag.go:406-484 | What comes before a wrong token is set first. |
| Flags.FlagSet.ParseArgs | Godeps/_workspace/src/github.com/ogier/pflag/flag.go:406-484 | The loop over the arguments is `Parse`: same result, settings added, positional arguments added; and the flags that count as visited are those set to a value they accept. |
| Flags.FlagSet.Letters | Godeps/_workspace/src/github.com/ogier/pflag/flag.go:450-481 | The loop over one token's letters is `ParseCluster`. |
| Flags.FlagSet.SetFlag | Godeps/_workspace/src/github.com/ogier/pflag/flag.go:393-404 | The value is set, and the flag counts as visited exactly when that succeeds. |
| Template.BraceIndices | Godeps/_workspace/src/github.com/gorilla/mux/regexp.go:180-201 | Fails exactly on unbalanced braces; otherwise returns the marks of the whole template: pieces in order, disjoint, balanced, with nothing but brace-free text outside them. |
| Template.MarksUnique | Godeps/_workspace/src/github.com/gorilla/mux/regexp.go:180-201 | A template has only one list of marks. |
| Template.PieceBalancedInside | Godeps/_workspace/src/github.com/gorilla/mux/regexp.go:180-201 | Inside its braces each piece is balanced. |
| Template.TrimKeepsMarks | Godeps/_workspace/src/github.com/gorilla/mux/regexp.go:45-54 | After the strict-slash trim every index still lies within the template. |
| Template.NameAndPattern | Godeps/_workspace/src/github.com/gorilla/mux/regexp.go:65-72 | A piece is its name, a colon and its pattern, the name up to the first colon; or has no colon, and then it is its name and the pattern is the default. |
| Template.AcceptedIs | Godeps/_workspace/src/github.com/gorilla/mux/regexp.go:65-86 | The same of each variable of a route. |
| Template.MakeVariable | Godeps/_workspace/src/github.com/gorilla/mux/regexp.go:65-86 | The name and pattern of a piece, or which of the two refusals. |
| Template.CutUp | Godeps/_workspace/src/github.com/gorilla/mux/regexp.go:58-100 | The slicing loop: raw texts hold no braces, raw texts and pieces woven together are the template again, raw texts woven with `%s` are the reverse template, and it fails exactly at the first piece with an empty name or pattern or a pattern that does not compile. |
| Template.NewRoute | Godeps/_workspace/src/github.com/gorilla/mux/regexp.go:26-117 | The same for the whole function, with unbalanced braces refused first and the trimmed slash put back. |
| Examples.KeyNames | broker/redis.go:68-82 | The keys of a channel and its wildcard, spelled out. |
| Examples.FieldNames | sse/sse.go:9-12 | The texts of event fields and keep-alive lines, spelled out. |
| Examples.Numbers | sse/sse.go:10 | Decimal numbers, spelled out. |
| Examples.ReplyKinds | Godeps/_workspace/src/github.com/garyburd/redigo/redis/conn.go:308-355 | The first bytes of RESP replies and the size of the read buffer, spelled out. |
| Examples.Patterns | Godeps/_workspace/src/github.com/gorilla/mux/regexp.go:36-43 | The default patterns of route variables, spelled out. |

## Left out

Assumptions of the broker model:

- No key expires and no channel is registered again during a run; EXPIRE and the expiry argument of SETEX are not modelled, and neither is `RenewExpiry`.
- Redis and network errors: every transaction succeeds, and the subscription is in force before the first fetch.
- Channel keys hold no glob metacharacters, so the wildcard matches by prefix.
- One subscriber for each model of Redis: subscribers share nothing but the channels, and each has a queue of its own.
- Buffers have at least one byte for delivery in order, start offsets are not negative, and offset plus length stays below 2^63.
- `Close` called by the user in the middle of a run, and its Unsubscribe.

Of server-sent events and HTTP:

- The parser works on bytes: UTF-8 decoding, the byte order mark and the `retry` field are not modelled.
- The storage fallback, HTTP itself, the plain-text format of the keep-alive reader beyond its packets (its NUL cannot be told from data), and `requestURI`.
- Resume.ResumptionIsExactlyOnce: says nothing of sessions outside its condition, where some connection does not decode what it was sent (`EveryVisitDecodesIff`); `ReadableSessions` covers those in which every frame received was whole.
- Isolation.ChannelIsolation: takes buffers of at least one byte and start offsets that are not negative; `OwnStepsRun` does without.
- The keep-alive reader's buffers of 32K: `Read` is modelled for any `p`, and reports the payload's size even where `p` took less of it.

Of the Redis client:

- Dialling, timeouts, TestOnBorrow's own work and the closing of connections, which happen with the lock released; a test or dial is a step that succeeds or fails.
- Which waiter cond.Signal picks is left open: any one.
- Pooled.CleanWhenReturnedIff: a connection lost while it is borrowed or closed, which is then not kept, and what a server refuses in MONITOR mode are not part of this model.
- Pooled.PooledConnection.Send: what is sent counts as on its way at once; Flush and buffering are not modelled.
- Pipeline.Conn.CloseSubscribed: no reply but that to its ECHO is taken to equal the sentinel, which is 64 random bytes.
- Network errors in the middle of a reply, and `fatal`, which closes the connection.
- Resp.Conn.WriteCommand: floats and the formatting of other argument types depend on Go's library and are not modelled.
- Resp.Conn.ReadReply: the input is all there; a reply that is cut off is an error.

Of the parsers:

- Flags.FlagSet.ParseArgs: `Value.Set` is a fixed predicate on flag name and text, so a Set that depends on earlier ones is not modelled; the text of error messages and `usage` are left out.
- Defining flags (`VarP`), which only fills the two maps, and the value types.
- Template.NewRoute: compiling is the predicate `compiles` on one variable's pattern; the regular expression of the whole template, QuoteMeta and Sprintf's treatment of a percent sign in the reverse template are not modelled.
- Matching routes, building URLs and `setMatch`, which rest on Go's regular expressions.

Not modelled at all: `storage`, `busltee`, authentication, logging, metrics, configuration, request ids, `scan.go`, `testify`, `rollbar`, `gorilla/context`.
