# mailcow dockerapi: verified models

A Dafny model of the parts of the mailcow `dockerapi` service whose behaviour is hard to see
from any single function, with proofs about every input, every run and every interleaving.
`dafny verify dfyconfig.toml` checks all of it.

What is modelled, by file:

* **Statistics collector** (`CollectorModel`, `CollectorSafety`, `CollectorBuffers`,
  `CollectorOutcomes`, `CollectorOrigins`, `CollectorTimeouts`, `Collector`). Requests share one collection goroutine per key, which
  measures, closes `done`, waits, measures again and removes itself. The collector is a step
  system: every lock section, store call, assignment to `err`, close and timer is one atomic
  step, a run is any sequence of steps of any number of requests and goroutines, and time
  passes, entries expire, store calls fail and foreign writes happen anywhere. Proved for all
  runs: single flight, the protocol of `done` and `err`, the ring buffer as a refinement of
  the list of stored samples, the meaning of every outcome of a request, the rate of
  collections, and that neither a goroutine nor a request gets stuck. `Collector` gives the
  same sections as methods that update objects in place and ties them to the step system.
* **Shell quoting and the scripts** (`Shell`, `Scripts`, `Rspamd`). The specification is a
  lexer after POSIX.1-2017, Shell Command Language, sections 2.2.1 (Escape Character), 2.2.2
  (Single-Quotes), 2.2.3 (Double-Quotes), 2.3 (Token Recognition) and 2.10.1 (for a number
  before a redirection). For all values without a NUL character each script lexes to one fixed
  list of words and operators in which the request's values stand literally. Text with a NUL is
  refused by the lexer: an argument of `bash -c` cannot carry one.
* **Attach stream and timed reader** (`Streams`, `Reader`). The frames of the Docker Engine
  API's container attach operation, both demultiplexers, and the deadline loop in front.
* **Peer resolver and error log** (`Peers`, `PeerRuns`, `ErrorLog`). The cache against the
  resolver without a cache, the number of container listings, and what a logged handshake
  line says about its connection.
* **Two loops over command output** (`Rspamd`, `Doveadm`). The write-verify-restart loop and
  the ACL aggregation.

`Text`, `Rates`, `Sequences` and `Options` hold what these share.

## Where code and comments part

`internal/peers/errorlog.go:92-108` promises to split a printed handshake error into address
and reason. `cutHandshake` does so for every address without `": "` (`ErrorLog.CutRecovers`).
`Write` however trims the line first (`errorlog.go:47`), and when the reason is empty or all
white space the separator loses its blank: the colon then stays on the address, the lookup
sees a text such as `192.0.2.1:443:` and finds no peer, and the record carries that text alone
(`ErrorLog.ConnectionIsLost`). `ErrorLog.EmptyReasonLost` gives such a line,
`ErrorLog.RecoveryIff` the exact condition for the split and `ErrorLog.ConnectionIsNamedIff`
for the record: the reason is more than white space.

The comment at `internal/dockerclient/moby.go:271-273` says that reading ends when nothing has
arrived for one idle span, "or until twice that span has passed in total". The code starts the
window anew with every payload (line 298), so there is no bound in total: `Reader.NoTotalBound`
gives a peer that keeps it reading for any number of steps. The exact condition is about when
payload arrives. With reads that return by their deadline and deliver something or fail, reading
is over within twice the span from the start

* if no payload arrives later than one span after the start, however the connection ends
  (`Reader.TotalBound`);
* if and only if that is so, when the peer stays open, so that the last read runs out its
  deadline (`Reader.TotalBoundIff`);
* and, for given traffic, for every way the peer may fall silent after it if and only if that
  is so (`Reader.TotalBoundOfTraffic`).

Counted from the last payload there always is a bound for punctual reads: two idle spans
(`Reader.IdleBound`), or one when a `Read` delivers something or fails
(`Reader.SingleIdleBound`).

The comment at `internal/stats/collector.go:31` says that `ErrTimeout` reports that no
measurement arrived within the deadline, and the one at line 113 that a call returns the cached
value or waits. A request can however get `ErrTimeout` with a measurement there and without
waiting at all: `CollectorTimeouts.PromptTimeoutHappens` gives a run, for any timeout, in which
the host's second measurement is slow and the stored figures expire meanwhile. The exact
condition for a new request that no one disturbs is `CollectorTimeouts.PromptTimeoutIff`: the
collection it joins has already closed `done` after storing its first measurement, and what was
stored has lapsed. In any run, an answer given after a second Get that found nothing is
`ErrTimeout` if and only if the first measurement of the joined collection was stored
(`CollectorTimeouts.JudgedTimeoutIff`).

## Assumptions

* Collector: the store keeps the promise of its interface, and a `Set` that reports an error
  has changed nothing; what others write to the collector's keys does not decode; decoding
  inverts encoding; no container is called `host`; for the rate bound, the interval is
  positive. A value that cannot be encoded is a failed `Set`. The clock never goes back.
* Timed reader: a `Read` that delivers nothing and reports no error takes time, and the peer
  sends finitely many payloads. Only the time bounds assume that each `Read` returns by its
  deadline, and some of them that it delivers something or fails.
* Peer resolver: lookups run one after another on a clock that does not go back. Only the
  agreement with the resolver without a cache assumes that a resolve and its stores happen at
  one instant.
* Container, Docker, DNS and Redis answers, `net.ParseIP` and the Unicode letter and number
  classes are parameters; nothing is assumed of them beyond what a member's `requires` says.

## Model

| member | source | states |
|---|---|---|
| CollectorSafety.KeysApart | internal/stats/collector.go:101-106 | two subjects share a store key only if a container is called "host" |
| CollectorSafety.StepKeepsLocal | internal/stats/collector.go:173-198 | no step of a goroutine breaks the protocol of its record: two rounds, one close between them, err written at most once and before the close, no second round and no removal before the interval is over |
| CollectorSafety.AnnouncedIsFinal | internal/stats/collector.go:183-193 | after the close, none of the goroutine's own steps, the second measurement included, changes done, err or what became of the first measurement |
| CollectorSafety.RemovesOwnEntry | internal/stats/collector.go:195-197 | the entry a goroutine deletes is its own, and no other entry goes |
| CollectorSafety.JoinKeeps | internal/stats/collector.go:162-171 | startRefresh keeps all invariants and hands out a refresh of the requested subject, running or new |
| CollectorSafety.NextKeepsSafe | internal/stats/collector.go:114-201 | every step of every participant keeps single flight, the protocol, and the spacing of starts |
| CollectorSafety.Reachable | internal/stats/collector.go:114-201 | so every state of every run has them |
| CollectorSafety.SingleFlight | internal/stats/collector.go:162-201 | in every reachable state, two goroutines of one key that have not deleted their entry are the same one, and inflight holds exactly it |
| CollectorSafety.AnnouncedForever | internal/stats/collector.go:57-63 | once done is closed, no later part of the run reopens it or changes err |
| CollectorSafety.WaitersReadTheCause | internal/stats/collector.go:149-155 | every read of err comes after exactly one close; all readers of one refresh, at any two points of a run, read the same: the cause of the first measurement's failure, or none |
| CollectorSafety.CollectionRate | internal/stats/collector.go:173-198 | by time T a key has seen at most T/interval + 1 starts and twice as many measurements, however many requests arrive |
| CollectorSafety.StepsDecrease | internal/stats/collector.go:173-198 | each of its own steps brings a goroutine closer to its end |
| CollectorSafety.NeverStuck | internal/stats/collector.go:185-197 | until it has removed its entry a goroutine always has a next step, at the latest when the interval has passed |
| CollectorBuffers.LoadedIsNext | internal/stats/collector.go:225-231 | what is about to be stored ends with the new sample and continues the most recent samples, also after a failed Get or unreadable content |
| CollectorBuffers.NextKeepsBuffers | internal/stats/collector.go:219-256 | every step of every participant keeps: a readable entry is the most recent of the samples stored, a buffer in flight fits on top of them |
| CollectorBuffers.HistoryIsStored | internal/stats/collector.go:220-238 | the samples stored for a key, counted along the run: one per successful Set, namely what that goroutine had measured last |
| CollectorBuffers.RingBuffer | internal/stats/collector.go:218-239 | in every interleaving a readable entry is a contiguous suffix of the samples successfully stored for its key, of length 1 to MaxSamples |
| CollectorBuffers.TrimAppend | internal/stats/collector.go:227-231 | appending to a trimmed buffer and trimming again keeps the last MaxSamples of all samples |
| CollectorBuffers.FullBuffer | internal/stats/collector.go:218-256 | as long as every Load finds what was stored, the entry is exactly the last MaxSamples samples stored |
| CollectorOutcomes.ReturnedValueWasSeen | internal/stats/collector.go:119-147 | a returned value was in the store, unexpired, at a Get of this very request; what it is and where it came from say the rows on CollectorOrigins |
| CollectorOutcomes.ReturnedBufferIsRecent | internal/stats/collector.go:104-147 | a readable answer about a container is 1 to MaxSamples of the most recent samples stored by then |
| CollectorOutcomes.ReturnedErrorIsTheCause | internal/stats/collector.go:141-153 | a returned collection error is why the first measurement of the refresh the request had joined failed, and the key was absent at its second Get |
| CollectorOutcomes.TimeoutIsJustified | internal/stats/collector.go:130-155 | ErrTimeout means the request's timer ran for the whole timeout, or the joined refresh's first measurement was stored and by the second Get had outlived its expiry or been replaced by a foreign write |
| CollectorOutcomes.OtherErrors | internal/stats/collector.go:133-144 | a store error comes from a failed second Get, a context error from a context that ended during the wait |
| CollectorOutcomes.NextKeepsCovered | internal/stats/collector.go:203-239 | a stored first measurement stays covered by an entry that lives at least as long, or by a foreign write |
| CollectorOutcomes.RequestsAdvance | internal/stats/collector.go:119-155 | whatever anyone does, a request only comes closer to its answer |
| CollectorOutcomes.RequestsNeverStick | internal/stats/collector.go:119-155 | a request can always be brought closer to its answer, at the latest when its timer expires, whatever the collection does |
| CollectorOrigins.Spelled | internal/stats/collector.go:17-29 | the keys, expiries, buffer length, default interval and effective timeout as the consumers and callers rely on them, in literal text and nanoseconds |
| CollectorOrigins.EntryWasMeasured | internal/stats/collector.go:203-239 | every readable entry is what a goroutine of the subject had measured last, stored by the last write of the key, with 10 or 60 seconds to live from then |
| CollectorOrigins.ReturnedValueWasMeasured | internal/stats/collector.go:119-147 | so a readable answer, about the host or a container, is what such a goroutine had measured, from the last write before the Get, and younger than its lifetime |
| CollectorOrigins.FirstHappened | internal/stats/collector.go:178-181 | what a refresh records of its first measurement is true: stored by a successful Set at that instant, or failed with that very error in measuring or storing |
| CollectorOrigins.ReturnedErrorHappened | internal/stats/collector.go:149-153 | a returned collection error is the one with which the joined goroutine failed in its first round |
| CollectorOrigins.SecondRoundSpaced | internal/stats/collector.go:183-189 | the second measurement begins at least the interval after the close |
| CollectorOrigins.SecondRoundSkipped | internal/stats/collector.go:174-193 | only a context that has lasted the interval and a minute keeps a goroutine from it |
| CollectorOrigins.CancelEndsWait | internal/stats/collector.go:133-136 | a context that ends answers a waiting request, and no other |
| CollectorOrigins.FailedGetEndsRequest | internal/stats/collector.go:141-144 | a failing second Get answers with the error of the store |
| CollectorTimeouts.JudgedTimeoutIff | internal/stats/collector.go:149-155 | in any run, a request past an empty second Get gets ErrTimeout if and only if the first measurement of the refresh it joined was stored |
| CollectorTimeouts.PromptTimeoutIff | internal/stats/collector.go:114-155 | from any safe state, reachable ones included, a new request left undisturbed gets ErrTimeout at the very instant it arrives if and only if the collection it joins has announced a stored measurement and what was stored has lapsed |
| CollectorTimeouts.PromptTimeoutHappens | internal/stats/collector.go:114-155 | and a run leads there for every timeout and every interval: the second measurement takes until the first one has expired |
| Collectors.Collector.constructor | internal/stats/collector.go:77-97 | a new collector is the initial state; an interval of 0 becomes five seconds |
| Collectors.Collector.FirstLook | internal/stats/collector.go:119-121 | the first Get answers or leads on to joining, as one step of the system |
| Collectors.Collector.StartRefresh | internal/stats/collector.go:162-171 | under the lock the running cell is returned and nothing changes, or a fresh cell is entered under the key and under no other |
| Collectors.Collector.TryReceive | internal/stats/collector.go:133-134 | the wait ends exactly when the cell's channel is closed |
| Collectors.Collector.SecondLook | internal/stats/collector.go:141-147 | the second Get answers with the store's error or a value, or leaves the judgement open |
| Collectors.Collector.Judged | internal/stats/collector.go:149-155 | err is read from a closed cell only, and decides between the cause and ErrTimeout |
| Collectors.Collector.LoadSamples | internal/stats/collector.go:243-256 | a failed Get, a missing entry and unreadable content all load as no samples |
| Collectors.Collector.LoadAndAppend | internal/stats/collector.go:227-231 | load, append and trim leave the goroutine about to store exactly these samples |
| Collectors.Collector.StoreRaw | internal/stats/collector.go:238 | a Set that succeeds replaces the entry with its expiry, one that fails changes nothing |
| Collectors.Collector.ReportFirst | internal/stats/collector.go:178-181 | err is written before the close, to the goroutine's own cell, and only after a failure |
| Collectors.Collector.CloseDone | internal/stats/collector.go:183 | the channel is still open when it is closed, so the close cannot panic |
| Collectors.Collector.RemoveEntry | internal/stats/collector.go:195-197 | inflight loses this key, which held this goroutine's cell, and no other |
| Collectors.Cache.Get | internal/store/store.go:21-22 | an unexpired value is returned, a missing or expired one is no error |
| Collectors.Cache.Set | internal/store/store.go:23-24 | the value replaces what was there and expires after the given span |
| Shell.RunQuoted | internal/actions/shell.go:5-17 | from any unquoted position the quoted text adds exactly the content to the word in progress and ends unquoted |
| Shell.QuoteInContext | internal/actions/shell.go:5-17 | the same between any text that ends unquoted and any text at all |
| Shell.QuotedIsOneWord | internal/actions/shell.go:5-17 | on its own it is one word with that content, for NUL-free content; with a NUL nothing results |
| Shell.ShellQuoteInjective | internal/actions/shell.go:15-17 | different contents never quote alike |
| Scripts.SanitizeFilters | internal/actions/maildir.go:14-23 | wherever a character stands, it is kept if it is a letter, a number or an underscore and dropped otherwise |
| Scripts.IndexNameMeaning | internal/actions/maildir.go:25-34 | domain/user becomes user@domain whatever follows a second slash; without a slash there is no index |
| Scripts.GarbageIsOneComponent | internal/actions/maildir.go:51-55 | the target stays directly below the garbage directory whatever the mailbox is called |
| Scripts.FormatIntReads | internal/actions/maildir.go:53 | the timestamp is decimal and reads back as the number, with a sign only if negative |
| Scripts.CleanupSpelled | internal/actions/maildir.go:51-63 | what is moved where in literal text: the mailbox and its index below the garbage directory, under the timestamp and the cleaned name |
| Scripts.RunMove | internal/actions/maildir.go:119-124 | at the start of a command the move lexes to its fixed words, with both paths as whole words |
| Scripts.TokensOfTwoMoves | internal/actions/maildir.go:57-64 | two moves joined by && lex to the two commands and one operator |
| Scripts.MaildirCleanupScript | internal/actions/maildir.go:51-64 | the script lexes to the intended moves with the intended paths exactly for a NUL-free name, and to nothing otherwise |
| Scripts.MaildirMoveScript | internal/actions/maildir.go:94-106 | likewise for both names; the index moves only if both names have one, to a name with the _index suffix |
| Scripts.SameShape | internal/actions/maildir.go:119-124 | no path changes the number of words, the operators or the fixed words |
| Scripts.DFScriptTokens | internal/actions/system.go:66-69 | the df pipeline lexes to fixed words and operators with the directory as one word, exactly for a NUL-free directory |
| Scripts.TzinfoScriptTokens | internal/actions/system.go:140-143 | likewise the tzinfo pipeline, with the password attached to -p within one word |
| Rspamd.GenerateCommandTokens | internal/actions/rspamd.go:42 | for a NUL-free password, the password is one word and only stderr is redirected; that text with a NUL gets no tokens is the lexer's convention, since a shell's standard input can carry one |
| Rspamd.WriteCommandTokens | internal/actions/rspamd.go:85-86 | for any output line, echo's argument is the literal configuration line and the redirection and cat are untouched by the hash |
| Rspamd.SanitizeKeepsPrefix | internal/actions/rspamd.go:80-83 | cleaning keeps the $2$ prefix, so the test after it never fails |
| Rspamd.SanitizeFilters | internal/actions/rspamd.go:19-20 | wherever a character stands, it is kept if it is a letter, a digit or a dollar sign and dropped otherwise |
| Rspamd.HashOfLine | internal/actions/rspamd.go:68-80 | the hash is the text of the line from its first $2$ on, without white space at the end, cleaned character by character |
| Rspamd.PrintedHash | internal/actions/rspamd.go:68-80 | a hash printed on a line of its own is taken exactly as it is, for every body of letters, digits and dollar signs |
| Rspamd.NoHashOnLine | internal/actions/rspamd.go:69-78 | a line without the prefix, or with nothing behind it, carries no hash |
| Rspamd.HashOf | internal/actions/rspamd.go:80-83 | whatever the line, what is taken from it starts with $2$ and holds hash characters only; which hash it is the rows above say |
| Rspamd.ExtractHash | internal/actions/rspamd.go:69-83 | the guards of the loop pass exactly the lines that carry a hash and give that hash |
| Rspamd.WriteAndRestart | internal/actions/rspamd.go:85-106 | one write, then a restart if and only if the file read back holds the hash |
| Rspamd.ApplyHash | internal/actions/rspamd.go:65-110 | over any output the effects are those of its hashes in order, and the result is true exactly when some restart succeeded |
| Rspamd.TraceShape | internal/actions/rspamd.go:96-106 | every restart directly follows a confirmed write of a clean hash, and every confirmed write is directly followed by a restart |
| Rspamd.EveryHashWritten | internal/actions/rspamd.go:68-94 | the hashes written are exactly the hashes found, each once and in line order, whatever became of the writes before |
| Rspamd.MatchedMeans | internal/actions/rspamd.go:62-110 | the result is true exactly when some write, its readback and the restart directly after it all succeeded |
| Doveadm.SplitFirstFieldMeaning | internal/actions/doveadm.go:182-195 | leading white space is skipped, a run of white space is one separator, and without a separator there is no field |
| Doveadm.ParseLineMeaning | internal/actions/doveadm.go:165-177 | a line key=user and rights gives that user, further equals signs included, with the fields behind it as rights |
| Doveadm.ParseLineRights | internal/actions/doveadm.go:165-177 | with the rights written out: words with white space between them become exactly these rights, in order |
| Doveadm.ParseLineNothing | internal/actions/doveadm.go:165-174 | a first field without an equals sign, or with nothing behind it, gives no entry |
| Doveadm.ParseLinesConcat | internal/actions/doveadm.go:164-179 | lines are parsed one by one in order, an unusable one takes nothing else with it |
| Doveadm.EntriesSkipHeader | internal/actions/doveadm.go:159-165 | exactly the first line of an answer is dropped as the header, and an answer of one line has no entries |
| Doveadm.SharedFolderMeaning | internal/actions/doveadm.go:110-116 | a shared line root/owner/path is about that owner's mailbox path, slashes in it included, and a line without a path about none |
| Doveadm.OwnLineElements | internal/actions/doveadm.go:64-66 | an own line asks for the mailbox of its name and gives one element per entry, with the user, the id of the entry, the mailbox and the rights each in its place |
| Doveadm.SharedLineElement | internal/actions/doveadm.go:115-135 | a shared line asks for the mailbox of its owner and gives at most one element, with the owner, the user as id, the path and the rights of the first entry naming the user |
| Doveadm.AclEntries | internal/actions/doveadm.go:146-180 | the entries of an answer: the header is skipped, unusable lines are dropped, a failed command has none |
| Doveadm.AppendOwnACLs | internal/actions/doveadm.go:78-100 | an own mailbox not yet answered adds all its entries, and is marked answered exactly if it has any |
| Doveadm.AppendSharedACLs | internal/actions/doveadm.go:103-138 | a shared folder with owner and path adds the first entry naming the requested user, and is marked answered exactly if there is one |
| Doveadm.GetACL | internal/actions/doveadm.go:52-74 | the response is the declarative one: the contributions of the folder lines in listing order |
| Doveadm.MailboxAnsweredOnce | internal/actions/doveadm.go:85-87 | no two lines answer for the same mailbox name, own or shared |
| Doveadm.FirstAnswerWins | internal/actions/doveadm.go:59-72 | a mailbox that some line can answer is answered, by the first line that can, with all that line yields |
| Doveadm.ResponseIsContributions | internal/actions/doveadm.go:59-74 | an element is in the response exactly if some line contributes it |
| Streams.Demux | internal/dockerclient/demux.go:22-53 | for arbitrary bytes, stdout and stderr are the payloads of the recognisable frames, split by stream |
| Streams.DemuxCombined | internal/dockerclient/demux.go:58-78 | for arbitrary bytes, the output is all those payloads in order |
| Streams.WholeFrame | internal/dockerclient/demux.go:16-49 | in literal bytes: stream 2 is stderr, 0 and 1 are stdout, the length is big-endian, and reading goes on behind the payload |
| Streams.ClippedAtEnd | internal/dockerclient/demux.go:34-37 | a frame that announces more than there is gives all there is |
| Streams.NoFrame | internal/dockerclient/demux.go:23-28 | fewer than eight bytes or an unknown stream give nothing |
| Streams.DecodeEncode | internal/dockerclient/demux.go:14-33 | reading undoes sending for every list of frames, whatever bytes follow |
| Streams.FrameRoundTrip | internal/dockerclient/demux.go:14-50 | every output of sent frames is their payloads on that output, and reading distributes over a frame boundary |
| Streams.CutOffIndependence | internal/dockerclient/demux.go:19-50 | cutting a stream anywhere cuts each output to a prefix and changes nothing before |
| Streams.ClippedFrame | internal/dockerclient/demux.go:30-37 | a cut leaves the leading frame whole or clips its payload and leaves nothing behind it |
| Streams.DemultiplexersAgree | internal/dockerclient/demux.go:22-78 | on arbitrary bytes the combined output is an order-preserving merge of the two split ones, with no byte lost or doubled |
| Reader.ReadUntilIdle | internal/dockerclient/moby.go:271-306 | it ends, for finitely many payloads, with every chunk in order including one that came with an error, at the first turn that gives a reason to end |
| Reader.CollectStdout | internal/dockerclient/moby.go:235-268 | the result is the decoded stdout of exactly what was read; a timeout of 0 means two seconds |
| Reader.TimeoutSpelled | internal/dockerclient/moby.go:235-238 | a timeout of zero means two seconds, any other itself |
| Reader.EndIsUnique | internal/dockerclient/moby.go:281-305 | the peer's behaviour determines after how many reads the loop ends |
| Reader.IdleBound | internal/dockerclient/moby.go:271-298 | with reads that return by their deadline, it is over at most 2 * idle after the last payload or the start |
| Reader.SingleIdleBound | internal/dockerclient/moby.go:271-305 | and at most 1 * idle after it when each read delivers something or fails |
| Reader.TotalBound | internal/dockerclient/moby.go:271-305 | reading is over within 2 * idle of the start if no payload arrives later than idle after the start, however the connection ends |
| Reader.TotalBoundIff | internal/dockerclient/moby.go:271-305 | when the last read runs out its deadline, it is over within 2 * idle of the start if and only if no payload arrives later than idle after the start |
| Reader.TotalBoundOfTraffic | internal/dockerclient/moby.go:271-305 | for given traffic, it is over within 2 * idle of the start for every way the peer can fall silent, if and only if the payload ended by idle after the start |
| Reader.NoTotalBound | internal/dockerclient/moby.go:271-298 | there is no bound in total: a peer that sends well within each deadline and that the loop must cope with keeps it reading for n steps, any n |
| Reader.StoppedAnywhere | internal/dockerclient/moby.go:265-306 | whatever the chunking and the end point, the result is a prefix of the stdout of the whole stream |
| Reader.ChunkingIndependence | internal/dockerclient/moby.go:265-306 | two deliveries of one stream, chunked and timed differently, give results of which one is a prefix of the other |
| Peers.SplitJoinHostPort | internal/peers/peers.go:287-302 | what net/http prints for a connection is split back into host and port, IPv6 included |
| Peers.SplitHostPortIff | internal/peers/peers.go:293-296 | exactly host:port without further colons and [host]:port split, with brackets nowhere else; any other text is taken as a bare address |
| Peers.SplitAddrPrinted | internal/peers/peers.go:287-302 | of a printed address, with or without white space around it, host and port come back if the host is an IP address, and nothing otherwise |
| Peers.SplitAddrBare | internal/peers/peers.go:284-302 | a text without a port is kept as a bare address if it is an IP address, IPv6 included |
| Peers.SplitAddrInverse | internal/peers/peers.go:287-302 | when a host comes back, the trimmed text was that host alone, or host and port in one of the two spellings |
| Peers.SplitAddr | internal/peers/peers.go:297-301 | a host that comes back always parses as an IP address, and without a host there is no port; which host and port come back is stated by the three rows above |
| Peers.Resolver.constructor | internal/peers/peers.go:132-145 | a lifetime of zero or less becomes thirty seconds and the cache starts empty |
| Peers.Resolver.Cached | internal/peers/peers.go:190-200 | an entry is used exactly while it is younger than the lifetime |
| Peers.Resolver.FromDocker | internal/peers/peers.go:234-257 | the three loops give the mapping in which the last mention of an address counts; what it says of an address is Peers.ListedPeer |
| Peers.ListedPeer | internal/peers/peers.go:241-257 | an address in the listing belongs to the container and network of its last mention, with the first name without its slash and the service of the compose label |
| Peers.UnlistedPeer | internal/peers/peers.go:260-273 | any other address has the first DNS name without its final dot, or nothing but itself without a name or with an error |
| Peers.Resolver.StoreListing | internal/peers/peers.go:219-223 | in whatever order, the whole listing is stored and nothing else changes |
| Peers.Resolver.Resolve | internal/peers/peers.go:211-231 | the answer is the listing's or else that of DNS, the listing is stored, and the containers are listed at most once |
| Peers.Resolver.Lookup | internal/peers/peers.go:170-187 | answer, new cache and listings made, for a hit, a miss and a text that names no address |
| PeerRuns.EntryOrigin | internal/peers/peers.go:170-223 | an entry after a call was there before, or is this call's own answer, or comes from its listing |
| PeerRuns.EntriesAgree | internal/peers/peers.go:176-223 | in any run every entry is what the resolver without a cache would have answered for that address at the entry's instant, also when stored for another address |
| PeerRuns.AnswersAreRecent | internal/peers/peers.go:170-200 | every answer is that of the resolver without a cache at an instant within the lifetime, with this connection's port |
| PeerRuns.AnswerNamesContainer | internal/peers/peers.go:163-187 | so an answer names the container, network and service of the listing at an instant within the lifetime |
| PeerRuns.CacheIsTransparent | internal/peers/peers.go:170-200 | while the sources have not changed their answer for a lifetime, the cache makes no difference |
| PeerRuns.SourcesIdentify | internal/peers/peers.go:241-273 | both sources answer with the address asked for, no port, and never a DNS name together with container data |
| PeerRuns.CachedIdentity | internal/peers/peers.go:182-208 | so in any run does every cached entry, for the address it is stored under |
| PeerRuns.AnswerIdentity | internal/peers/peers.go:163-187 | every lookup answers with the address and port of this connection, or with nothing at all |
| PeerRuns.ListingGap | internal/peers/peers.go:176-223 | two listings made for addresses that each such listing covers are at least a lifetime apart |
| PeerRuns.ListingBound | internal/peers/peers.go:35-39 | over a span T such addresses together cost at most T/ttl + 1 listings |
| PeerRuns.TotalListingBound | internal/peers/peers.go:123-125 | whatever the sources do, k addresses over a span T cost at most k * (T/ttl + 1) listings |
| ErrorLog.CutRecovers | internal/peers/errorlog.go:92-108 | address and reason come back from any printed line whose address has no ": " |
| ErrorLog.CutAnywhere | internal/peers/errorlog.go:94-108 | text before the first prefix is dropped, a line without the separator is all address, and a line without the prefix is no handshake |
| ErrorLog.PrintedLine | internal/peers/errorlog.go:14 | the same for the line as net/http prints it, in literal text |
| ErrorLog.WrittenLineRecovers | internal/peers/errorlog.go:46-108 | what they come back as after Write has trimmed the line, for every reason |
| ErrorLog.RecoveryIff | internal/peers/errorlog.go:46-108 | after trimming they are recovered if and only if the reason is more than white space |
| ErrorLog.EmptyReasonLost | internal/peers/errorlog.go:46-108 | a line for which they are not |
| ErrorLog.ErrorWriter.Write | internal/peers/errorlog.go:46-49 | an empty line logs nothing, a foreign line is kept as it is, a handshake line becomes one record about the peer looked up |
| ErrorLog.ErrorWriter.Report | internal/peers/errorlog.go:52-90 | the same for a line already trimmed; probes are debug, everything else is a warning |
| ErrorLog.ProbeSpelled | internal/peers/errorlog.go:115-123 | a handshake counts as a probe exactly for EOF and for reasons that end as the two lost-connection errors do |
| ErrorLog.RecordSpelled | internal/peers/errorlog.go:71-89 | exactly what a record holds: level, message, the reason, each part of the peer that has a value under its own key, and the raw text if there is no peer |
| ErrorLog.RecordsNamePeers | internal/peers/errorlog.go:69-77 | in any run of lookups a record carries the reason and the address and port of its connection, or the raw text |
| ErrorLog.PrintedAddress | internal/peers/errorlog.go:100-102 | a printed address splits back into its parts and has no ": " in it |
| ErrorLog.ConnectionIsNamed | internal/peers/errorlog.go:46-90 | from the printed line to the record, for a reason that is more than white space: a failed handshake is logged with the ip, port and reason of that connection; the other reasons are the next row |
| ErrorLog.ConnectionIsLost | internal/peers/errorlog.go:46-90 | for a blank reason the text looked up ends in a colon, no peer is found, and the record has that text as peer_addr and nothing else of the connection |
| ErrorLog.ConnectionIsNamedIff | internal/peers/errorlog.go:46-90 | so the record names ip and port if and only if the reason is more than white space |

## Left out

- HTTP routing, responses, the TLS server, configuration, metrics, logging set-up and certificate generation: plumbing and library calls.
- The thin actions (mailq, reload, sieve, sogo, lifecycle), the name registry, request checks and container selection: each is settled by reading one branch.
- bashCommand: it only places the script as the third element of an argument list.
- Shell semantics after tokens: parsing, expansion, here-documents, redirection and what the commands do. The lexer gives no meaning to text in which a dollar sign or a backquote starts an expansion outside single quotes; none of the scripts has one. Pathname expansion is left out too: the df pipeline's unquoted `[:blank:]` is one word here, whatever files are called.
- Go byte strings: text is modelled as Unicode code points, so what the string functions do with invalid UTF-8 is not part of the model.
- What is done with a script's result: exit codes, the df fallback, the messages of an action.
- JSON encoding: an abstract codec. A foreign write that happens to decode as a list of samples is excluded.
- Collector: log lines, the fields of the host's figures, and the error text that wraps a cause. A request's context is seen only while it waits.
- Collectors.Collector.StartRefresh: the goroutine is not run to its end inside this method; its sections are methods of their own, so that others can act in between.
- Reader.ReadUntilIdle: the 8192-byte buffer only bounds the length of a chunk, which is arbitrary here. Creating the exec, attaching and writing the command come before the modelled part of ExecInteractive.
- Peers.Resolver.Lookup: concurrent lookups are not modelled; nor is the time limit of a lookup, which shows only as a failing source. The stores of one listing share one clock reading.
- PeerRuns.EntriesAgree: with resolves that take time an entry's stamp is later than its answer, so it is stated for instantaneous resolves.
