# A verified model of swayclip

swayclip is a clipboard history daemon for Wayland (`daemon/`), the library it shares with its
command line client (`common/`), and that client (`cli/`). This project models the parts of it
that carry invariants, in Dafny, and proves them. `dafny verify dfyconfig.toml` checks everything.

The source changes state step by step, so most of the model does too: the database, the daemon, an
IPC connection, the hash context, the string scanner, the parser, a selection, a seat and a paste
are classes whose methods follow the source's control flow, loops included. Each method is tied by
its contract to a function on values, and the theorems about whole runs are lemmas about those
functions.

## What is modelled

**The history store** (`Tables`, `Store`, `History`, `Daemon`, `Replica`, `Marks`, `Requests`, `Contents`,
`Hashing`, `Recency`, `Trimming`, `MoveToFront`, `FreshCopies`, `Scenarios`, `EmptiedTransient`, `Kinds`).
Three tables with their constraints; one method per SQL statement, the cascade and the triggers included;
the selection handler with its speculative transaction, deduplication, move and trim; the set, delete and
pin requests; the events announced. Proved: a client that replays the announced events holds the history
list, knows what is pinned, and marks just the current entry exactly as long as no offer blurs the marks;
the shared blob table answers lookups like a plain map from entry and mime type to received bytes; entry
hashes are equal exactly for equal names and data among offers of one shape; so new data always adds a row
at the front, in every run and mode, and with deduplication "all" from an empty history every copy acts on
a move-to-front list of pairwise distinct contents, the trim included; exactly when a trim keeps the
foremost entries; the current entry stays live as long as nothing is unpinned, and exactly when it does
not. Where a property fails, `Scenarios` and `EmptiedTransient` have runs from the empty history that show it.

**The IPC channel** (`Framing`, `Channel`, `Progress`, `IpcCt`) and **its daemon side** (`Hold`, `Subscriber`).
Frames, the write queue with partial sends, the reader with partial headers and bodies, descriptors
that ride on the first byte of a frame; hold batches and events that wait for the responses of a
batch. Proved: a round trip for every schedule, and progress, so that from wherever a connection is, sends and
receives that take something bring every message through; requests run once each, in arrival order, in exactly
the groups the holds ask for; with daemon and connection as one system, the events a subscriber gets
are the daemon's log, so its copy of the history is right.

**SHA-256** (`Fips180`, `Fips180Constants`, `Sha256`, `Sha256Macros`, `Sha256Context`). The streaming context, with the
shift, mask and or macros of the C code, is proved to compute the digest of sections 5 and 6.2 of
FIPS 180-4 for every way of cutting a message into chunks. The constants are proved to be the roots they are
defined as.

**The TOML engine** (`Utf8`, `TomlStrings`, `TomlGrammar`, `TomlScanner`, `TomlNormalise`,
`TomlBasicString`, `TomlTree`, `TomlMerge`, `TomlParser`, `TomlTokens`, `TomlDepth`, `TomlSyntax`,
`TomlDocuments`, `TomlPrinting`). Basic strings as sequences of items with a spelling and a meaning: the
scanner accepts just the texts of a grammar, and unescaping in place yields their meaning. Equivalence,
copying and merging of parsed trees. The recursive parser: that it ends, what it does as functions, how deep
it gets, and that what it accepts is a grammar of values, inline arrays, inline tables and lines, exactly;
so every tree of arrays and tables, written out, is accepted.

**The Wayland client** (`Ownership`, `Takeover`, `Filter`, `Toplevels`). Offers, sources and timers over every
event sequence; that an emptied selection is taken over; the mime type filter as a rule; the active toplevel.

**Data in and out** (`Transfer`, `CopyPaste`, `Listing`). Receiving with a size limit and an
incremental digest; pasting under any schedule of partial writes; from copying to pasting, across the store
and for transient data; escaping and paging in the list command.

## Where the code and its documentation differ

- `docs/swayclip.5.scd:45-48` says trimming deletes the oldest items. The code orders by id
  (`daemon/database.c:110-114`), so an entry that was moved to the front keeps the trim rank of its
  first insertion. A trim keeps the foremost entries if and only if the newest unpinned rows are the
  foremost ones (`Trimming.SurvivorsArePrefix`), as they are while no entry has been moved; copying A,
  B, A and C with room for two removes A, the second, and keeps B, the third
  (`Scenarios.MovedIsTrimmedFirst`).
- Every `[table]` header leaves the bracket counter one too low, because a bracket that is looked at
  and put back has been counted (`common/tomlc17/tomlc17.c:2906-2911`). The nesting limit of 30 holds
  exactly while no header has been read: behind h headers arrays nest 30 + h deep, and no deeper
  (`TomlDepth.DocumentStays`, `TomlDepth.DepthAttained`).
- An interrupted read while nothing has arrived yet ends a receive with "data too large", because -1 is
  added to the length before it is looked at (`common/io.c:97-109`); `Transfer.InterruptionsNeedData`.
- `docs/swctl.1.scd:121-124` says `entry_state` is emitted when an entry is set or unset as the current one. An
  offer that is transient or fails takes the current entry's place without any event (`daemon/main.c:263-266`,
  `daemon/main.c:503-504`), so a subscriber goes on marking it; `Marks.ExactlyWhenBlurred` says exactly
  which steps do this.
- A selection event drops the transient data before it is known to be a repeat (`daemon/main.c:261`). Copying the
  front entry again while the transient entry is current leaves the latter current and without data
  (`CopyPaste.HoldsLastCopied`, `EmptiedTransient.RepeatEmptiesTransient`).
- `docs/swayclip.5.scd:75-90` describes deduplication by content. Names are hashed without delimiters
  (`daemon/main.c:361-362`), so a long name can spell out a name, a digest and another name
  (`Hashing.NamesRunTogether`); and an entry whose hash was taken over by a newer copy is not
  recognised any more, even when that copy has left (`FreshCopies.PreviousActs`).
- `swctl list` with a negative start repeats entries when it needs more than one page;
  `Listing.ListIsWindow` says exactly when it does not.

## Model

| member | source | states |
|---|---|---|
| `Store.Database.NewEntry` | daemon/database.c:54-58 | inserts a row whose sort index, set by the trigger, is one more than the greatest, under an id never used before |
| `Store.Database.NewMimeType` | daemon/database.c:482-522 | both inserts ignore what is there already: the first item of a mime type and the first bytes of a digest stay |
| `Store.Database.DeleteRows` | daemon/db_schema.sql:49-79 | deleting entries takes their mime rows along, and of the blobs exactly those that lose their last reference |
| `Store.CollectedIsWithout` | daemon/db_schema.sql:67-72 | collecting blobs row by row, as the trigger fires, removes the same blobs as looking at the whole deletion |
| `Store.Database.Trim` | daemon/database.c:974-1005 | deletes exactly the unpinned rows with at least max_entries unpinned rows of greater id, and reports each once |
| `Store.OffsetSplits` | daemon/database.c:110-114 | skipping the greatest ids, as OFFSET does, leaves exactly those rows |
| `Store.Database.SetEntryHash` | daemon/database.c:850-886 | gives a hash to a row, or takes it from whoever holds it; refused just when UNIQUE would be broken |
| `Store.Database.EntryHashPos` | daemon/database.c:888-924 | the holder of a hash and the number of rows before it, -1 when nobody holds it |
| `Store.Database.GetEntries` | daemon/database.c:608-650 | a page of the list ordered by falling sort index |
| `Store.Database.GetData` | daemon/database.c:560-606 | the bytes of one mime type of one entry, through the join of the two tables |
| `Tables.HistoryUnique` | daemon/database.c:72-75 | the tables determine the history list |
| `Tables.PositionIsIndex` | daemon/database.c:97-104 | the position SQL counts is the index in the history list |
| `Daemon.LookupDuring` | daemon/main.c:401-440 | with the new row in progress, the counted position of a duplicate is one more than without it |
| `Daemon.CommittedIsAdded` | daemon/main.c:317-466 | insert, ingest, hash and commit together leave the tables the specification names |
| `Daemon.Daemon.Deduplicate` | daemon/main.c:395-455 | the three modes reach the verdict defined on the history before the event, whichever row is in progress |
| `Daemon.Daemon.Record` | daemon/main.c:317-466 | commits an entry, or leaves the tables as they were: a repeated, moved or failed offer leaves no trace of the speculative row |
| `Daemon.Daemon.OnSelection` | daemon/main.c:244-507 | a selection event leads to the specified state and announces the specified events, in order |
| `Daemon.Daemon.OnSetClipboard` | daemon/main.c:968-993 | set: the answer, the state and the events, for known, unknown and cleared ids |
| `Daemon.Daemon.OnDelete` | daemon/main.c:995-1044 | delete and clear: the answer, the state and the events |
| `Daemon.Daemon.OnPin` | daemon/main.c:1045-1086 | pin, unpin and toggle: the answer, the state and the events |
| `Requests.SetIsCurrent` | daemon/main.c:968-993 | setting a live entry makes it current, -1 clears, and both keep rows, pins and the history list; an unknown id is refused |
| `Requests.DeleteRequests` | daemon/main.c:995-1044 | deleting takes exactly one row out of the history, or all; a current entry that goes leaves none set and the clipboard cleared |
| `Requests.RefusedRequests` | daemon/main.c:968-1086 | which requests are refused, with which answer: exactly those about an entry that is not there or with an unknown pin mode; they change nothing, and exactly the others are announced |
| `Requests.PinRequests` | daemon/main.c:1045-1086 | pin, unpin and toggle set the pin, clear it and turn it over |
| `Requests.TouchedRow` | daemon/database.c:78-108 | set, pin and move date a row with the event and keep all else of it and all other rows |
| `Requests.NewRow` | daemon/main.c:317-490 | a new row is dated with the event, not pinned, and has the hash and the content type of its items |
| `Requests.RunPins` | daemon/main.c:425-1086 | over every run, following the announced events tells exactly which entries there are and which are pinned |
| `Requests.RunPoints` | daemon/main.c:152-170 | over every run, when an entry of the history is current, the last entry announced as set is that one |
| `Marks.ExactlyWhenBlurred` | daemon/main.c:152-170 | a step keeps a subscriber's marks on just the current entry if and only if it is not an offer, transient or failing, that takes the place of an entry which stays in the history |
| `Marks.RunMarks` | docs/swctl.1.scd:121-129 | over every run without such an offer, the entries set and neither unset nor deleted since are the current one |
| `Replica.StepKeepsWf` | daemon/db_schema.sql:36-89 | every step keeps unique positive sort indices, unique hashes, ids below the high-water mark and all references |
| `Replica.MovePosition` | daemon/main.c:437-455 | the position announced for a moved entry is its index in the client's list |
| `Replica.DeleteMany` | daemon/main.c:193-199 | replaying the deletions of a trim, in whatever order they are reported, leaves the surviving history |
| `Replica.StepReplays` | daemon/main.c:471-506 | replaying the events of any step turns the history list before it into the one after it |
| `Replica.RunReplays` | daemon/main.c:425-506 | over every run, with configuration changes, a client that replays the log from a snapshot holds the history list |
| `Contents.RunSound` | daemon/main.c:391-466 | over every run, in all modes: hashes are unique, each is its row's content hash, and its holder is the newest live row with that content |
| `Contents.LookupsRefinePlainMap` | daemon/database.c:452-606 | with digests that do not collide, every lookup in every reachable state returns the bytes first received for that entry and mime type |
| `Contents.ExactlyWhenNoStrayBlob` | daemon/database.c:54-64 | committing an offer leaves no unreferenced blob if and only if each of its payloads is kept under some mime type or stored already |
| `Contents.RepeatedMimeLeavesStray` | daemon/database.c:58-62 | an offer that names a mime type twice with different bytes does leave one |
| `Contents.RunExact` | daemon/db_schema.sql:67-72 | when no offer repeats a mime type, the stored blobs are exactly the referenced ones after every run |
| `Hashing.HashIsOfAlternation` | daemon/main.c:340-395 | the entry hash is the digest of exactly the mime names in order, each followed by the digest of its data |
| `Hashing.EqualHashes` | daemon/main.c:361-362 | with digests of one length and no collisions on what is hashed: offers with as many mime types and equally long names have equal entry hashes if and only if names and data agree item by item |
| `Hashing.DifferentSizes` | daemon/main.c:361-362 | offers for which different numbers of bytes are hashed have different entry hashes |
| `Hashing.NamesRunTogether` | daemon/main.c:361-362 | names are hashed without delimiters: two different offers with one entry hash, for every hash function |
| `FreshCopies.NewCopyIsAdded` | daemon/main.c:317-507 | after any run, under any configurations: copying names and data that were not offered together before adds a row at the front, makes it current and announces it, and changes nothing else of the list but for the trim |
| `FreshCopies.KeepAllAdds` | daemon/main.c:395-424 | with dedup "none", after any run, every copy does so |
| `FreshCopies.PreviousActs` | daemon/main.c:395-424 | with dedup "prev", after any run: a copy only trims if the front entry has its names and data and still its hash, and adds a row at the front otherwise |
| `FreshCopies.OthersAddNothing` | daemon/main.c:244-507 | an offer without allowed types, a transient one and one that fails add and move nothing and announce nothing but deletions |
| `Recency.SelectionMovesToFront` | daemon/main.c:425-461 | up to the trim, in one step: ids, history list and contents after a selection event with dedup "all" |
| `MoveToFront.CopyingMovesToFront` | daemon/main.c:425-507 | after every run from an empty history with dedup "all", if at that step equal entry hashes mean equal contents: copying leaves the old contents with the copied ones moved or pushed to the front, less exactly the entries the trim takes; a repeat of the front entry only trims, and a known content adds no row |
| `FreshCopies.CopiesMoveToFront` | daemon/main.c:425-507 | the same without that assumption, for offers that can be told apart by shape or size: a copy after any run with dedup "all" acts on a move-to-front list of names and data |
| `MoveToFront.TrimSelects` | daemon/main.c:193-199 | the trim at the end of a selection event takes entries out of the list and leaves the others in their order |
| `Recency.NoDuplicatesUnderAll` | daemon/main.c:425-461 | with dedup "all" from an empty history, contents stay pairwise distinct in every run |
| `Recency.CurrentStaysLive` | daemon/main.c:463-506 | with no unpinning, a positive current id names a live row after every step of every run |
| `Recency.ExactlyWhenCurrentDies` | daemon/main.c:463-506 | a selection event leaves a dead current id exactly when it adds nothing and the row left current is unpinned and outranked |
| `Scenarios.UnpinThenRepeatKillsCurrent` | daemon/main.c:1045-1086 | in a legal run from an empty history with room for one: copy, pin, copy another, set the first current, unpin it; copying the front entry again leaves the current id without a row |
| `Recency.TrimBounds` | daemon/database.c:110-114 | after a trim at most max_entries unpinned rows are left |
| `Trimming.SurvivorsArePrefix` | daemon/database.c:110-114 | a trim keeps the first max_entries unpinned entries of the history, in order, if and only if the newest unpinned rows are also the foremost ones |
| `Trimming.RunKeepsRank` | daemon/db_schema.sql:82-89 | while nothing is moved, ids and sort indices rank the rows alike |
| `Trimming.RankedAreForemost` | daemon/database.c:110-114 | and then the newest unpinned rows are the foremost ones |
| `Scenarios.MovedIsTrimmedFirst` | daemon/database.c:110-114 | copying A, B, A and C with room for two is a legal run from an empty history that trims A, which is second, and keeps B, which is third |
| `Kinds.ChosenIsRule` | daemon/main.c:377-389 | the loop over mime types picks the first image, else the last plain text, else the first text, else the first type |
| `Kinds.KindIsFamily` | daemon/main.c:183-191 | images and texts are the types of those families, all else is binary |
| `Framing.Le32RoundTrip` | common/ipc_ct.c:160-162 | the payload size in a header reads back as what was written |
| `Framing.LowestFirst` | common/ipc_ct.c:160-162 | the lowest byte comes first |
| `Framing.StreamAppend` | common/ipc_ct.c:334-380 | queueing a message appends its frame to the stream of all frames |
| `Framing.StreamInjective` | common/ipc_ct.c:334-380 | the bytes and descriptors on the wire determine the messages |
| `Channel.FlushTakesPrefix` | common/ipc_ct.c:279-321 | any schedule of partial sends puts a prefix of the queue on the socket and keeps the rest, descriptors included |
| `Channel.FrameTurn` | common/ipc_ct.c:132-256 | one receive of any part of a frame moves the reader as far into that frame, and calls back just when it is complete |
| `Channel.PollDelivers` | common/ipc_ct.c:132-256 | polling under any schedule of partial receives calls back with the next messages, in order |
| `Channel.RoundTrip` | common/ipc_ct.c:132-387 | safety, for any interleaving of posting, flushing and polling: same types, payloads and descriptors in the same order, each descriptor sent once; only an oversized payload stops the reader, and none is delivered |
| `Progress.FlushEmpties` | common/ipc_ct.c:279-321 | as many sends that take something as there are bytes queued empty the queue |
| `Progress.PollsEmpty` | common/ipc_ct.c:132-256 | as many polls that receive something as there are bytes on the socket empty it, unless the reader gives up |
| `Progress.EverythingArrives` | common/ipc_ct.c:132-387 | every script of posting, flushing and polling, continued with sends and receives that take something, ends with all frames sent and all descriptors closed, and with exactly the messages in front of the first oversized one delivered: all of them if and only if the reader is still alive, and then nothing is left on the socket |
| `Progress.CanDrain` | common/ipc_ct.c:132-387 | and every state of a connection has such a continuation |
| `IpcCt.IpcCt.WriteMsg` | common/ipc_ct.c:334-387 | one frame more in the queue; a payload of 4 GiB is dropped and its descriptor closed |
| `IpcCt.IpcCt.Write` | common/ipc_ct.c:279-321 | the send loop over the queue, offsets in bounds, is the flush of the specification |
| `IpcCt.IpcCt.Read` | common/ipc_ct.c:132-256 | the receive loop over the 4096-byte buffer is the poll of the specification, with every access in bounds |
| `Hold.Connection.MessageCallback` | daemon/ipc.c:74-112 | a message runs, waits or completes a batch, and then the waiting events are flushed |
| `Hold.Connection.FlushEvents` | daemon/ipc.c:59-72 | the waiting events go out in the order in which they were raised |
| `Hold.EmitEvent` | daemon/ipc.c:354-383 | an event reaches every subscribed connection: at once, or after the request it is handling |
| `Hold.ArrivedShape` | daemon/ipc.c:84-112 | an arrival queues all responses of the batch it sets off and behind them the events raised in it; executed and held requests together stay the received ones |
| `Hold.RunKeepsIdle` | daemon/ipc.c:84-112 | between messages no event is waiting, and requests are held only while more are to come |
| `Hold.RunConserves` | daemon/ipc.c:84-112 | in every run, requests that ran followed by those held are the received ones: in order, each once, even if the counter wraps |
| `Hold.RunGroups` | daemon/ipc.c:578-582 | requests run in exactly the groups that the holds, nested ones included, ask for |
| `Hold.RunSendsReplies` | daemon/ipc.c:84-112 | the responses a client gets are those of the requests that ran, in arrival order |
| `Hold.RunSendsEvents` | daemon/ipc.c:354-383 | the events a client gets are those it was subscribed to when they were raised, in that order |
| `Subscriber.RunSendsLog` | daemon/ipc.c:84-112 | for the daemon and one connection as one system, in which a held request acts when its batch runs: the events a subscribed client gets over a run are the log of the daemon over it |
| `Subscriber.SubscriberReplays` | daemon/ipc.c:354-383 | so, however its own requests were held and batched, it ends every run with the history list |
| `Fips180.BitwiseBit` | common/sha256/sha256.c:26-33 | the word operations combine the bits at each position |
| `Fips180.ZeroBytesLeast` | common/sha256/sha256.c:120-134 | the zero padding is the smallest that leaves room for the length |
| `Fips180Constants.SquareRoots` | common/sha256/sha256.c:85-97 | the initial hash value is the first 32 fractional bits of the square roots of the first eight primes |
| `Fips180Constants.CubeRoots0To7` | common/sha256/sha256.c:33 | the round constants in this line are those of the cube roots of the first eight primes |
| `Fips180Constants.CubeRoots8To15` | common/sha256/sha256.c:34 | the round constants in this line are those of the cube roots of the next eight primes |
| `Fips180Constants.CubeRoots16To23` | common/sha256/sha256.c:35 | the round constants in this line are those of the cube roots of the next eight primes |
| `Fips180Constants.CubeRoots24To31` | common/sha256/sha256.c:36 | the round constants in this line are those of the cube roots of the next eight primes |
| `Fips180Constants.CubeRoots32To39` | common/sha256/sha256.c:37 | the round constants in this line are those of the cube roots of the next eight primes |
| `Fips180Constants.CubeRoots40To47` | common/sha256/sha256.c:38 | the round constants in this line are those of the cube roots of the next eight primes |
| `Fips180Constants.CubeRoots48To55` | common/sha256/sha256.c:39 | the round constants in this line are those of the cube roots of the next eight primes |
| `Fips180Constants.CubeRoots56To63` | common/sha256/sha256.c:40 | the round constants in this line are those of the cube roots of the next eight primes |
| `Sha256.PushAllStreams` | common/sha256/sha256.c:99-112 | feeding a chunk to the stream of a message gives the stream of the longer message |
| `Sha256.PaddingBranches` | common/sha256/sha256.c:120-147 | the two padding branches produce the padded message of the standard |
| `Sha256.FinishedIsDigest` | common/sha256/sha256.c:114-147 | finishing absorbs exactly the blocks of the padded message |
| `Sha256Macros.RotRightIsRotr` | common/sha256/sha256.c:21-22 | two shifts and an or are a rotation |
| `Sha256Macros.RotrBit` | common/sha256/sha256.c:21-22 | a rotation by n moves bit i + n, modulo 32, to place i |
| `Sha256Macros.ShrBit` | common/sha256/sha256.c:28-29 | a right shift by n moves bit i + n to place i, and zeros come in |
| `Sha256Macros.NotBit` | common/sha256/sha256.c:24 | the complement flips every bit |
| `Sha256Macros.MacrosAreFunctions` | common/sha256/sha256.c:26-29 | the four macros over rotations are the functions of section 4.1.2 |
| `Sha256Macros.WordOfIsBeWord` | common/sha256/sha256.c:48-49 | four bytes shifted and or-ed are the big-endian word |
| `Sha256Macros.MaskIsRemainder` | common/sha256/sha256.c:149-157 | masking with 0xff leaves the lowest byte |
| `Sha256Context.Context.Transform` | common/sha256/sha256.c:44-83 | schedule and 64 rounds over the arrays, written with the macros, are the compression function of section 6.2.2 |
| `Sha256Context.Context.Update` | common/sha256/sha256.c:99-112 | the update loop over the 64-byte buffer |
| `Sha256Context.Context.Final` | common/sha256/sha256.c:114-158 | padding, length and big-endian output, and nothing written past 32 bytes |
| `Sha256Context.Digest` | common/sha256/sha256.c:85-158 | init, any updates and final give the digest of everything fed in |
| `Utf8.RoundTrip` | common/tomlc17/tomlc17.c:3042-3092 | every code point up to 0x1FFFFF reads back as itself, whatever follows it |
| `Utf8.DecodedIsEncoded` | common/tomlc17/tomlc17.c:3042-3092 | encoding is shortest: no decodable spelling is shorter, and one as short is the same bytes |
| `Utf8.EncodeAt` | common/tomlc17/tomlc17.c:3148-3205 | writes exactly those bytes at the position, or nothing |
| `TomlStrings.ScanIsProper` | common/tomlc17/tomlc17.c:2051-2210 | every text a string scanner accepts is a proper spelling of items, up to its closing quotes |
| `TomlStrings.LexIsProper` | common/tomlc17/tomlc17.c:2130-2156 | a line-ending backslash takes all blanks and newlines that follow, and no lone carriage return is left for later |
| `TomlScanner.Scanner.ScanString` | common/tomlc17/tomlc17.c:2075-2210 | the scanning loops accept just what the specification accepts, and note the first backslash |
| `TomlScanner.Scanner.ScanEscape` | common/tomlc17/tomlc17.c:2051-2072 | the length of an escape, 0 for none, -1 for missing digits |
| `TomlScanner.NotedIsFirst` | common/tomlc17/tomlc17.c:2113-2117 | the mark is the first backslash of the token |
| `TomlNormalise.UnescapeFold` | common/tomlc17/tomlc17.c:1921-1938 | on a proper spelling a line-ending backslash is always followed by a newline, whichever of the four letters starts it |
| `TomlNormalise.UnescapeCode` | common/tomlc17/tomlc17.c:1882-1919 | digits are read before they are overwritten; fails just for surrogates and numbers too large |
| `TomlNormalise.Rewrite` | common/tomlc17/tomlc17.c:1845-1946 | the write position never passes the read position, and the buffer ends up holding the meaning of the items; the unknown-escape branch is dead |
| `TomlNormalise.PeelMany` | common/tomlc17/tomlc17.c:1835-1843 | bytes before the first backslash stand for themselves |
| `TomlNormalise.ParseNorm` | common/tomlc17/tomlc17.c:1804-1947 | unescaping a token gives the meaning of its items, and fails just when they have none |
| `TomlBasicString.FailsJustForBadCodes` | common/tomlc17/tomlc17.c:1882-1919 | a string has no meaning if and only if a \u or \U names a surrogate or a number above 0x1FFFFF; \x never fails |
| `TomlBasicString.StringValue` | common/tomlc17/tomlc17.c:1804-2210 | from source bytes to value: scanner and unescaping agree |
| `TomlBasicString.ShortEscapes` | common/tomlc17/tomlc17.c:1852-1881 | which byte each escape letter stands for |
| `TomlBasicString.HexRoundTrip` | common/tomlc17/tomlc17.c:1882-1919 | a number written in hexadecimal, upper or lower case, is read as itself |
| `TomlBasicString.CodeEscapes` | common/tomlc17/tomlc17.c:1882-1919 | every code point but a surrogate can be written with \u or \U and is read as its encoding |
| `TomlGrammar.ScanExactly` | common/tomlc17/tomlc17.c:2075-2210 | the scanner reads some items up to a position if and only if they follow the grammar, are spelled there, and the string closes there; for one and for several lines, folds and runs of quotes included |
| `TomlGrammar.ScanIsWritten` | common/tomlc17/tomlc17.c:2075-2210 | whatever the scanner accepts follows the grammar: folds take all they can, and no three quotes stand in a row |
| `TomlTree.EquivIsSameForm` | common/tomlc17/tomlc17.c:718-787 | two parsed values are equivalent just when they are equal with tables as maps, times as their parts and all NaNs alike |
| `TomlTree.EquivIsEquivalence` | common/tomlc17/tomlc17.c:718-787 | equivalence is reflexive, symmetric and transitive on parsed values |
| `TomlTree.NotSymmetricWithRepeatedKeys` | common/tomlc17/tomlc17.c:759-783 | symmetry needs the key uniqueness that insertion keeps |
| `TomlMerge.TabEmplace` | common/tomlc17/tomlc17.c:401-451 | finds the slot of a key or appends one, keeps keys unique, and fails just when a full table has no such key |
| `TomlMerge.Copy` | common/tomlc17/tomlc17.c:595-653 | a deep copy of a parsed value, built slot by slot, is the value |
| `TomlMerge.Merge` | common/tomlc17/tomlc17.c:665-715 | the merge loops compute the merge of the specification |
| `TomlMerge.MergeRule` | common/tomlc17/tomlc17.c:672-699 | every key of a merged table holds: what one side has, or the merge of what both have |
| `TomlMerge.ArraysJoin` | common/tomlc17/tomlc17.c:672-699 | two arrays of tables become one, the older tables first |
| `TomlMerge.PlacesKept` | common/tomlc17/tomlc17.c:672-699 | keys keep their places and new ones come behind |
| `TomlMerge.PathRule` | common/tomlc17/tomlc17.c:665-715 | every path of keys in a merged tree leads to what one side has there or to the merge of both, unless the newer side has something else than a table on the way; what is no table and no array of tables is taken over from the newer side |
| `TomlMerge.MergeKeepsParsed` | common/tomlc17/tomlc17.c:665-715 | merging keeps unique keys and size limits at every level |
| `TomlMerge.EmptyIsIdentity` | common/tomlc17/tomlc17.c:665-715 | the empty table is an identity on both sides |
| `TomlMerge.FailsJustOnOverflow` | common/tomlc17/tomlc17.c:410-414 | merging fails if and only if somewhere the united keys or the joined elements exceed 16384 |
| `TomlParser.EqualInBothModes` | common/tomlc17/tomlc17.c:2914-2982 | an equals sign is the same token in both scanner modes |
| `TomlTokens.BlankPasses` | common/tomlc17/tomlc17.c:2935-2937 | blanks in front of a token do not matter |
| `TomlTokens.CommentPasses` | common/tomlc17/tomlc17.c:2939-2950 | a comment stands for the newline behind it, or for the end of the text, if and only if no control character but tabs is in it; otherwise there is no token |
| `TomlTokens.BareKeyIsToken` | common/tomlc17/tomlc17.c:2871-2893 | a bare key reaches to the first ASCII byte that is no letter, digit, underscore or dash |
| `TomlTokens.DoubledBrackets` | common/tomlc17/tomlc17.c:2952-2968 | brackets are doubled only where keys are expected |
| `TomlPrinting.ByteIsToken` | common/tomlc17/tomlc17.c:2914-2968 | which punctuation byte is which token, in either mode |
| `TomlParser.Parser.ParseKey` | common/tomlc17/tomlc17.c:1244-1297 | the loop over the parts of a key, the token behind it counted although it is put back, is the recursive function |
| `TomlParser.Parser.ParseInlineArray` | common/tomlc17/tomlc17.c:1384-1437 | the loop ends on every text, although a value may be scanned without progress, and computes the function that `TomlSyntax.ArraysFollow` characterises |
| `TomlParser.Parser.ParseInlineTable` | common/tomlc17/tomlc17.c:1444-1541 | the loop ends on every text and computes the function that `TomlSyntax.TablesFollow` characterises |
| `TomlDepth.KeyPartsCount` | common/tomlc17/tomlc17.c:1244-1297 | the token behind a key changes the level counters although it is put back |
| `TomlDepth.ItemsStay` | common/tomlc17/tomlc17.c:1384-1437 | an inline array restores the bracket level, within the limits |
| `TomlDepth.FieldsStay` | common/tomlc17/tomlc17.c:1444-1541 | an inline table restores the brace level, within the limits |
| `TomlDepth.HeaderStays` | common/tomlc17/tomlc17.c:1578-1656 | every [table] header leaves the bracket counter one lower |
| `TomlParser.Parser.Parse` | common/tomlc17/tomlc17.c:1114-1153 | parsing ends on every text, accepts only whole ones, and computes the function that `TomlDocuments.DocumentsFollow` characterises |
| `TomlSyntax.ArraysFollow` | common/tomlc17/tomlc17.c:1384-1437 | an inline array is read up to a position if and only if its tokens are values separated by single commas, with newlines anywhere between and perhaps a trailing comma, up to the closing bracket there, and it nests within the limits |
| `TomlSyntax.TablesFollow` | common/tomlc17/tomlc17.c:1444-1541 | likewise for inline tables, of dotted keys, equals signs and values |
| `TomlSyntax.ValuesFollow` | common/tomlc17/tomlc17.c:1543-1574 | likewise for any value behind an equals sign |
| `TomlDocuments.DocumentsFollow` | common/tomlc17/tomlc17.c:1114-1153 | a text is accepted if and only if its tokens are lines as the grammar has them: blank, key and value, [table] and [[array of tables]], with values within the limits as the headers before them have left these, and every tree operation succeeds |
| `TomlPrinting.PrintedIsAccepted` | common/tomlc17/tomlc17.c:1114-1541 | from bytes: every tree of arrays and tables within the limits, written out with any newlines and trailing commas, is accepted |
| `TomlDepth.DocumentStays` | common/tomlc17/tomlc17.c:2984-3010 | on every text, at most 30 arrays plus one for each header read, and at most 30 inline tables, are open at once |
| `TomlDepth.DepthAttained` | common/tomlc17/tomlc17.c:2984-3010 | when the tree operations succeed: behind h headers, n nested arrays are accepted if and only if n is at most 30 + h, and the parser is then exactly n arrays deep |
| `Ownership.SelectionObject.OnSelection` | daemon/wayland.c:349-442 | a selection event keeps, replaces, refuses or drops the offer, and arms at most one timer |
| `Ownership.SelectionObject.OnNullTimer` | daemon/wayland.c:317-347 | the timer sets the selection only if there is still no offer, and is closed once |
| `Ownership.SelectionObject.Set` | daemon/wayland.c:157-198 | becoming the source client destroys the source held before |
| `Ownership.SelectionObject.OnCancelled` | daemon/wayland.c:134-144 | a cancelled source is forgotten and destroyed |
| `Ownership.SelectionObject.Close` | daemon/wayland.c:96-117 | offer, source and timer are given up, each once |
| `Ownership.HandlerKeeps` | daemon/wayland.c:97-442 | every handler only destroys what is alive, and leaves its selection holding what is alive for it |
| `Ownership.RunOwns` | daemon/wayland.c:97-442 | over every event sequence nothing is destroyed twice or closed twice, and what is alive is exactly what the selections hold |
| `Ownership.NothingOwned` | daemon/wayland.c:84-94 | freshly initialised selections own nothing |
| `Ownership.NothingLeaks` | daemon/wayland.c:96-117 | once every selection is uninitialised nothing is alive |
| `Ownership.CancelledIsHeld` | daemon/wayland.c:134-144 | a cancelled source is always the one its selection holds |
| `Ownership.TimerSparesOffer` | daemon/wayland.c:338-346 | the timer never replaces an accepted offer |
| `Ownership.SourceRefusesOffers` | daemon/wayland.c:373-386 | an offer is accepted just when the selection is enabled, not its own source, and the offer not blocked |
| `Takeover.ArmedExactlyWhen` | daemon/wayland.c:349-434 | a timer is armed if and only if a selection that is enabled, may be set, is not its own source and has no timer is emptied without being blocked, and a timer can be had |
| `Takeover.EmptiedIsTakenOver` | daemon/wayland.c:317-442 | over runs: when such a selection is emptied and nothing comes to it before its timer expires, it ends up holding the source the daemon chose, made, claimed for the first time in the run, and the timer closed |
| `Takeover.ChoiceIsClaimed` | daemon/wayland.c:157-198 | the daemon's choice is claimed just when there is a source or the selection is to be cleared, and then held |
| `Takeover.SourceIsTold` | daemon/wayland.c:157-198 | over every run, a selection that is a source is the one the compositor was told of last |
| `Takeover.CancelledAccepts` | daemon/wayland.c:134-144 | once its source is cancelled a selection holds none, and an enabled one accepts the next offer |
| `Takeover.EnabledAsConfigured` | daemon/wayland.c:592-600 | over every run, a selection is enabled just as the configuration said last |
| `Filter.SeatObject.CheckMimeType` | daemon/wayland.c:216-243 | one list of rules against one mime type: blocking, transience, permission, in that order |
| `Filter.SeatObject.OnOffer` | daemon/wayland.c:245-285 | the general rules, then those of the active toplevel, then the type is kept |
| `Filter.SeatObject.OnDataOffer` | daemon/wayland.c:299-315 | a new offer starts without types, not blocked and not transient |
| `Filter.RunIsRule` | daemon/wayland.c:245-285 | a run of mime types is blocked just when one of them is fatal; otherwise the wanted ones are kept in order, and it is transient just when one says so |
| `Filter.OrderDoesNotMatter` | daemon/wayland.c:245-285 | the outcome does not depend on the order in which mime types come |
| `Toplevels.DesktopObject.Query` | daemon/wayland.c:735-752 | the loop finds the first configured entry that applies to a title and an application id |
| `Toplevels.DesktopObject.OnDone` | daemon/wayland.c:724-799 | the done event with its early returns |
| `Toplevels.RulesWaitForDone` | daemon/wayland.c:659-710 | however many titles, application ids, states and new windows come before a done event, the active toplevel and the rules in force stay |
| `Toplevels.DesktopObject.OnState` | daemon/wayland.c:689-710 | a window is activated if one of its states says so |
| `Toplevels.DesktopObject.OnFinished` | daemon/wayland.c:865-879 | when the manager goes, so do all toplevels and the active one |
| `Toplevels.RunKeepsSound` | daemon/wayland.c:265-272 | in every run the active toplevel exists and has a configuration: the assertion never fails |
| `Toplevels.DoneDecides` | daemon/wayland.c:724-799 | after its done event a toplevel is active just when it is activated and an entry applies to it; the first that does rules |
| `Toplevels.SaidIsRecorded` | daemon/wayland.c:659-710 | over every run, title, application id and state on record are those a window said last |
| `Toplevels.ActiveAfterDone` | daemon/wayland.c:724-799 | over every run, after its done event a window is active if and only if it said last that it is activated and an entry applies to the title and application id it said last |
| `Toplevels.OpenAreRecorded` | daemon/wayland.c:801-879 | over every run, the windows on record are those that appeared and have not closed, and a closed one is not active |
| `Transfer.IoRead` | common/io.c:64-133 | the receive loop, with its callback per chunk, over any sequence of polls and reads |
| `Transfer.ReceivedIsGathered` | common/io.c:64-133 | what is received is all that was read, and within both limits |
| `Transfer.EndedIsReceived` | common/io.c:64-133 | data that comes in pieces and then ends is received if and only if all of it is within both limits |
| `Transfer.InterruptionsNeedData` | common/io.c:97-109 | an interrupted read is tried again just when some data is there |
| `Transfer.ReceiveData` | daemon/main.c:340-365 | the data id is the digest of exactly the bytes stored |
| `Transfer.SendContext.WriteCallback` | daemon/main.c:520-581 | whatever the pipe takes is the next part of the content, refilled from the blob 4096 bytes at a time |
| `Transfer.Paste` | daemon/main.c:520-662 | under any schedule the receiver gets a prefix of the content, all of it on completion, and completion comes if the pipe keeps taking something |
| `CopyPaste.FindTransient` | daemon/main.c:615-634 | the first transient item of a mime type counts, even one without data |
| `CopyPaste.Send` | daemon/main.c:583-662 | a request is answered with a prefix of what there is for the current entry, refused when there is nothing, and completed if and only if there is something when the pipe keeps taking something |
| `CopyPaste.PasteAfterRun` | daemon/main.c:244-662 | after every run, a paste of the current entry gives byte for byte what was first received for it under that mime type; a pipe that keeps taking something gets all of it if and only if the entry was received with data for that type |
| `CopyPaste.TransientIsCurrent` | daemon/main.c:262-312 | after any run, copying transient data makes it current at once and stores nothing |
| `CopyPaste.HoldsLastCopied` | daemon/main.c:244-461 | after any run, the transient entry, while current, holds what was copied last if that was transient, and nothing if it was not |
| `CopyPaste.PasteTransient` | daemon/main.c:244-662 | after any run that leaves the transient entry current, a paste gives what was copied last if that was transient, completely if the pipe keeps taking something, and is refused otherwise |
| `EmptiedTransient.RepeatEmptiesTransient` | daemon/main.c:260-461 | in a legal run from an empty history: copy something, then something transient, then the first again: the transient entry is current and holds nothing |
| `Listing.TextEscape` | cli/main.c:250-311 | writes the escaped text into 4 * len + 1 bytes for every input, with every access in bounds, that of the terminator printed behind a hexadecimal escape included |
| `Listing.NoControls` | cli/main.c:298-303 | no control character is left |
| `Listing.RoundTrip` | cli/main.c:250-311 | a decoder recovers the text |
| `Listing.Injective` | cli/main.c:250-311 | different texts look different |
| `Listing.Escapes` | cli/main.c:250-311 | which letter each short escape has, and two control characters without one |
| `Listing.LineIsOneLine` | cli/main.c:466-488 | a text entry is one line, and its id ends at the only tab |
| `Listing.LineShowsText` | cli/main.c:466-488 | behind the marks stand, escaped, the first hundred bytes of the text, or all of it |
| `Listing.CommandList` | cli/main.c:559-569 | the paging loop prints its pages |
| `Listing.ListIsWindow` | cli/main.c:559-569 | the pages are the window asked for, once, if and only if the start is not negative or one page is enough |

## Left out

- SQLite, json-c, libwayland, regex and the growable arrays themselves: a statement is its effect on the tables, the JSON tokener is any incremental decoder that accepts complete payloads, a regular expression is a predicate, proxies are numbers.
- Out of memory and database errors other than a failed offer; a transaction that cannot begin.
- Settings, the last entry saved between starts, schema migration, and attributes other than the content type.
- Sockets, epoll, timers as clocks, file locks, signals, logging, configuration paths, option parsing and help texts.
- The event loop's registration by descriptor number.
- Contents.LookupsRefinePlainMap: assumes digests that do not collide on the bytes received, as the store itself does.
- MoveToFront.CopyingMovesToFront: assumes that at that step the new entry hash equals that of a live row only for equal contents; `FreshCopies.CopiesMoveToFront` has this as a consequence where offers can be told apart.
- FreshCopies.CopiesMoveToFront: assumes that digests have one length and do not collide on what is hashed, and compares an offer only with earlier ones of its shape or of another size, because of `Hashing.NamesRunTogether`; data that was received but is empty is taken as not allocated, as the receive buffer is.
- Daemon.Daemon.OnSelection: rows deleted by a trim are reported in some order, since RETURNING promises none; the receive itself is an offer that says which items arrived before the first failure.
- Channel.RoundTrip: says what arrives, not that it does, which is `Progress.EverythingArrives`; one direction of a connection; no end of file inside a body; payloads that are empty or no complete JSON value, and recovery after them, are outside it.
- IpcCt.IpcCt.Read: hands over descriptors themselves, not the memory mapped from them; sizes are in the byte order of a little-endian machine.
- IpcCt.IpcCt.WriteMsg: the buffer size of a payload within five bytes of 4 GiB, which overflows, is not modelled.
- Hold.Connection.MessageCallback: what the request callback does is a script of responses, events and subscriptions; other clients hear of the events as events from outside.
- Subscriber.SubscriberReplays: the client stays subscribed to everything; its requests that neither hold others nor change the history raise no events.
- Sha256Context.Context.Update: chunks of 4 GiB and more, for which the 32-bit loop counter never reaches the end, are excluded.
- TomlScanner.Scanner.ScanString: line numbers and error texts are not modelled; literal strings, which have no escapes, are not either.
- TomlMerge.Merge: trees are values, so sharing of memory between slots, positions in the source, flags and source names are not captured.
- TomlParser.Parser.Parse: tree operations only succeed or fail, by position; so do the scanners of literal strings and of values that are no strings. The grammar is one of tokens: whether keys may be repeated or tables extended is up to the tree operations, so which texts are valid TOML is stated up to them.
- Ownership.RunOwns: what the daemon does inside the selection callback comes as further events; a proxy is gone when it is destroyed, so no event for it follows.
- Filter.RunIsRule: configuration and active toplevel stay the same during one offer.
- Transfer.SendContext.WriteCallback: transient data is not replaced while it is being pasted.
- Listing.CommandList: the history does not change between pages; with JSON output every page is an array of its own.
- Numbers, dates and floating-point literals in TOML, and human-readable sizes: library calls or arithmetic without a deep property.
