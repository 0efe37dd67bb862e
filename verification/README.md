# Verified models of the protocol and data-structure code

Dafny models of seven components of the repository, and proofs of what they are for. `dafny verify dfyconfig.toml` checks
all of them. The models follow the code branch by branch; where the code and its comments disagree, they follow the code.

## What is modelled

**HTTP/1.x parser** (`Http*.dfy`). `HttpTransition` is the state switch of `http_parser_execute` for one byte, as a
function that takes the byte or goes back to the switch in another state. `HttpFeed` repeats it over a text: `Feed` gives
the parser's fields and the trace of callbacks that a text means, and `Tally` the count of header bytes. A trace joins
adjacent data callbacks of one kind, so it says what the application gets and not how it was cut. `HttpParser` is the
parser as a class; `Execute` has the loops of the source, with marks, offsets, the fast loops, pauses and failing
callbacks, and is proved against `Feed`. Everything else is proved about `Feed`: cuts and pauses change nothing
(`HttpCuts`, `HttpPauses`), the order of callbacks (`HttpGrammar`, `HttpOrder`), first lines and methods (`HttpLines`,
`HttpMethods`), header names and lines (`HttpHeaders`, `HttpFields`), lists of codings and connection options
(`HttpLists`), whole headers and what is noted of them (`HttpValues`), the choice of the body and the rules of the standard
(`HttpFraming`, `HttpRules`, `HttpDepartures`), lengths and chunks (`HttpBodies`), whole requests and responses
(`HttpMessages`), and the invariant that the source's asserts follow from (`HttpInvariant`).
What `on_headers_complete` answers is a function of the trace; every callback may also ask for a pause or fail. A
callback that is not installed is one that does nothing. `HttpHalts` says, one byte at a time, which callback is the first
that does not let the parser go on and what it leaves behind, and `Execute` is proved to stop exactly there. `HttpVerdict`
says which of a callback, an error in the text and the header limit comes first; the loop over a value counts its bytes
only behind it, after the callback if a CR ends it and before the callback if an LF does. The header
limit is a parameter, and one buffer together with it is below 2^32 bytes, as the 32-bit counter needs. Every way out of
`Execute`, errors included, leaves a trace that keeps to the grammar of callbacks.

The fast loop over header values tests the header limit only behind the value, and looks for the end of a value that
cannot be special in no more than `limit` bytes at a time. `HttpRuns.Cut` says when that search is cut off,
`HttpOverrun.FirstCut` where it happens first in a call, and `HttpOverrun.Overrun` what comes of it; `Execute` reports it
as `overran`, if and only if there is such a place.

**URLs** (`Url*.dfy`). The two automata of `http_parser_parse_url` as loops, proved against functions over the bytes;
parsing undoes composing, and accepted URLs are laid out in order.

**Skip list** (`SkipList*.dfy`). Linked nodes with `right` and `down`, as in the source. A ghost sequence of rows says
what the links mean, and a ghost map what the list holds. The outcome of `rand_level` is a parameter.

**Hash table** (`Hash*.dfy`). The slots, chains, recycled entries and the iterator inside the table, with all links
rewritten in place. A key is its bytes; a hash function is the default one with its seed, or any function of the bytes.
Merging also covers the case that both tables are the same one.

**JSON** (`Json*.dfy`). The text of a tree is defined once (`JsonText`). Both printers write it into arrays, one with an
allocation for each value and one in a growing buffer, the parser reads it back, and the minifier turns the formatted
text into the unformatted one in place. A number is an exact decimal.

**Thread pool** (`Pool*.dfy`). A system of steps: what a thread does between two points where others can get in. Any
thread may wake up at any time, `shutdown` may be set at any time, and the manager acts on what it read before. The task
queue is a class as well, whose methods are the stores under the lock.

**Allocators** (`Share*.dfy`, `BlockPool.dfy`). The shared-memory arena in cells of eight bytes, with links and headers
inside the chunks; the block pool with its chain of blocks, where the address of a new block is a parameter.

## Where the code falls short of what it is for

- The branch of the shared-memory allocator that files the rest of the arena in a list does not advance `start_free`, so
  the same bytes are in a list and still to be handed out. `ShareMem.CShareMemPool.Allocate` states both directions: the
  partition of the arena holds after a request if and only if it did not take that branch with bytes left.
  `ShareMem.RestIsFiled` comes there with two requests.
- A pause at the end of the headers writes the byte counter back with the last byte in it, and this byte is counted again
  when the parser goes on. Headers of exactly the limit are read without pauses and refused with one. Pausing is harmless
  for every choice of pauses if and only if the text is `HttpPauses.Roomy`: within the limit, with one byte to spare where
  headers end (`HttpPauses.CallRoomy`, `HttpPauses.Drive` and `HttpPauses.PauseBreaks`). `HttpExamples.SevenBytesBreak` is
  the case of seven bytes and a limit of seven.
- The value of a header can pass the header limit in one buffer, and a line end in it can be passed over unseen, if the
  callback for the value pauses the parser; otherwise the call ends in an error. `HttpOverrun.FirstCut` is the exact
  condition, and `HttpExamples.LimitPassed` an input.
- In a list of codings or connection options, a word that is a beginning of a name that is looked for hides the comma
  behind it, and behind an element that is empty, or begins with a tab or another character that tokens do not have,
  nothing is looked at any more: "c,chunked", "gzip,<tab>chunked" and "gzip,,chunked" do not count as chunked
  (`HttpLists.CodingMissed`). `HttpLists.CodingsTakeEffect` and `HttpLists.ToldExactly` are exact for all values on one
  line, as every such value is a list (`HttpLists.EveryValueIsList`), `HttpValues.CodingFlags` and `HttpValues.OptionFlags`
  for values on several lines, and `HttpLists.SeenExactly` says which elements are looked at.
- The body of a message is the one that section 3.3.3 of RFC 7230 calls for, by the first line and the list of headers alone
  (`HttpRules.Rules`), if and only if the message is `HttpRules.Regular` (`HttpRules.RulesFollowed`). There are five ways not
  to be: a 1xx, 204 or 304 response announces a body; "chunked" is the last coding and is not looked at; it is not the last
  coding and an earlier Transfer-Encoding has set the flag, which nothing clears; a header name only begins with
  "transfer-encoding", which is noted on that beginning; the length is one that is not taken, because it is too large or a
  tab stands behind it. `HttpDepartures` has an input for each. A name of that kind does no harm in a response whose body
  ends with the connection anyway, or beside a proper Transfer-Encoding. In all other cases, a length beside a coding, two
  lengths and a length that is no number included, the parser does what the standard asks for or leaves open.
- The length of a message is refused from a value on that is slightly below 2^64 - 1; the exact bound is in
  `HttpBodies.ContentLengthExact` and `HttpBodies.ChunkSizeExact`.
- `scl_dbuf_pool_alloc` adds four bytes to a request that is a multiple of four already (`BlockPool.TakenIsLeast`).

## Model

| member | source | states |
|---|---|---|
| HttpInvariant.TransitionKeeps | Module-Test/ModuleTest/http_parser.c:710-2132 | Every arm of the state switch, for every byte, keeps the parser invariant `Valid`: the length left is neither 0 nor the "no length" value in body states, only the header states that belong to a state occur in it, the letter index stays inside the name that is matched and inside its field, F_CHUNKED is set in the chunk states. |
| HttpInvariant.TransitionShaped | Module-Test/ModuleTest/http_parser.c:716-2132 | Every arm either takes the byte or goes back to the switch with a strictly smaller rank of the state, so the `reexecute` cycle ends; marks are set and callbacks made in the form that the surrounding loop relies on. |
| HttpInvariant.AssertsHold | Module-Test/ModuleTest/http_parser.c:1368-2103 | The invariant implies the conditions of the asserts on the header state, in the body states and in the chunk states. |
| HttpInvariant.EveryStateHandled | Module-Test/ModuleTest/http_parser.c:2111-2115 | No state and no byte leads to the default arm, "unhandled state". |
| HttpInvariant.NextGuessAgrees | Module-Test/ModuleTest/http_parser.c:969-1020 | A step of the method matcher, including the jumps to another guess, only leads to a method whose name begins with exactly the letters read so far. |
| HttpMethods.MethodIsKnown | Module-Test/ModuleTest/http_parser.c:925-1020 | From the start of a request the name of every method, followed by a space, is read as that method, with one message_begin. |
| HttpMethods.LettersAreName | Module-Test/ModuleTest/http_parser.c:925-1020 | Conversely, whatever letters are accepted as a method are exactly the name of the method that is recorded, or a prefix of it while it is being read. |
| HttpFeed.EmitJoins | Module-Test/ModuleTest/http_parser.c:102-127 | Two data callbacks of one kind in a row leave the same normalised trace as one callback with both pieces. |
| HttpFeed.FeedSplits | Module-Test/ModuleTest/http_parser.c:685-2140 | The byte-at-a-time meaning of a text is that of its first part followed by that of the rest, in every state, errors and upgrade exits included. |
| HttpFeed.TallySplits | Module-Test/ModuleTest/http_parser.c:149-160 | The header byte counter after a text, or its overflow, is that of the first part continued over the rest. |
| HttpFeed.StepKeeps | Module-Test/ModuleTest/http_parser.c:716-2132 | A whole byte, through all its repetitions of the switch, keeps the invariant, and the counter is restarted whenever a chunk size begins (the assert `nread == 1`). |
| HttpHalts.HaltMeans | Module-Test/ModuleTest/http_parser.c:79-133 | Where a callback pauses the parser in a byte, the byte goes on from there as if it had not; the counter left behind is the one from the beginning of the call or of the chunk, but behind on_headers_complete, where it has counted the byte that stays. |
| HttpHalts.HaltsMean | Module-Test/ModuleTest/http_parser.c:79-133 | The same for a text: what is left of it means, from the place of the pause, what it meant before. |
| HttpArm.CallbackAgrees | Module-Test/ModuleTest/http_parser.c:79-144 | With marks into the buffer and a byte offset, a callback delivers exactly the bytes that the byte-at-a-time trace says, whether or not the current byte belongs to them. |
| HttpArm.ArmFaithful | Module-Test/ModuleTest/http_parser.c:79-144 | One arm of the switch on marks and offsets does what one arm of the byte-at-a-time machine does, whatever the callbacks answer: it goes on, returns at the right offset after a pause, or fails. |
| HttpArm.ArmHalts | Module-Test/ModuleTest/http_parser.c:52-144 | An arm on marks and offsets is stopped by a callback exactly where the byte-at-a-time machine is, with the same fields, trace, error and counter: after a failure that is the current one, as SET_ERRNO stores it, after a pause the saved one. |
| HttpVerdict.VerdictMeans | Module-Test/ModuleTest/http_parser.c:641-2147 | The verdict on a text, which is decided byte by byte in the order in which the program counts, calls back and finds errors: a good end needs all of them to be well, and a callback, an error or an overflow is only blamed where there is one. |
| HttpOrder.ArmOrdered | Module-Test/ModuleTest/http_parser.c:710-2132 | Every arm, whether it goes on, pauses, fails or refuses the byte, leaves a trace that keeps to the grammar of callbacks. |
| HttpRuns.RunFeeds | Module-Test/ModuleTest/http_parser.c:1254-1389 | A run of bytes that only extend one data callback may be skipped: the text and the counter after the run are those that feeding it byte by byte gives. |
| HttpRuns.FieldLoop | Module-Test/ModuleTest/http_parser.c:1254-1389 | The fast loop over a header name stops at the first byte that is no token character or at the end, with the header state that the single steps reach. |
| HttpRuns.ValueLoop | Module-Test/ModuleTest/http_parser.c:1480-1704 | The fast loop over a header value, for every value: where it stops and in which fields; its search is cut off if and only if, after some bytes, the value cannot be special and `limit` bytes of plain text follow with more behind them; if not it reaches the state that the single steps reach. |
| HttpExecute.SkipField | Module-Test/ModuleTest/http_parser.c:1254-1389 | The header name loop with its marks and its counter: after it the remaining input means, in parser fields, trace, counter and callbacks that stop the parser, what it meant before. |
| HttpExecute.SkipValue | Module-Test/ModuleTest/http_parser.c:1480-1704 | The same for the header value loop, unless its search is cut off; then, which is so exactly under the condition above, it is where `ValueTail` says, with the bytes passed over still to be told. |
| HttpExecute.SkipBody | Module-Test/ModuleTest/http_parser.c:1937-1972 | The same for the jump over the bytes of a body or a chunk. |
| HttpExecute.FastForward | Module-Test/ModuleTest/http_parser.c:1254-1704 | Whichever fast loop the state selects, what is still to come stays the same, unless a value is cut off; what then holds is said, too. |
| HttpExecute.Reexecute | Module-Test/ModuleTest/http_parser.c:716-2132 | The `reexecute` cycle as a loop: it ends, its result agrees with one byte of the byte-at-a-time machine and stops where that stops, and the trace keeps to the grammar. |
| HttpParser.HttpParser.constructor | Module-Test/ModuleTest/http_parser.c:2217-2226 | A new parser is in the first state of its kind, with nothing read and no error, and ready for a call. |
| HttpParser.HttpParser.Execute | Module-Test/ModuleTest/http_parser.c:641-2147 | A call of `http_parser_execute` on any non-empty buffer, whatever the callbacks do. Which of a callback, an error in the text and the header limit ends it is the verdict on the buffer. Without an error the fields, the trace and the counter are those of the byte-at-a-time meaning of the buffer and every callback has let the parser go on; a pause or a failed callback is the first one that does not, and leaves exactly its fields, trace, counter and offset; other errors are that of the meaning, or a header overflow. If and only if a value is cut off, `overran` holds, and the call ends as `Overrun` says. In all cases, errors included, the trace keeps to the grammar. On an empty buffer it signals the end; in an error state it does nothing. |
| HttpParser.HttpParser.SignalEnd | Module-Test/ModuleTest/http_parser.c:658-682 | The end of the input completes a body that only the end closes, is silent between messages and is an error elsewhere; the state is not changed. |
| HttpParser.HttpParser.SetPaused | Module-Test/ModuleTest/http_parser.c:2538-2551 | Pausing and resuming set the error code and nothing else. |
| HttpParser.Flush | Module-Test/ModuleTest/http_parser.c:2126-2147 | The callbacks at the end of a buffer deliver exactly the bytes that are still marked, and none twice; there is at most one, and its reaction is the status. |
| HttpCuts.CallsFeed | Module-Test/ModuleTest/http_parser.c:685-2147 | A sequence of calls on the pieces of a text leaves the fields, trace and counter of the byte-at-a-time meaning of the whole text. |
| HttpCuts.SplitIndependence | Module-Test/ModuleTest/http_parser.c:685-2147 | Cutting the input into non-empty pieces anywhere changes nothing: one call on the whole ends without an error if and only if the calls on the pieces do, and then with the same parser fields, counter and normalised trace. |
| HttpPauses.CallRoomy | Module-Test/ModuleTest/http_parser.c:79-133 | If headers keep clear of the limit and no callback fails, a call ends as the meaning of the text does, or pauses with the same meaning and room left for the rest. |
| HttpPauses.PauseBreaks | Module-Test/ModuleTest/http_parser.c:1835-1865 | If they do not, there are callbacks, none of them failing, with which the call fails, or pauses and fails when it goes on. |
| HttpPauses.RoomyCounts | Module-Test/ModuleTest/http_parser.c:149-160 | Headers that keep clear of the limit are within it. |
| HttpExamples.SevenBytesBreak | Module-Test/ModuleTest/http_parser.c:1835-1865 | "GET /" and two line feeds with a limit of seven bytes: read without pauses, refused after a pause at the end of the headers. |
| HttpExamples.SevenBytes | Module-Test/ModuleTest/http_parser.c:149-160 | The same seven bytes without pauses are a complete request, within the limit. |
| HttpExamples.ValueLeads | Module-Test/ModuleTest/http_parser.c:149-160 | A new request parser comes to the state of the next row within a limit of ten, by a request line, a field name and the first byte of its value. |
| HttpExamples.LimitPassed | Module-Test/ModuleTest/http_parser.c:1495-1512 | A value that fed one byte at a time passes the limit, and a line feed in it, are told to the application as one value, and the paused parser is within the limit. |
| HttpPauses.Drive | Module-Test/ModuleTest/http_parser.c:79-133 | Pausing anywhere changes nothing: however callbacks pause, resuming at the returned offset until the text is used up ends, if headers keep clear of the limit, exactly as the unpaused meaning does, with its fields and trace or its error. |
| HttpGrammar.StepOrderly | Module-Test/ModuleTest/http_parser.c:717-2132 | Every byte keeps the trace in a place of the callback grammar that fits the state. |
| HttpGrammar.FeedOrderly | Module-Test/ModuleTest/http_parser.c:717-2132 | So does every text that is read without an error, from every state and trace that fit. |
| HttpGrammar.TraceRight | Module-Test/ModuleTest/http_parser.c:717-2132 | The trace of every text, errors included, keeps to the grammar, from every state and trace that fit. |
| HttpGrammar.TraceIsGrammatical | Module-Test/ModuleTest/http_parser.c:641-2147 | The trace of every text from a new parser, whether it ends in an error or not, is a prefix of messages: begin, URL or status data, field and value data in turn, one headers_complete, body data or chunk groups with trailer fields inside the last group, one message_complete; and the end of the input may close a body only where the grammar allows it. |
| HttpGrammar.LastMessage | Module-Test/ModuleTest/http_parser.c:455-463 | When a message completes and the connection is not to be kept alive, the parser is dead. |
| HttpGrammar.DeadIsSilent | Module-Test/ModuleTest/http_parser.c:719-727 | A dead parser makes no callback for any input ever again; only CR and LF are accepted. |
| HttpBodies.ContentLengthExact | Module-Test/ModuleTest/http_parser.c:1434-1568 | For every string of digits: it is accepted exactly when its value without the last digit is at most (2^64 - 11) / 10, and then the recorded length is the number the digits stand for, without wrapping and never the "no length" value. |
| HttpBodies.ChunkSizeExact | Module-Test/ModuleTest/http_parser.c:1989-2040 | The same for hexadecimal chunk sizes. |
| HttpBodies.IdentityBody | Module-Test/ModuleTest/http_parser.c:1937-1972 | A body of a known length: the bytes are delivered unchanged, the length left is exactly what is missing, and the message completes with the last byte and not before. |
| HttpBodies.ChunkOpens | Module-Test/ModuleTest/http_parser.c:2053-2069 | The line end of a chunk size is one chunk_header; size 0 starts the trailer. |
| HttpBodies.OneChunk | Module-Test/ModuleTest/http_parser.c:1989-2109 | A chunk as section 4.1 of RFC 7230 writes it, with any extension, is one chunk_header, its data and one chunk_complete. |
| HttpBodies.ChunkedDecodesEncoding | Module-Test/ModuleTest/http_parser.c:1989-2109 | Decoding inverts encoding: a list of non-empty chunks and the last chunk are delivered as exactly their data with one header and one complete each, and then one message_complete. |
| HttpHeaders.NameStepExpected | Module-Test/ModuleTest/http_parser.c:1263-1372 | The header state after one more letter of a name is the one that the whole lower-cased name calls for. |
| HttpHeaders.ExpectedSpecial | Module-Test/ModuleTest/http_parser.c:1263-1372 | A name calls for a special header state if and only if it is exactly one of the special names. |
| HttpHeaders.NamesAreRecognised | Module-Test/ModuleTest/http_parser.c:1204-1389 | In every run, at the colon the header state is special if and only if the lower-cased field name told to the application is the special name, proxy-connection counting as connection. |
| HttpHeaders.CodingCharFits | Module-Test/ModuleTest/http_parser.c:1577-1612 | The matcher for a coding keeps in step with the last element of the value read so far, across commas and blanks. |
| HttpHeaders.ChunkedOnlyIfLast | Module-Test/ModuleTest/http_parser.c:1717-1775 | In every run the byte that sets the chunked flag follows a Transfer-Encoding field whose last comma-separated element is "chunked", in any case and up to blanks around it. |
| HttpLists.CodingsTakeEffect | Module-Test/ModuleTest/http_parser.c:1577-1748 | For every value of a Transfer-Encoding on one line: the chunked flag is set if and only if the last element is looked at and is "chunked", in any case and with spaces around it; no other flag changes. |
| HttpLists.OptionsTakeEffect | Module-Test/ModuleTest/http_parser.c:1612-1748 | For every value of a Connection header on one line the flags afterwards are those that the elements that are looked at call for. |
| HttpLists.ToldExactly | Module-Test/ModuleTest/http_parser.c:1612-1690 | keep-alive, close and upgrade are each remembered if and only if an element that is looked at is that word, in any case. |
| HttpLists.CodingMissed | Module-Test/ModuleTest/http_parser.c:1577-1614 | In "c,chunked", "gzip,<tab>chunked" and "gzip,,chunked" the last coding is chunked and the flag is not set. |
| HttpLists.ListRead | Module-Test/ModuleTest/http_parser.c:1577-1690 | For every list of elements, empty ones and blanks of both kinds included, the header state at its end, and the flags, are those of a definition on whole elements. |
| HttpLists.EveryValueIsList | Module-Test/ModuleTest/http_parser.c:1427-1432 | Every value on one line is the text of such a list, its `Elements`. |
| HttpLists.ListIsItsValue | Module-Test/ModuleTest/http_parser.c:1427-1432 | Conversely the elements of the text of a list are those of the list, so a value is one list only. |
| HttpLists.SeenExactly | Module-Test/ModuleTest/http_parser.c:1577-1690 | When an element is looked at: behind one that was not, or behind one that was, is not empty, begins as a token, and is neither a beginning of a name that is looked for nor, in a Transfer-Encoding, such a name. |
| HttpLines.StatusExact | Module-Test/ModuleTest/http_parser.c:848-891 | A status code of any number of digits is accepted exactly when it is at most 999, and is recorded as its value. |
| HttpLines.StatusLineRead | Module-Test/ModuleTest/http_parser.c:767-924 | A status line is read back: its version and code are in the parser, its reason, which may be empty, is told as it was written. |
| HttpLines.RequestLineRead | Module-Test/ModuleTest/http_parser.c:925-1202 | A request line with any method and any target that goes with it is read back: method and version are in the parser, the target is told as it was written. |
| HttpLines.TargetRead | Module-Test/ModuleTest/http_parser.c:1022-1091 | A text without spaces and line ends is accepted as a target if and only if the URL automaton accepts it: a path, a whole URL, or the host of a CONNECT request. |
| HttpFields.LooksCodedIs | Module-Test/ModuleTest/http_parser.c:1333-1345 | A name is taken note of as a Transfer-Encoding if and only if its first seventeen letters are that name, in any case, whatever follows them. |
| HttpValues.HeaderTold | Module-Test/ModuleTest/http_parser.c:1204-1782 | Any header, with or without a value, with any blanks and empty lines in front of it and any lines that belong to it: it is told as it was written, and the parser has noted exactly what `Noted` says; or it is refused, exactly if it is a second length or a length that is not taken. |
| HttpValues.LengthLines | Module-Test/ModuleTest/http_parser.c:1434-1568 | A Content-Length over all its lines: it is taken exactly if it is digits up to the bound and then spaces, a fold beginning with any blank, and then its number is recorded; otherwise the error is that of the source. |
| HttpValues.ListFolds | Module-Test/ModuleTest/http_parser.c:1717-1775 | The flags behind a list over several lines: a line is read as a part of the list exactly if the line before ends with an empty element that is looked at. |
| HttpValues.CodingFlags | Module-Test/ModuleTest/http_parser.c:1577-1748 | Over any number of lines the chunked flag is set if and only if "chunked" is seen as the last coding. |
| HttpValues.OptionFlags | Module-Test/ModuleTest/http_parser.c:1612-1748 | Over any number of lines keep-alive, close and upgrade are each remembered if and only if they are seen. |
| HttpValues.HeadersTold | Module-Test/ModuleTest/http_parser.c:1204-1782 | Any number of headers: all are told in their order and noted one by one, up to the first that is refused. |
| HttpValues.NotesAre | Module-Test/ModuleTest/http_parser.c:1204-1782 | The notes of all headers in terms of the list: they are refused exactly if there are two lengths or one that is not taken, and if not each flag, the length and the note on codings say that some header of the list is such. |
| HttpFields.FoldsTold | Module-Test/ModuleTest/http_parser.c:1718-1730 | Lines that begin with a blank are told as parts of the value before. |
| HttpMessages.HeadTold | Module-Test/ModuleTest/http_parser.c:925-1935 | The first line of any request or response and any headers that are regular: what is told of them, and that the body the rules call for is awaited. |
| HttpMessages.MessageWithoutBody | Module-Test/ModuleTest/http_parser.c:455-463 | Any request or response without a body by the rules: its first line and its headers are told, it is complete, and the parser is ready for another message or dead as its version and its Connection headers say. |
| HttpMessages.MessageWithLength | Module-Test/ModuleTest/http_parser.c:925-1972 | A whole request or response with a Content-Length, whatever its other headers: its first line, its headers in order and exactly the bytes counted are told, then message_complete; then the same. |
| HttpMessages.MessageWithChunks | Module-Test/ModuleTest/http_parser.c:925-2109 | The same for a chunked request or response: exactly its chunks are told. |
| HttpMessages.MessageUntilClose | Module-Test/ModuleTest/http_parser.c:732-1980 | A response without a length: all bytes that come behind its headers are told as its body. |
| HttpFields.NameRead | Module-Test/ModuleTest/http_parser.c:1254-1372 | The header state, the matcher and the note on transfer codings after a name are functions of the lower-cased name; the note is taken exactly if some beginning of the name is "transfer-encoding". |
| HttpFraming.ChoiceAwaited | Module-Test/ModuleTest/http_parser.c:1794-1935 | What the parser awaits behind the headers is what its notes call for, an error for a length beside a coding included. |
| HttpRules.HeadersAwaited | Module-Test/ModuleTest/http_parser.c:1204-1935 | From the text of any list of headers and an empty line to what is awaited: the headers are told, and the choice is made on notes that are those of the list; or a header is refused. |
| HttpRules.ChosenByRules | Module-Test/ModuleTest/http_parser.c:1794-1935 | For every list of headers the choice is that of section 3.3.3 of RFC 7230, which is defined on the first line and the list alone, if and only if the message is `Regular`. |
| HttpRules.RulesFollowed | Module-Test/ModuleTest/http_parser.c:1204-1935 | The same from the text: behind the headers of a message the parser awaits what the rules say, is done, or refuses it, if and only if the message is `Regular`. |
| HttpRules.TakenIsStated | Module-Test/ModuleTest/http_parser.c:1434-1568 | A length that is taken is the number that the header states by the standard, blanks around it and folds included. |
| HttpRules.SeenIsLast | Module-Test/ModuleTest/http_parser.c:1577-1748 | "chunked" is only seen in a header whose last coding, by commas and up to case, blanks and empty elements, is chunked; over several lines, too. |
| HttpRules.EarlierSets | Module-Test/ModuleTest/http_parser.c:1717-1775 | Where the message is taken for chunked and its last coding is another one, an earlier Transfer-Encoding has set the flag. |
| HttpRules.OneCoding | Module-Test/ModuleTest/http_parser.c:1577-1748 | With one Transfer-Encoding and no length the rules are followed if and only if "chunked" is seen in it where it is the last coding. |
| HttpDepartures.BodilessAwaitsBody | Module-Test/ModuleTest/http_parser.c:1867-1935 | A 1xx, 204 or 304 response with a Content-Length of 5: no body by the rules, and the parser waits for five bytes. |
| HttpDepartures.LongNameRefused | Module-Test/ModuleTest/http_parser.c:1340-1346 | A request whose only header is "transfer-encoding-x: a" has no body by the rules and is refused. |
| HttpDepartures.EarlierCodingStays | Module-Test/ModuleTest/http_parser.c:1717-1775 | A Transfer-Encoding "chunked" and a second one "gzip": by the rules a request is refused and a response goes on until the close, and the parser reads chunks. |
| HttpDepartures.TabHidesChunked | Module-Test/ModuleTest/http_parser.c:1577-1612 | A Transfer-Encoding "gzip,<tab>chunked": chunks by the rules, and the parser refuses the request or reads the response until the close. |
| HttpDepartures.TabSpoilsLength | Module-Test/ModuleTest/http_parser.c:1545-1568 | A Content-Length "5<tab>": five bytes by the rules, and the parser refuses it. |
| HttpDepartures.LengthTooLarge | Module-Test/ModuleTest/http_parser.c:1545-1568 | Every length beyond the bound: that many bytes by the rules, and the parser refuses it. |
| HttpFraming.AnswersObeyed | Module-Test/ModuleTest/http_parser.c:1835-1895 | An answer of 1 or 2 from on_headers_complete ends the message at its headers, and 2, or an upgrade without a body, ends the call behind them; other answers are errors. |
| UrlParse.ScanLoop | Module-Test/ModuleTest/http_parser.c:2416-2490 | The loop over a URL computes the automaton `ScanAll` over its bytes. |
| UrlParse.HostLoop | Module-Test/ModuleTest/http_parser.c:2328-2407 | The loop over the host field computes the host automaton. |
| UrlParse.PortLoop | Module-Test/ModuleTest/http_parser.c:2506-2532 | The loop over the port computes its value, or rejects it beyond 65535. |
| UrlParse.Parse | Module-Test/ModuleTest/http_parser.c:2416-2536 | `http_parser_parse_url` as a whole, with its checks. |
| UrlCompose.ScanComposed | Module-Test/ModuleTest/http_parser.c:493-639 | A URL composed of accepted parts is scanned into those parts, with the whole authority as the host. |
| UrlCompose.HostComposed | Module-Test/ModuleTest/http_parser.c:2246-2407 | An authority composed of user information, name or bracketed address with zone, and port is split into exactly these. |
| UrlCompose.PortIsNumber | Module-Test/ModuleTest/http_parser.c:2506-2532 | For every string of digits the port is its decimal value, or rejected if that is above 65535. |
| UrlCompose.ParseUndoesCompose | Module-Test/ModuleTest/http_parser.c:2416-2536 | Parsing inverts composing (section 3 of RFC 3986): the fields have exactly the offsets and lengths of the parts, and the port is its number. |
| UrlLayout.ScanKeeps | Module-Test/ModuleTest/http_parser.c:2432-2490 | What the scan keeps for any input: fields in bounds, non-empty, disjoint and in order. |
| UrlLayout.HostKeeps | Module-Test/ModuleTest/http_parser.c:2328-2407 | What the host automaton keeps for any host field. |
| UrlLayout.AcceptedIsLaidOut | Module-Test/ModuleTest/http_parser.c:2416-2536 | For every accepted URL the fields are non-empty, in bounds, disjoint and from left to right; a schema comes with a host; CONNECT has a host and a port and nothing else; the port is the value of its digits. |
| SkipList.SkipList.constructor | C/source/datastruct/source/skiplist.c:163-172 | A new list is one empty row and holds the empty map. |
| SkipList.SkipList.SearchData | C/source/datastruct/source/skiplist.c:51-61 | The search that stops in the first row that has the key finds the data of the key if and only if the map has it. |
| SkipList.SkipList.SearchDataUpdate | C/source/datastruct/source/skiplist.c:66-82 | The search down to the bottom row leaves in `update`, for each row, the last node left of the key, and finds the key if and only if the bottom row has it. |
| SkipListColumns.GainEmptyTopLines | C/source/datastruct/source/skiplist.c:86-98 | Taking over the links of the top node adds as many empty rows as asked for and leaves the others as they were, all links right. |
| SkipListColumns.CleanEmptyTopLines | C/source/datastruct/source/skiplist.c:102-115 | Removes exactly the empty rows on top, down to one row, and leaves the others as they were. |
| SkipListColumns.AddKeyColumn | C/source/datastruct/source/skiplist.c:119-133 | Links a node into each of the lowest rows behind the node in `update` and the nodes to each other; the rows stay ascending, subsets of the rows below, and linked. |
| SkipListColumns.RemoveKeyColumn | C/source/datastruct/source/skiplist.c:137-146 | Takes the key out of every row that has it, and nothing else. |
| SkipListLinks.InsertNode | C/source/datastruct/source/skiplist.c:121-127 | The two writes that link a node in give the row with the node at its place; all other links stay right. |
| SkipListLinks.RemoveNode | C/source/datastruct/source/skiplist.c:139-145 | The write that links a node out gives the row without it; all other links stay right. |
| SkipListLinks.LinkDown | C/source/datastruct/source/skiplist.c:128-131 | A link down within the new column disturbs no other link. |
| SkipList.SkipList.Get | C/source/datastruct/source/skiplist.c:185-192 | Returns what the map has for the key, or NULL. |
| SkipList.SkipList.Put | C/source/datastruct/source/skiplist.c:195-225 | For every outcome of the random height: the map is updated at the key, the old value or NULL is returned, a new key gets a column of exactly that height while every other column keeps its height, the level grows exactly to the height of a taller new column, and the whole structure stays valid. |
| SkipList.SkipList.Remove | C/source/datastruct/source/skiplist.c:227-245 | The map loses the key, the old value or NULL is returned, a key that is absent changes nothing, every other column keeps its height, and the structure stays valid. |
| SkipList.SkipList.Contains | C/source/datastruct/source/skiplist.c:247-251 | True if and only if the map has the key. |
| SkipList.SkipList.Count | C/source/datastruct/source/skiplist.c:253-256 | The size of the map. |
| SkipList.SkipList.KeySet | C/source/datastruct/source/skiplist.c:258-267 | Writes the first min(length, count) keys in order and nothing behind them. |
| SkipList.SkipList.ValueSet | C/source/datastruct/source/skiplist.c:269-278 | Writes the values of the first min(length, count) keys, in the order of the keys. |
| SkipListHeights.GrownHeights | C/source/datastruct/source/skiplist.c:119-133 | A new column that starts in row `from` has a node in each of the rows from there down; the columns of all other keys keep their heights. |
| SkipListHeights.ShrunkHeights | C/source/datastruct/source/skiplist.c:137-146 | Removing a column leaves the heights of all others. |
| SkipListHeights.LiftedHeights | C/source/datastruct/source/skiplist.c:86-115 | Empty rows on top, added or removed, change no height. |
| SkipList.FirstKeysUnique | C/source/datastruct/source/skiplist.c:258-278 | There is only one sequence of first keys of a given length, so the two methods above are determined by the map. |
| SkipList.LevelIsTallest | C/source/datastruct/source/skiplist.c:157-161 | `level` is the height of the tallest column, or 1 in an empty list. |
| SkipList.ColumnIsSolid | C/source/datastruct/source/skiplist.c:8-19 | A column fills the rows from some row down to the bottom one without gaps. |
| SkipList.ColumnSharesData | C/source/datastruct/source/skiplist.c:32-37 | Going down from a node leads to the node with the same data in the next row. |
| SkipList.NowhereElse | C/source/datastruct/source/skiplist.c:51-61 | A key that is not in the bottom row is in no row. |
| HashKeys.HashDefault | C/source/datastruct/source/scl_hashmap.c:205-263 | Both loops of the default hash function compute "times 33 plus byte" modulo 2^32 over the bytes of the key, and the length of the key, for counted keys and for strings. |
| HashKeys.StringIsCounted | C/source/datastruct/source/scl_hashmap.c:249-254 | A string and the same bytes with their length are the same key. |
| Bits.SlotIsRemainder | C/source/datastruct/source/scl_hashmap.c:292 | With a mask 2^k - 1, `hash & max` is the remainder by the number of slots. |
| Bits.MaskIsPower | C/source/datastruct/source/scl_hashmap.c:74 | A mask is one less than a power of two. |
| HashTables.HashTable.constructor | C/source/datastruct/source/scl_hashmap.c:88-117 | A new table has sixteen empty slots and holds the empty map. |
| HashTables.HashTable.Scan | C/source/datastruct/source/scl_hashmap.c:291-302 | The scan of a chain finds the entry of the key, and the link that leads to it, if and only if the map has the key; otherwise it is at the end of the chain. |
| HashTables.HashTable.Enter | C/source/datastruct/source/scl_hashmap.c:305-322 | A new key goes to the end of its chain, in a recycled entry if there is one and in a newly made one otherwise. |
| HashTables.HashTable.Delete | C/source/datastruct/source/scl_hashmap.c:383-390 | The entry leaves its chain and goes in front of the recycled ones; the map loses its key. |
| HashTables.HashTable.Set | C/source/datastruct/source/scl_hashmap.c:375-401 | Sets or, for NULL, deletes the key in the map; afterwards `count` is at most `max`, which is doubled exactly when it has to be; an entry is made only for a new key when none is recycled. |
| HashTables.HashTable.Get | C/source/datastruct/source/scl_hashmap.c:363-373 | Returns what the map has for the key, or NULL. |
| HashTables.HashTable.Count | C/source/datastruct/source/scl_hashmap.c:403-406 | The size of the map. |
| HashTables.HashTable.Next | C/source/datastruct/source/scl_hashmap.c:123-134 | Leads to the next entry of the table in order, past empty slots, or says that there is none; the current entry is not needed any more. |
| HashTables.HashTable.Begin | C/source/datastruct/source/scl_hashmap.c:136-149 | Leads to the first entry, with all others still to come. |
| HashTables.HashTable.FileAgain | C/source/datastruct/source/scl_hashmap.c:196-200 | Filing each entry in the new slots while the iteration goes on over the old chains reaches every entry once, and the new chains hold the same map. |
| HashTables.HashTable.ExpandArray | C/source/datastruct/source/scl_hashmap.c:188-203 | Doubling keeps the map, the entries and the recycled ones, and `max` becomes 2 * max + 1. |
| HashTables.HashTable.Clear | C/source/datastruct/source/scl_hashmap.c:408-413 | Deleting the current entry all through an iteration empties the table; every entry is recycled and none is lost. |
| HashTables.HashTable.AllAccountedFor | C/source/datastruct/source/scl_hashmap.c:305-310 | Live and recycled entries together are all that were ever made: their number is `count` plus the length of the free list. |
| HashChains.FlatLists | C/source/datastruct/source/scl_hashmap.c:123-134 | The entries in the order of iteration have distinct keys, are as many as the map has keys, and hold exactly the map. |
| HashMerge.Copy | C/source/datastruct/source/scl_hashmap.c:325-361 | The copy is a valid table of its own with the same map, hash function and size, in an array of `count` new entries; the original is unchanged. |
| HashMerge.Merge | C/source/datastruct/source/scl_hashmap.c:415-518 | The result holds exactly the union, with the merger's result or the overlay's value on common keys; both inputs are unchanged, and the number of slots is chosen as the source does, with `count` at most `max`. The overlay may have any hash function and seed, and may be the base itself. |
| HashMerge.MergeOne | C/source/datastruct/source/scl_hashmap.c:488-516 | One overlay entry: the value of a key that is there is replaced, a new key takes the next entry of the block. |
| HashMerge.Room | C/source/datastruct/source/scl_hashmap.c:461-464 | The block of base.count + overlay.count entries is never used up too early. |
| HashMerge.MergedMax | C/source/datastruct/source/scl_hashmap.c:455-458 | The size that is chosen is a mask and is at least the number of keys of the union. |
| HashMerge.UnionStep | C/source/datastruct/source/scl_hashmap.c:488-516 | Adding overlay entries one by one gives the union. |
| JsonReader.ReadNumber | Cpp/source/file/source/CJson.c:96-115 | The loops over sign, digits, fraction and exponent read the decimal number that `ParseNumber` defines. |
| JsonReader.ReadString | Cpp/source/file/source/CJson.c:207-249 | The loop that unescapes a string computes `ParseString`. |
| JsonReader.ReadValue | Cpp/source/file/source/CJson.c:357-369 | The selection by the first characters computes `ParseValue`. |
| JsonReader.ReadArray | Cpp/source/file/source/CJson.c:406-431 | The loop that appends element after element reads the array that the recursive definition reads, or fails when it does. |
| JsonReader.ReadObject | Cpp/source/file/source/CJson.c:514-547 | The same for objects. |
| JsonReader.Parse | Cpp/source/file/source/CJson.c:323-337 | `cJSON_ParseWithOpts`, with and without the demand that nothing follows. |
| JsonRoundTrip.RoundTrip | Cpp/source/file/source/CJson.c:323-658 | For every tree of plain values, formatted or not, parsing its text consumes all of it and gives the tree back. |
| JsonRoundTrip.TextDetermines | Cpp/source/file/source/CJson.c:372-658 | Different trees have different texts. |
| JsonRoundTrip.ValueRead | Cpp/source/file/source/CJson.c:357-369 | The text of a value is read back at any place of any text, if what follows does not go on a number. |
| JsonRoundTrip.ElementsRead | Cpp/source/file/source/CJson.c:416-429 | The same for the elements of an array. |
| JsonRoundTrip.MembersRead | Cpp/source/file/source/CJson.c:525-545 | The same for the members of an object. |
| JsonRoundTrip.NumberRead | Cpp/source/file/source/CJson.c:96-115 | Every integer is read back from its decimal digits, the least one included. |
| JsonRoundTrip.QuotedRead | Cpp/source/file/source/CJson.c:192-249 | Every string without NUL is read back from its quoted form. |
| JsonRoundTrip.Utf16BecomesUtf8 | Cpp/source/file/source/CJson.c:216-240 | Complete escapes of one code point, one unit or a surrogate pair, are decoded to its bytes. |
| JsonRoundTrip.Utf8IsStandard | Cpp/source/file/source/CJson.c:230-239 | These bytes are the encoding of section 3 of RFC 3629, and no other form. |
| JsonRoundTrip.StringFits | Cpp/source/file/source/CJson.c:197-200 | With complete escapes the unescaped string fits in the space that the first loop counts. |
| JsonPrint.NeedsEscapes | Cpp/source/file/source/CJson.c:256 | The first loop finds out whether any character has to be escaped. |
| JsonPrint.EscapedLength | Cpp/source/file/source/CJson.c:277 | The counting loop gives the length of the escaped string. |
| JsonPrint.PutEscaped | Cpp/source/file/source/CJson.c:283-304 | The writing loop writes exactly the escaped string, inside the space that was counted. |
| JsonPrintAlloc.PrintValue | Cpp/source/file/source/CJson.c:387-403 | The allocating printer gives exactly the text of the value, with a NUL behind it, for every depth and layout. |
| JsonPrintAlloc.PrintArray | Cpp/source/file/source/CJson.c:434-511 | The same for arrays; all writes are inside the allocated length. |
| JsonPrintAlloc.PrintObject | Cpp/source/file/source/CJson.c:550-658 | The same for objects. |
| JsonPrintAlloc.ComposeMembers | Cpp/source/file/source/CJson.c:639-650 | The loop over names and values writes the members in order. |
| JsonPrintAlloc.ElementsFit | Cpp/source/file/source/CJson.c:482-485 | The length that is added up is enough for the elements. |
| JsonPrintAlloc.MembersFit | Cpp/source/file/source/CJson.c:617-623 | The length that is added up is enough for the members. |
| JsonBuffer.PrintBuffer.Ensure | Cpp/source/file/source/CJson.c:121-136 | Afterwards the wanted characters fit behind the offset, what was written is kept, and a new buffer is a power of two less than twice what is needed. |
| JsonBuffer.PrintBuffer.Update | Cpp/source/file/source/CJson.c:138-144 | The new offset is the end of the string that was written. |
| JsonBuffer.PrintBuffer.PrintValue | Cpp/source/file/source/CJson.c:372-386 | The text of the value stands behind what was written before, which is unchanged, with a NUL behind it; every write is inside the buffer of the moment. |
| JsonBuffer.PrintBuffer.PrintArray | Cpp/source/file/source/CJson.c:454-469 | The same for arrays. |
| JsonBuffer.PrintBuffer.PrintObject | Cpp/source/file/source/CJson.c:570-608 | The same for objects. |
| JsonBuffer.PrintBuffered | Cpp/source/file/source/CJson.c:345-353 | For every first size from 1 on the buffered printer gives the same text as the allocating one. |
| JsonGrow.Pow2gtIsLeast | Cpp/source/file/source/CJson.c:117 | For 1 to 2^30, smearing the bits gives the least power of two that is not below the argument. |
| JsonGrow.LeadDoubles | Cpp/source/file/source/CJson.c:117 | One shift and or doubles the number of leading ones. |
| JsonMinify.Minify | Cpp/source/file/source/CJson.c:735-750 | In place, the text becomes its minified form with a NUL behind it; comments, blanks and literals are treated as the loop treats them. |
| JsonMinify.MinifyShortens | Cpp/source/file/source/CJson.c:735-750 | Minifying the formatted text of a tree gives exactly its unformatted text. |
| JsonMinify.TextMinified | Cpp/source/file/source/CJson.c:735-750 | The same inside any text and at any depth. |
| PoolRing.PutAppends | Cpp/unclassify/threadpool.c:376-379 | Storing at `rear` appends to the queue. |
| PoolRing.TakeRemovesOldest | Cpp/unclassify/threadpool.c:320-324 | Reading at `front` takes the oldest task. |
| PoolRing.RearIsModular | Cpp/unclassify/threadpool.c:376-379 | In a valid queue `rear` is (front + size) mod max. |
| PoolRing.TaskQueue.Add | Cpp/unclassify/threadpool.c:376-379 | The stores of `threadpool_add_task` append one task. |
| PoolRing.TaskQueue.Remove | Cpp/unclassify/threadpool.c:320-324 | The stores of a worker remove the oldest task. |
| PoolProtocol.CreateInv | Cpp/unclassify/threadpool.c:75-144 | A new pool satisfies the invariant. |
| PoolProtocol.StepKeeps | Cpp/unclassify/threadpool.c:206-386 | Every step of every thread, spurious wake-ups, stale snapshots of the admin and a shutdown at any moment included, keeps the invariant. |
| PoolProtocol.RunKeeps | Cpp/unclassify/threadpool.c:206-386 | So does every run. |
| PoolProtocol.PoolIsSafe | Cpp/unclassify/threadpool.c:206-386 | In every run: accepted tasks are the taken ones followed by the queued ones in order, taken ones are finished or in hand, no task is taken from an empty queue or stored outside the ring, min <= live <= max, `live` counts the workers that have not retired, and `busy` with the ended ones is at most `live`. |
| PoolProtocol.LockExcludes | Cpp/unclassify/threadpool.c:281-386 | In every run at most one thread is inside the lock. |
| ShareMem.CShareMemPool.constructor | C/source/memory/source/c_sharemem.c:16-40 | A new arena is aligned, has the size that was asked for with one header, and nothing in use. |
| ShareMem.CShareMemPool.Allocate | C/source/memory/source/c_sharemem.c:42-79 | Returns a chunk that was not live, of the rounded size, with its size in the header, whenever its list or the arena has one, and NULL otherwise; the chunk is the first of its list if there is one, else the first of a new stock of twenty or as many as fit; the partition of the arena holds afterwards exactly when the request does not find its list empty and a rest of the arena that is too small but not empty. |
| ShareMem.RestIsFiled | C/source/memory/source/c_sharemem.c:185-195 | Two requests for 108 bytes in an arena of 200: the first is served, after the second the arena cannot be parted any more. |
| ShareMem.CShareMemPool.DeAllocate | C/source/memory/source/c_sharemem.c:84-94 | A live chunk becomes the first of the list for its size; everything else stays. |
| ShareMem.CShareMemPool.Refill | C/source/memory/source/c_sharemem.c:110-155 | A new stock of up to twenty chunks is linked into a list that was empty, but for the first chunk. |
| ShareMem.CShareMemPool.Link | C/source/memory/source/c_sharemem.c:139-152 | The loop links the second to the last chunk, and ends the list. |
| ShareMem.CShareMemPool.ChunkAlloc | C/source/memory/source/c_sharemem.c:160-198 | Hands out the wanted number of chunks, or else as many as fit; if none fits the rest goes to a list while it stays in the arena. |
| ShareMem.EveryByte | C/source/memory/source/c_sharemem.c:42-198 | Every byte of the arena is in exactly one live chunk, or in one chunk of one list, or not yet handed out. |
| ShareMem.LiveApart | C/source/memory/source/c_sharemem.c:42-198 | Live chunks are aligned to 8, inside the arena and do not overlap. |
| ShareTiles.Taken | C/source/memory/source/c_sharemem.c:65-79 | Taking the first chunk of a list keeps the partition. |
| ShareTiles.Given | C/source/memory/source/c_sharemem.c:84-94 | Giving a live chunk back keeps the partition. |
| ShareTiles.Refilled | C/source/memory/source/c_sharemem.c:110-155 | A refill keeps the partition. |
| ShareTiles.StartNotListed | C/source/memory/source/c_sharemem.c:185-195 | In a partition no list begins where the unused rest of the arena begins; so the branch that files the rest breaks it. |
| BlockPool.Pool.constructor | C/source/memory/source/mempool.c:26-76 | A new pool has one block that stays, with nothing live. |
| BlockPool.Pool.NewBlock | C/source/memory/source/mempool.c:152-172 | A new block goes to the front and changes no account but `huge`. |
| BlockPool.TakenIsLeast | C/source/memory/source/mempool.c:179 | The amount a request takes is the least multiple of four that holds it if and only if the request is not a multiple of four itself; four bytes take eight. |
| BlockPool.Pool.Alloc | C/source/memory/source/mempool.c:174-200 | The new allocation was not live, is as long as the rounded request, and comes from the block in front exactly when it has room, else from a new block of the right size; all accounts follow: `used` of its block, `off`, `huge`. |
| BlockPool.Pool.Free | C/source/memory/source/mempool.c:103-149 | A live allocation ends, and only that; its block is released exactly when it was the last one and the block is not kept; an address in no block is refused. |
| BlockPool.LiveApart | C/source/memory/source/mempool.c:103-200 | Live allocations lie inside one block of the chain each and do not overlap. |
| BlockPool.UsedFits | C/source/memory/source/mempool.c:10-12 | In a block of less than 128 KiB the counter `used` fits in a `short`. |
| BlockPool.ReleasedAccounts | C/source/memory/source/mempool.c:132-142 | Releasing a block without live allocations changes `off` and `huge` by what it held, and no live allocation. |

## Left out

HTTP parser and URLs:

- The lenient and the non-strict build, and the tables of status and error texts.
- Callbacks that change the parser, and what a callback sees of the fields while it is called.
- Signalling the end of the input twice: the first signal leaves the state as it was, so a second one completes the message again.
- HttpCuts.SplitIndependence: does not cover texts in which a message switches to another protocol, because the caller has to stop there; `HttpParser.HttpParser.Execute` says where each call stops.
- HttpPauses.Drive: does not cover such texts either, and says nothing about `nread`, which the source does not save in most pauses.
- HttpGrammar.TraceIsGrammatical: is about texts fed one byte at a time; for calls, with pauses and failing callbacks, the same is in the contract of `HttpParser.HttpParser.Execute`.
- HttpGrammar.FeedOrderly: is about texts that are read without an error, because a place in the grammar goes with the state that is reached; for the others see `HttpGrammar.TraceRight`.
- HttpHeaders.ChunkedOnlyIfLast: states one direction, for folded values as well; when the other one holds is stated exactly in `HttpLists.CodingsTakeEffect` and `HttpValues.CodingFlags`.
- HttpValues.HeaderTold: is about lines that end in CR and LF; the parser also takes an LF alone, which the standard leaves open to it.
- HttpRules.RulesFollowed: is about messages to which the application answers 0 and that do not switch to another protocol or connect; what is awaited in the other cases is in `HttpFraming.AnswersObeyed`. Codings are told apart at every comma; a quoted parameter of a coding cannot be mistaken for "chunked" by that, because it ends with its quote.
- HttpMessages.HeadTold: is about messages that are regular and to which the application answers 0; for the others `HttpRules.HeadersAwaited` says what is awaited. Trailers behind the last chunk are not part of `HttpMessages.MessageWithChunks`.
- UrlCompose.ParseUndoesCompose: is for URLs below 65536 bytes, because offsets and lengths have 16 bits.
- UrlLayout.AcceptedIsLaidOut: is for URLs below 65536 bytes for the same reason.

Skip list and hash table:

- Freeing nodes, `skip_list_destroy` and `scl_hash_destroy`; the quality of `rand_level` and of hash functions.
- Failing allocations; keys whose memory the caller changes later.
- HashTables.HashTable.Count: counts without bound, because tables of 2^32 entries are out of reach of the source's types.
- Iterators made by the caller, `scl_hash_do` and the accessors of an iterator; only the iterator inside the table is modelled.

JSON:

- Texts of numbers that are not integers, rounding to `double`, and printing with `%f` and `%e`.
- The place of an error, failing allocations, and looking up, editing and duplicating items.
- Escapes that are cut off by the end of the text, where the source reads on behind the NUL; the model refuses such texts.
- JsonRoundTrip.RoundTrip: is for integers that fit `int` and for strings without NUL, because other numbers are printed through `double` and a string ends at its NUL.
- JsonMinify.Minify: asks that string literals and comments are closed, because the source runs over the end of the text otherwise.
- JsonBuffer.PrintBuffered: is for texts up to 2^30 characters, because the sizes are of type `int` and doubling them would overflow.

Thread pool:

- Liveness, wake-ups on shutdown, the order of joins, the reuse of a thread's slot, and the freeing of old arguments.
- PoolProtocol.PoolIsSafe: does not say that every accepted task is run, because a thread that retires can take the wake-up meant for a task.

Allocators:

- Mapping and unmapping memory, user data in chunks, and destroying pools; `c_mempool.c`, whose free files chunks under other sizes.
- ShareMem.CShareMemPool.Allocate: leaves out requests of 4093 to 4096 bytes, because they use a list behind the last one; and what happens after the partition is lost.
- BlockPool.Pool.Free: leaves out freeing twice and addresses inside a block that were not handed out, because the source takes them for live allocations.
- BlockPool.UsedFits: the counter is unbounded in the model and fits a `short` only in blocks below 128 KiB, because the source does not check it.
