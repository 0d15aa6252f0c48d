# Verification of the core of levent

levent is a Lua networking library: coroutines over the libev event loop, with an HTTP parser, a
BSON codec and a bounded queue. This project models the parts of it that carry invariants and
proves them. Every module stands beside one source file or one part of it.

**HTTP parser** (`deps/http-parser/http_parser.c`, built with `HTTP_PARSER_STRICT=0`, and its sink
`src/lua-http-parser.c`). `HttpCases` is the big switch as a function of the parser and one byte,
`HttpMachine` runs it byte by byte, and `HttpLimit` adds the limit on the size of the header as the
source counts it; that is the specification. `HttpExecute.HttpParser` is the parser object: its
`Execute` walks over a buffer with marks and with the bulk loops of the source (header names, header
values with the `memchr` skip, both kinds of bodies) and is proved to compute exactly `Limited` of
`HttpLimit`, field for field. The theorems are: how a stream is cut into buffers does not matter,
and exactly when it can be seen (`HttpStreams`, from `HttpSplit` and `HttpTokens`); when the header
is found too long, and what `nread` is (`HttpCounting`), and what a cut does to that (`HttpCuts`); no
assertion fails (`HttpInvariant`); messages are properly framed and no body byte is lost, and exactly
when a message is begun or completed more than once (`HttpFraming`); keywords and numbers are read
for what they are (`HttpKeywords`), and so are the values of Transfer-Encoding and Connection
(`HttpValues`), on however many lines they stand (`HttpLines`), where `HttpAscii` says which bytes the
tables and macros for characters stand for; requests and responses that are written down are reported
as what they are, in whatever buffers they arrive (`HttpRoundTrip`, from `HttpReads`, `HttpFirstLines`,
`HttpMessages` and `HttpBodies`); which versions and status codes are accepted, and where a request
line ends (`HttpStartLines`); that LF alone ends a line, what becomes of empty and continued values,
where a switched protocol stops the parser, and what callbacks decide (`HttpVariants`); the Lua table
does not depend on the cuts (`HttpLuaSink`); and a URL is split into its parts (`HttpUrl`), which stand
between the right delimiters (`HttpUrlParts`) and are found again when they have been joined
(`HttpUrlJoin`).

**libev** (`deps/libev/ev.c` with the 4-heap and cached times, `deps/libev/ev_poll.c`). `EvHeap` is
the heap on sequences, `EvTimers` the heap in place with back pointers, `EvPending` the pending
queues, `EvReify` the feeding of many watchers at once, `EvLoop` the loop with its timers, `EvWait`
the length of a wait and `periodic_recalc`, `EvPeriodic` the heap of periodics, `EvPoll` the poll
backend, `EvFd` the reconciliation of interests, and `EvAsync` the wakeup of the loop by other
threads and signal handlers, as a transition system with one memory access per step.

**BSON** (`cext/lua-bson.c`). `BsonFormat` says what the bytes of a value are, `BsonEncode.Bson` is
the growing buffer with lengths written back, `BsonDecode` is the decoder as a function and the
round trip, `BsonElements` says what the decoder makes of single elements and which values are encoded,
and has examples of the BSON specification, `BsonShapes` says which bytes are decoded at all,
`BsonReader.Reader` is the decoder as it runs, and `BsonIndex` the index and the update in place.

**Queue** (`levent/queue.lua` on `levent/loop.lua` and `levent/hub.lua`). `LeventQueue` has the
queue as a transition system of coroutines, hub and deferred callbacks, and as an object whose
methods are proved to take these steps.

Where a class stands for an object, a function (`View`, `Session`, `Contents`) gives its value, the
methods say what the value becomes, and the theorems are about the functions on values. `Common`
holds what several modules share.

## What the proofs brought to light

- Cutting a stream can be seen in one case, and exactly in that case: when the bytes behind the cut
  make a token fail that was open at the cut, which only URLs, header names and Content-Length can
  (`HttpTokens.TokenFails`). In one piece the token is dropped, in two pieces its first part has
  been reported (`HttpStreams.CutOnce`, `HttpSplit.CutInsideFailingUrl`).
- The table `unhex` has 128 of 256 initialisers, so a byte from 128 on is read as the digit 0 of a
  chunk size (`HttpKeywords.ChunkSizeDigits`).
- `nread` is one too high exactly if the last byte of a buffer was read by the loop over a header
  name or value, which goes on (`HttpCounting.LimitedIsExecute`). Only then does a cut matter to the
  limit: two calls find too long what one does, and also a header of which some byte is one too many
  when it is counted one higher (`HttpCuts.CutWithoutSurplus`, `HttpCuts.CutWithSurplus`). With
  `nread` two below the limit, "x" and ":" are too long in two buffers and not in one
  (`HttpCuts.CutMakesTooLong`).
- A request line is accepted with any four bytes in place of "TTP/" (`HttpStartLines.VersionRecognition`), and a
  version like 2.0 counts as older than 1.1 for whether a connection persists
  (`HttpRoundTrip.PersistsIs`).
- F_CHUNKED is set only by a value that is "chunked" as a whole and on one line, so not by
  "gzip, chunked" (`HttpValues.TransferEncodingValue`). A list of words in a Connection value is heard
  as those words if and only if no word but the last is a beginning of a keyword and each but the
  first begins with a token character (`HttpValues.ListIsHeard`): "k,close", "x,,close" and, with a
  tabulator, "x,<TAB>close" do not close the connection (`HttpValues.CloseSwallowed`,
  `HttpValues.CloseUnheard`). At the end of a line that is continued, a word that no comma has ended is
  forgotten (`HttpValues.Forgotten`).
- `on_message_begin` is run again, for the same message, if and only if it was run in `s_start_res`,
  by a CR or LF before the status line (`HttpFraming.BeginsAgain`, `HttpFraming.BegunAgain`,
  `HttpFraming.StrayLineEnd`). `on_message_complete` is not followed by the next `on_message_begin` if
  and only if the end of the stream ran it; each further end runs it again, and each further byte is
  body data (`HttpFraming.CompletedAgain`, `HttpFraming.EndsAgain`, `HttpFraming.EndedTwice`).
- A pass of the loop takes what was sent before, also while others send, exactly unless the loop
  decides that no write was skipped and the pipe is not readable. It can decide so wrongly, between
  two accesses of a sender of the other kind, which takes back the `pipe_write_skipped` that an earlier
  sender has set (`EvAsync.PassAmidSenders`, `EvAsync.PassedBy`); then that sender is about to write, or
  has written, to the pipe (`EvAsync.WhyPassedBy`).
- The slow path of `downheap` looks at a fourth child that cannot be there.
- Stopping a timer that does not repeat clears what was pending for it, so `timers_reify` replaces
  pending events of such a timer by `EV_TIMER` (`EvLoop.Loop.TimersReify`).
- The encoder looks for the NUL between the two strings of a regular expression from the end of the
  data, over all bytes but the last. It finds it exactly if there is one; otherwise the length of
  the first string is a negative number, which becomes a huge `size_t` (`BsonEncode.SplitRegex`,
  `BsonFormat.PatternAlone`).

## Model

| member | source | states |
|---|---|---|
| HttpStreams.CutOnce | deps/http-parser/http_parser.c:626-2084 | With the limit and the surplus in nread: if a first call reads all of a and the connection goes on, a second call with b ends like one call with a + b, with the same parser, error, outcome and sum of bytes, as long as neither finds the header too long; the joined traces are equal if and only if the bytes of b do not make the token fail that is open after a |
| HttpStreams.CutAnywhere | deps/http-parser/http_parser.c:626-2084 | The same for a stream cut into any number of non-empty buffers, with the condition at every cut |
| HttpStreams.CutOnObjects | deps/http-parser/http_parser.c:626-2084 | Two parser objects in the same state, one given a and then b, the other both at once, end alike; their callbacks agree exactly under that condition |
| HttpStreams.CutsFitUnderLimit | deps/http-parser/http_parser.c:154-161 | A stream that fits under the limit, nread, its bytes and its cuts taken together, is not found too long, whether it is cut or not |
| HttpTokens.FailsInsideIff | deps/http-parser/http_parser.c:655-690 | The parser fails inside an open token if and only if the bytes make it: a header name whose first byte that is no token is not a colon, a Content-Length with a byte that is neither a space nor a digit that fits, a URL with a dead end or with its end in one of the four opening states |
| HttpSplit.SplitInvariance | deps/http-parser/http_parser.c:626-2084 | Without the limit, on the machine: if a first call reads all of a and the connection goes on, a second call with b ends like one call with a + b; the joined traces are equal, or, exactly if the parser fails inside the token open at the cut, the two calls have reported more bytes |
| HttpSplit.CutInvariance | deps/http-parser/http_parser.c:626-2084 | The same, on the machine, for a stream cut into any number of non-empty buffers |
| HttpSplit.CutInsideFailingUrl | deps/http-parser/http_parser.c:988-1100 | A concrete request whose URL fails shows the one cut that can be seen |
| HttpSplit.RunAppend | deps/http-parser/http_parser.c:680-2048 | Reading two pieces one after the other is reading them joined |
| HttpSplit.RunCrossing | deps/http-parser/http_parser.c:655-690 | Starting again at a cut inside a token, with a new mark, only moves the beginning of the reported data |
| HttpSplit.CaseMarks | deps/http-parser/http_parser.c:655-690 | Every case of the switch keeps the discipline of the marks: a mark is set exactly in the states that set it again at the head of a buffer, and is closed by the data callback of its own kind |
| HttpSplit.RunKeepsMarks | deps/http-parser/http_parser.c:2050-2080 | At the end of a buffer at most one mark is open, and it is the one of the state reached |
| HttpSplit.RunningIsOk | deps/http-parser/http_parser.c:2050-2080 | A buffer read to its end leaves errno at HPE_OK |
| HttpTypes.EmitJoins | deps/http-parser/http_parser.c:108-131 | Reporting data in two callbacks or in one makes no difference to the joined trace |
| HttpInvariant.CaseKeepsInv | deps/http-parser/http_parser.c:700-2048 | Every case of the switch keeps the invariant: flags, content_length bounds, keyword index and header states fit the parser state; no case aborts |
| HttpInvariant.RunKeepsInv | deps/http-parser/http_parser.c:680-2048 | From a parser that satisfies the invariant no run reaches a failing assertion, and the invariant holds again unless an error is reported |
| HttpInvariant.AssertionsFollow | deps/http-parser/http_parser.c:1423-2033 | The invariant implies the assertions at the head of the cases: nread == 1 and F_CHUNKED for chunk sizes, a non-zero and present content_length in bodies, the header states that may not be reached |
| HttpInvariant.InitialParserIsSafe | deps/http-parser/http_parser.c:2137-2147 | http_parser_init establishes the invariant |
| HttpInvariant.MethodsAreLongEnough | deps/http-parser/http_parser.c:986-1069 | The method scanner never reads behind the terminator of the guessed method |
| HttpExecute.HttpParser.constructor | deps/http-parser/http_parser.c:2137-2147 | A new parser is the initial one and satisfies the invariant |
| HttpExecute.HttpParser.Pause | deps/http-parser/http_parser.c:2405-2418 | errno becomes HPE_PAUSED or HPE_OK and nothing else changes |
| HttpExecute.HttpParser.Finish | deps/http-parser/http_parser.c:638-662 | An empty buffer means the end of the stream: message_complete for a body that ends with it, HPE_INVALID_EOF_STATE inside a message; it computes the end of the stream of the machine |
| HttpExecute.HttpParser.Execute | deps/http-parser/http_parser.c:626-2084 | With marks, bulk loops and memchr the parser ends exactly like the byte-at-a-time machine with the limit: same fields, errno, nread, returned count and joined callbacks, also when the header is too long |
| HttpCounting.LimitedIsExecute | deps/http-parser/http_parser.c:1428-1700 | Unless the header is found too long, the parser with the limit does what the machine without it does; nread is one too high exactly if the last byte was read by the loop over a name or value |
| HttpCounting.OverflowsExactly | deps/http-parser/http_parser.c:154-161 | HPE_HEADER_OVERFLOW is reported if and only if some header byte read is one too many (unless it is in a Content-Length that fails first), or the surplus at the end is |
| HttpCuts.CutWithoutSurplus | deps/http-parser/http_parser.c:154-161 | If the first of two calls leaves no surplus, the second ends like one call with both buffers: same parser, error (too long or not), nread, outcome and sum of bytes |
| HttpCuts.CutWithSurplus | deps/http-parser/http_parser.c:1428-1700 | If it leaves a surplus, one call finds the header too long if and only if a header byte of the second buffer, counted on, is one too many, and two calls if and only if one is that is counted one higher; so two do if one does |
| HttpCuts.CutMakesTooLong | deps/http-parser/http_parser.c:1428-1433 | A session in which "x" and ":" are too long in two buffers and not in one |
| HttpCounting.FitsUnderLimit | deps/http-parser/http_parser.c:154-161 | No call overflows whose bytes fit under the limit |
| HttpCounting.ExecuteNread | deps/http-parser/http_parser.c:630-634 | What a call does, apart from nread, does not depend on nread |
| HttpExecute.HeaderFieldLoop | deps/http-parser/http_parser.c:1316-1443 | The loop over a header name goes where the machine with the limit goes, or ends the call as it ends |
| HttpExecute.HeaderValueLoop | deps/http-parser/http_parser.c:1518-1702 | The loop over a header value, with its skip to the next line end and its counting at the end, goes where the machine with the limit goes, or ends the call as it ends |
| HttpExecute.Memchr | deps/http-parser/http_parser.c:1542-1564 | memchr finds the first occurrence within its limit, or tells that there is none |
| HttpExecute.ValueSkip | deps/http-parser/http_parser.c:1545-1568 | Skipping characters of a general value is reading them one by one |
| HttpExecute.BodyIdentityBulk | deps/http-parser/http_parser.c:1875-1910 | Taking what the buffer holds of a body in one go is reading it byte by byte |
| HttpExecute.ChunkDataBulk | deps/http-parser/http_parser.c:2008-2029 | Taking what the buffer holds of a chunk in one go is reading it byte by byte |
| HttpExecute.BodySkip | deps/http-parser/http_parser.c:1875-1910 | t single steps in a body lower content_length by t and report t bytes |
| HttpExecute.OneCase | deps/http-parser/http_parser.c:680-700 | One turn of the loop over the buffer, with its jumps to reexecute, goes where the machine with the limit goes, or ends the call as it ends |
| HttpFraming.ConnectionsAreFramed | deps/http-parser/http_parser.c:700-2048 | However input is cut, whatever callbacks answer and wherever the connection is paused and continued, the callbacks follow the message grammar: one begin (again only if a line end before the status line ran it), header, then Content-Length bytes, or chunks with header, data and complete in alternation up to the chunk of size 0 and the trailer, or data to the end of the stream, and one complete (again only at that end) |
| HttpFraming.BegunAgain | deps/http-parser/http_parser.c:749-770 | On every connection, an on_message_begin is followed by another one if and only if it was run in s_start_res |
| HttpFraming.BeginsAgain | deps/http-parser/http_parser.c:749-770 | A case runs on_message_begin and goes on waiting for the status line if and only if it reads CR or LF in s_start_res |
| HttpFraming.CompletedAgain | deps/http-parser/http_parser.c:638-662 | On every connection, an on_message_complete is followed by the next on_message_begin if and only if it was not run by the end of the stream; otherwise by body data or by itself |
| HttpFraming.EndsAgain | deps/http-parser/http_parser.c:638-662 | The end of the stream runs a callback if and only if the body ends with it, and leaves the parser as it is |
| HttpFraming.ReadsToTheEnd | deps/http-parser/http_parser.c:1912-1916 | In that state any bytes are body data and leave the parser as it is |
| HttpFraming.StrayLineEnd | deps/http-parser/http_parser.c:749-770 | LF and H begin a response twice |
| HttpFraming.EndedTwice | deps/http-parser/http_parser.c:638-662 | A session of which two ends of the stream complete the message twice |
| HttpStreams.Serve | deps/http-parser/http_parser.c:626-2084 | A new parser object that is given buffers and continued when it has paused does what the theorems about connections are about, and ends in a session that fits the message grammar |
| HttpFraming.NoBodyByteIsLost | deps/http-parser/http_parser.c:1829-2045 | On every connection, from a new parser on: between on_headers_complete and the next on_message_complete the body callbacks deliver exactly Content-Length bytes, or exactly the sum of the announced chunk sizes, or none |
| HttpFraming.NewConnectionFits | deps/http-parser/http_parser.c:2137-2147 | A new connection is where the grammar begins |
| HttpFraming.BodyConservation | deps/http-parser/http_parser.c:1829-2045 | Between on_headers_complete and on_message_complete the body callbacks deliver exactly Content-Length bytes, or exactly the sum of the announced chunk sizes |
| HttpFraming.RunFrame | deps/http-parser/http_parser.c:680-2048 | A run keeps the frame of the trace fitting the state of the parser |
| HttpFraming.CaseKeepsFrame | deps/http-parser/http_parser.c:700-2048 | Every case keeps it |
| HttpFraming.HeadersDoneFrame | deps/http-parser/http_parser.c:1829-1873 | The choice between no body, chunks, known length and end of stream agrees with what the header announced |
| HttpFraming.ChunkFrame | deps/http-parser/http_parser.c:1927-2045 | Chunk sizes, data and ends alternate, and the data of a chunk is as long as announced |
| HttpFraming.IdentityFrame | deps/http-parser/http_parser.c:1875-1926 | A body of known length ends after exactly that many bytes |
| HttpKeywords.HeaderNameRecognition | deps/http-parser/http_parser.c:1266-1443 | At the colon the header state is connection, content_length, transfer_encoding or upgrade if and only if the name, minus trailing spaces, is that keyword with letters in either case, byte for byte; names are made of token characters and spaces |
| HttpAscii.TokenBytes | deps/http-parser/http_parser.c:189-221 | The table of tokens accepts letters, digits and fifteen other characters, and lowers exactly the capitals; without strictness it accepts the space as well |
| HttpAscii.LowerSetsBit | deps/http-parser/http_parser.c:410-411 | LOWER sets bit 0x20 and leaves the others |
| HttpAscii.UnhexIs | deps/http-parser/http_parser.c:224-243 | The digits 0 to 9 and the letters a to f, in either case, have the values 0 to 15, and bytes from 128 on have the value 0 |
| HttpAscii.UrlCharIs | deps/http-parser/http_parser.c:243-290 | The characters of paths are those above the space but # ? and DEL, with tabulator, form feed and all bytes from 128 on |
| HttpAscii.UserinfoCharIs | deps/http-parser/http_parser.c:415-420 | The characters of user info are letters, digits, marks and eight others |
| HttpValues.TransferEncodingValue | deps/http-parser/http_parser.c:1444-1790 | A Transfer-Encoding value sets F_CHUNKED if and only if it stands on one line and is "chunked", in any case, with spaces behind it, and changes no other flag, whatever white space and folded lines precede it and however its lines end |
| HttpValues.ConnectionValue | deps/http-parser/http_parser.c:1444-1790 | A Connection value sets each of its three flags if and only if one of its tokens is the keyword, in any case, with spaces behind it, on however many lines it stands and however they end |
| HttpValues.ListIsHeard | deps/http-parser/http_parser.c:1610-1686 | Words without commas, joined with a comma and spaces, are the tokens of the value if and only if each but the first begins with a token character and none but the last is a beginning of a keyword |
| HttpValues.Swallowed | deps/http-parser/http_parser.c:1628-1659 | A comma right behind a beginning of a keyword does not end the token |
| HttpValues.Unheard | deps/http-parser/http_parser.c:1610-1626 | Behind a comma nothing is heard if the next byte is neither a space nor begins a token |
| HttpValues.Forgotten | deps/http-parser/http_parser.c:1712-1717 | A line without commas that is continued says nothing |
| HttpLines.PassesIsRun | deps/http-parser/http_parser.c:680-700 | Passing through a word, with the jumps to reexecute, is what a run does when no callback objects |
| HttpKeywords.MethodRecognition | deps/http-parser/http_parser.c:945-1069 | The letters before the first space are accepted as method m if and only if they are the string of m |
| HttpKeywords.ContentLengthValue | deps/http-parser/http_parser.c:1484-1597 | A Content-Length is accepted if and only if its decimal value is below ULLONG_MAX - 5, and then content_length is that value: it neither wraps nor becomes the value for absent |
| HttpKeywords.ChunkSizeValue | deps/http-parser/http_parser.c:1927-1978 | A chunk size is accepted if and only if its value is below 2^64 - 16, and then content_length is that value |
| HttpKeywords.ChunkSizeDigits | deps/http-parser/http_parser.c:224-243 | A chunk size begins with a hexadecimal digit, or with any byte from 128 on, which reads as 0 |
| HttpKeywords.FollowIsRun | deps/http-parser/http_parser.c:680-700 | Following the cases of a word is what a run does when no callback objects |
| HttpLuaSink.TableIgnoresCuts | src/lua-http-parser.c:34-139 | The table that the callbacks leave depends on them only up to the cutting of data |
| HttpLuaSink.LuaSplitInvariance | src/lua-http-parser.c:26-202 | Reading a buffer in two pieces leaves the same table as reading it in one, unless the second piece makes a token fail that was open at the cut, or the header is found too long |
| HttpLuaSink.LuaTable.OnUrl | src/lua-http-parser.c:34-51 | The URL is set, or appended to |
| HttpLuaSink.LuaTable.OnHeaderField | src/lua-http-parser.c:68-82 | An even number of items begins a name, an odd one continues it |
| HttpLuaSink.LuaTable.OnHeaderValue | src/lua-http-parser.c:84-98 | An odd number of items begins a value, an even one continues it |
| HttpLuaSink.LuaTable.OnBody | src/lua-http-parser.c:126-139 | The body is set, or appended to |
| HttpLuaSink.LuaTable.OnMessageComplete | src/lua-http-parser.c:141-190 | The pairs of items become the header table, a later name replacing an earlier one, and the parser is paused |
| HttpRoundTrip.RequestIsHeard | deps/http-parser/http_parser.c:945-2045 | Round trip of a request, wherever one can begin: a method, a joined URL, a version, header lines and the content that they announce (none, of a length, or chunks with parameters), written down, are read to their end and reported as begin, URL, names and values, then method, version, flags and length as the header says, the content in its pieces, and the end, with whether the connection persists; then the next message can begin |
| HttpRoundTrip.RequestsAreHeard | deps/http-parser/http_parser.c:680-2048 | Requests behind one another are told apart |
| HttpRoundTrip.RequestsInBuffers | deps/http-parser/http_parser.c:626-2084 | They are heard alike in whatever non-empty buffers they arrive, with nothing left over and no error |
| HttpRoundTrip.HearRequests | deps/http-parser/http_parser.c:626-2084 | The same for the parser object and its Execute, unless the header is found too long, which it is not if all fits under the limit |
| HttpRoundTrip.ResponseIsHeard | deps/http-parser/http_parser.c:749-2045 | Round trip of a response that says where it ends: version, status code, phrase, header lines and content |
| HttpRoundTrip.UnendedIsHeard | deps/http-parser/http_parser.c:1858-1870 | Round trip of a response that does not: all that follows is its body, the end of the stream completes it, and the connection does not persist |
| HttpRoundTrip.PersistsIs | deps/http-parser/http_parser.c:2112-2127 | Behind a message that says where it ends, the connection persists unless "close" was heard if both numbers of the version are positive, and otherwise only if "keep-alive" was |
| HttpFirstLines.MethodIsHeard | deps/http-parser/http_parser.c:945-1069 | The letters of a method and a space are read as that method |
| HttpFirstLines.UrlIsHeard | deps/http-parser/http_parser.c:1071-1142 | A URL that the automaton takes, and a space, are reported as that URL |
| HttpFirstLines.NumberIsRead | deps/http-parser/http_parser.c:792-905 | A number of up to three digits is read as what its digits spell, whether major, minor or status code |
| HttpFirstLines.ReqVersionIsRead | deps/http-parser/http_parser.c:1144-1264 | A version at the end of a request line is read as its two numbers |
| HttpFirstLines.ResNumbersAreRead | deps/http-parser/http_parser.c:792-905 | Version and status code of a response are read as their three numbers |
| HttpFirstLines.PhraseIsHeard | deps/http-parser/http_parser.c:907-943 | The phrase behind the code is reported, if it is not empty |
| HttpMessages.HeaderIsHeard | deps/http-parser/http_parser.c:1266-1790 | A header line is reported as its name and its value, and means what it says: chunked, keep-alive, close and upgrade set their flags, Content-Length the length, and nothing else changes |
| HttpMessages.HeadersAreHeard | deps/http-parser/http_parser.c:1266-1790 | So are all lines of a header together; the last length counts |
| HttpBodies.HeaderEnds | deps/http-parser/http_parser.c:1779-1873 | At the blank line the header is reported, and there follow chunks, a body of the length announced, no body (for requests, and for the statuses 1xx, 204 and 304), or all to the end of the stream |
| HttpBodies.BodyIsHeard | deps/http-parser/http_parser.c:1875-1926 | A body of the length announced is reported as a whole, and then the end of the message |
| HttpBodies.ChunkIsHeard | deps/http-parser/http_parser.c:1927-2045 | A chunk is reported with its size, as its data, and with its end, whatever its parameters say |
| HttpBodies.LastChunkIsHeard | deps/http-parser/http_parser.c:1927-2045 | The chunk of size 0 and a blank line end the message |
| HttpStartLines.VersionRecognition | deps/http-parser/http_parser.c:1144-1253 | Behind a URL a text without line ends is read as version major.minor if and only if it is: spaces, five bytes of which the first is H (the others are not looked at without strictness), a number that does not begin with 0, a dot and a number, none above 999 |
| HttpStartLines.RequestLineEnds | deps/http-parser/http_parser.c:1224-1264 | The request line is complete if and only if such a text is followed by LF, or by CR and LF |
| HttpStartLines.StatusRecognition | deps/http-parser/http_parser.c:772-905 | A response is read up to its status code if and only if it begins with such a version, in which 0 may lead, spaces, and a number of at most 999 |
| HttpVariants.LineFeedAlone | deps/http-parser/http_parser.c:876-1790 | Wherever a line may end, in the first line or in the header, LF alone leads to the same parser, callbacks and outcome as CR and LF, for all callbacks |
| HttpVariants.EmptyValueIsHeard | deps/http-parser/http_parser.c:1748-1777 | An empty value is reported, and sets nothing |
| HttpVariants.FoldIsHeard | deps/http-parser/http_parser.c:1712-1746 | A line that begins with white space is joined to the value before it, white space included |
| HttpVariants.SwitchedProtocolStops | deps/http-parser/http_parser.c:1779-1841 | After CONNECT, or an upgrade that Connection confirms, and without a body, the parser stops behind the header and reads nothing of what follows |
| HttpVariants.SwitchedBodyStops | deps/http-parser/http_parser.c:1875-1926 | With a body of known length it stops behind that, which is reported as ever |
| HttpVariants.SkippedBody | deps/http-parser/http_parser.c:1803-1852 | If on_headers_complete returns 1 the message is complete at once, whatever its header says of a body |
| HttpVariants.ErrorsTellThePlace | deps/http-parser/http_parser.c:680-2048 | The error with which a byte is rejected is that of the place: method, URL, version, status, header token, length, chunk size, or a missing LF or constant; a chunk size that grows too large has the error of a length |
| HttpVariants.CallbackDecides | deps/http-parser/http_parser.c:80-102 | Each notification that fails has its own error; only on_headers_complete may return 1; a pause is an error of its own |
| HttpVariants.ChunkSizeGoesOn | deps/http-parser/http_parser.c:1943-1978 | Behind a digit of a chunk size another one is accepted if the size stays below 2^64 - 16, or CR, a semicolon or a space, and nothing else |
| HttpVariants.PassedOver | deps/http-parser/http_parser.c:945-950 | Line ends before a request are passed over, and spaces before its URL |
| HttpVariants.EitherKind | deps/http-parser/http_parser.c:712-747 | A parser for both kinds goes on as one for responses behind "HT", as one for requests behind "HE" or any other first byte, and fails otherwise |
| HttpUrl.ParseUrl | deps/http-parser/http_parser.c:2306-2403 | A URL is accepted exactly if neither automaton reaches a dead end, a server part ends well and is there if there is a schema, CONNECT has host and port only, and the port is at most 65535; then the spans are those of the owners of the bytes and port is the value of its digits |
| HttpUrl.SpanIsExact | deps/http-parser/http_parser.c:2306-2403 | A span is within the buffer, not empty, and holds exactly the bytes for which the automata are in its field |
| HttpUrl.SpansAreOrdered | deps/http-parser/http_parser.c:2306-2403 | Spans do not overlap and come in the order schema, userinfo, host, port, path, query, fragment |
| HttpUrl.TheRestDelimits | deps/http-parser/http_parser.c:2168-2230 | A byte of no field is one of : / @ [ ] ? # |
| HttpUrl.PortSpan | deps/http-parser/http_parser.c:2386-2400 | The port is a non-empty run of digits and ends where its span ends |
| HttpUrl.Strtoul | deps/http-parser/http_parser.c:2386-2400 | The value of the digits up to the first byte that is none |
| HttpUrl.FindFields | deps/http-parser/http_parser.c:2306-2370 | The first pass fails exactly at a dead end, and records for each field its first byte and number of bytes |
| HttpUrl.ParseHost | deps/http-parser/http_parser.c:2233-2304 | The second pass succeeds exactly if the server part is not empty, meets no dead end and ends in a good state; it records userinfo, host and port likewise |
| HttpUrl.RankMonotone | deps/http-parser/http_parser.c:478-624 | Both automata only move forward, so the bytes of a field are next to each other |
| HttpUrl.OwnersTogether | deps/http-parser/http_parser.c:2306-2403 | The bytes that belong to a field form one run |
| HttpUrlParts.PartsByBytes | deps/http-parser/http_parser.c:478-624 | Of an accepted URL, over bytes and spans alone: the schema is of letters at the beginning and followed by "://", user info by @, a host in brackets or not is of its characters, the port is of digits and preceded by a colon, the path begins with / or *, the query stands behind the first ? of what follows the server and before any #, and the fragment behind the first # and those that follow it |
| HttpUrlParts.NoTwoAts | deps/http-parser/http_parser.c:532-536 | In the server part no @ follows another at once |
| HttpUrlJoin.JoinedIsAccepted | deps/http-parser/http_parser.c:2306-2403 | Well-formed parts, joined with their delimiters, are accepted, and the spans are those of the parts that are not empty |
| HttpUrlJoin.JoinAndParse | deps/http-parser/http_parser.c:2306-2403 | Round trip: parsing the joined parts gives back just these parts, and the number of the port |
| EvHeap.Parent | deps/libev/ev.c:2234-2237 | HPARENT is below its argument except that the root is its own parent |
| EvHeap.RootIsFirst | deps/libev/ev.c:3102-3115 | No entry of a heap is before the root |
| EvHeap.UpHeapOrders | deps/libev/ev.c:2320-2339 | upheap restores the order around an entry that is not before what is below it |
| EvHeap.DownHeapOrders | deps/libev/ev.c:2240-2282 | downheap restores the order around an entry that is not before what is above it |
| EvHeap.AdjustHeapOrders | deps/libev/ev.c:2342-2349 | adjustheap restores the order whatever the time of one entry has become |
| EvHeap.ReHeapOrders | deps/libev/ev.c:2352-2361 | reheap makes a heap of any entries, and keeps them |
| EvHeap.AdjustHeapRearranges | deps/libev/ev.c:2342-2349 | adjustheap permutes the entries of the heap and leaves the rest of the array alone |
| EvTimers.UpHeapInPlace | deps/libev/ev.c:2320-2339 | The loop that moves ancestors down leaves the array as upheap on values does, and every watcher knows its slot |
| EvTimers.DownHeapInPlace | deps/libev/ev.c:2240-2282 | The same for downheap, with its fast path for four children |
| EvTimers.PickChild | deps/libev/ev.c:2250-2268 | Both paths pick the first child with the least time |
| EvTimers.AdjustHeapInPlace | deps/libev/ev.c:2342-2349 | The same for adjustheap |
| EvTimers.ReHeapInPlace | deps/libev/ev.c:2352-2361 | The same for reheap |
| EvTimers.AddEntry | deps/libev/ev.c:3884-3890 | Adding an entry at the end and moving it up keeps the heap and adds exactly that entry |
| EvTimers.RemoveEntry | deps/libev/ev.c:3910-3918 | Putting the last entry into a slot and adjusting keeps the heap and removes exactly the entry of that slot |
| EvTimers.ChangeEntry | deps/libev/ev.c:3936-3940 | Changing the time of an entry and adjusting keeps the heap and changes exactly that entry |
| EvPending.FeedIsGood | deps/libev/ev.c:1985-2002 | Feeding keeps: a pending watcher owns the slot it points to, every other slot is the dummy, a slot holds exactly the events fed since the last delivery or clear, and all deliveries so far were due |
| EvPending.ClearIsGood | deps/libev/ev.c:3774-3800 | Clearing keeps all of that, and the cleared watcher is due nothing |
| EvPending.PopIsGood | deps/libev/ev.c:3279-3288 | Taking the last slot of the highest non-empty queue keeps all of that: a delivery passes exactly the events due, and nobody of a higher priority is due anything |
| EvPending.PopInOrder | deps/libev/ev.c:3279-3288 | Taking the last slot keeps who is above whom, and never takes the lower one of two |
| EvPending.PendingQueues.FeedEvent | deps/libev/ev.c:1985-2002 | Feeds a watcher: the union with what is pending, or a new slot; lets the dispatch begin again at the highest priority |
| EvPending.PendingQueues.ClearPending | deps/libev/ev.c:3774-3800 | Gives the slot to the dummy |
| EvPending.PendingQueues.PopSlot | deps/libev/ev.c:3279-3288 | Takes a slot and delivers it unless it is the dummy |
| EvPending.PendingQueues.InvokeTop | deps/libev/ev.c:3283-3291 | The inner loop ends with the queue of pendingpri and all above it empty, although callbacks feed and clear |
| EvPending.PendingQueues.InvokePending | deps/libev/ev.c:3274-3292 | ev_invoke_pending ends with all queues empty for any finite script of callbacks that feed and clear; every delivery passes exactly what was due, while no watcher with a higher `priority` was due anything; of two watchers of one priority the one nearer to the top is delivered to or cleared first, whatever the callbacks do; without callbacks the deliveries are the queues from top to bottom, each from its end |
| EvReify.FeedReverseDone | deps/libev/ev.c:2011-2018 | The watchers are fed from the last one to the first |
| EvReify.BatchIsDelivered | deps/libev/ev.c:2004-2018 | What was fed in reverse is delivered in the original order, before what was pending |
| EvReify.BatchIsServed | deps/libev/ev.c:2004-2018 | The history and the deliveries of a batch of watchers none of whom was pending |
| EvReify.QueuedAbove | deps/libev/ev.c:2004-2018 | A batch fed in reverse lies in the queues in its order, above what was pending |
| EvReify.BatchIsServedWell | deps/libev/ev.c:2004-2018 | Whatever callbacks feed and clear: every watcher of the batch is delivered to, with the event of the batch, unless it is cleared first, in the order of the batch and before what was pending at its priority |
| EvReify.DeliveriesInOrder | deps/libev/ev.c:3320-3355 | Deliveries at one priority come in the order of expiry |
| EvReify.DeliveriesReach | deps/libev/ev.c:3320-3355 | Exactly the watchers of the priority are delivered to |
| EvLoop.Loop.constructor | deps/libev/ev.c:2827-2918 | A new loop has no timers and satisfies the assertions of ev_verify |
| EvLoop.Loop.MembersAreActive | deps/libev/ev.c:3102-3115 | The heap holds exactly the active timers, each at the slot that its active field names, with its time |
| EvLoop.Loop.TimerStart | deps/libev/ev.c:3873-3895 | ev_timer_start makes an inactive timer expire at its time from now on, keeps every assertion about the heap, and counts one reference |
| EvLoop.Loop.TimerStop | deps/libev/ev.c:3897-3925 | ev_timer_stop clears the timer, removes it wherever it is in the heap, and gives back its remaining time |
| EvLoop.Loop.TimerAgain | deps/libev/ev.c:3927-3952 | ev_timer_again lets a repeating timer expire one interval from now, and stops any other |
| EvLoop.Loop.TimersReschedule | deps/libev/ev.c:3450-3461 | All active timers are shifted by the same time; the heap stays a heap |
| EvLoop.Loop.TimeUpdate | deps/libev/ev.c:3517-3531 | Without a monotonic clock, a jump of the clock leaves the time left of every timer as it was |
| EvLoop.Loop.ReifyRoot | deps/libev/ev.c:3328-3349 | The first timer has expired: if it repeats it is next due at + repeat, or now if that is before now; if not it is stopped, cleared, and keeps the time left |
| EvLoop.Loop.ReifyAll | deps/libev/ev.c:3326-3352 | The loop ends; the timers dealt with are sorted by expiry, without duplicates, and renewed or stopped |
| EvLoop.Loop.TimersReify | deps/libev/ev.c:3320-3355 | timers_reify deals with every timer that has expired and with no other: one that repeats is next due one interval after it was, but not before now, and one that does not is stopped; it leaves no active timer before now, and feeds EV_TIMER in reverse order |
| EvLoop.ExactlyTheExpired | deps/libev/ev.c:3320-3355 | The timers dealt with are exactly those that had expired, and every timer that is still active is not before now |
| EvLoop.DealWith | deps/libev/ev.c:3328-3352 | Dealing with the first timer removes exactly it from the set of those that have expired; this set is the measure of the loop |
| EvLoop.CalledInOrderOfExpiry | deps/libev/ev.c:3320-3355 | At each priority the timers that had expired are called once each in non-decreasing order of expiry |
| EvLoop.NoDrift | deps/libev/ev.c:3326-3345 | As long as no turn comes later than a repeating timer is due next, the n-th time it is due is exactly n intervals after the first |
| EvLoop.Loop.ExpireAndInvoke | deps/libev/ev.c:3671-3688 | timers_reify and then ev_invoke_pending, when no expired timer was pending: whatever callbacks feed and clear, every expired timer is delivered to unless it is cleared first, at each priority in the order of expiry, and before what was pending; with callbacks that do nothing the deliveries are exactly these |
| EvWait.PlanWait | deps/libev/ev.c:3592-3648 | The planned wait and sleep together reach exactly to the first timer or periodic of all, bounded by MAX_BLOCKTIME and by the two minima; the loop sleeps for exactly what is left of io_blocktime, but leaves the backend its minimum |
| EvWait.RootsAreLeast | deps/libev/ev.c:3609-3625 | The roots of the two heaps stand for all entries |
| EvWait.PeriodicRecalc | deps/libev/ev.c:3359-3381 | periodic_recalc ends with a time after now, at most one interval later, and a whole number of intervals from the offset |
| EvPeriodic.ReifyFirst | deps/libev/ev.c:3391-3415 | One turn of the loop: the first timer is no longer among the expired; it has left the heap if it is to run once, and otherwise goes on at the time of its rule; the heap is kept |
| EvPeriodic.DownHeapBag | deps/libev/ev.c:2240-2282 | Moving down neither loses nor adds anything that is in the heap |
| EvPeriodic.PeriodicsReify | deps/libev/ev.c:3384-3421 | periodics_reify ends with no entry before now; the timers fed are, each once, exactly those that had expired; exactly the ones among them that run once have left, the others go on at a time of their rule, and the rest is as before |
| EvPoll.Poll.Modify | deps/libev/ev_poll.c:51-86 | poll_modify keeps polls and pollidxs inverse to each other, and afterwards poll() asks for the new mask of the descriptor, or not for it at all, and for the others as before |
| EvPoll.Poll.NeedIndex | deps/libev/ev_poll.c:43-62 | Growing pollidxs adds descriptors that are not asked for |
| EvPoll.Poll.DropSlot | deps/libev/ev_poll.c:76-85 | Swap-remove takes away one descriptor and keeps the others |
| EvFd.StartIsGood | deps/libev/ev.c:3828-3852 | Starting a watcher keeps: fdchanges lists, each once, exactly the descriptors with reify set, and every other one has as events the union of the masks of its active watchers |
| EvFd.StopIsGood | deps/libev/ev.c:3854-3871 | Stopping a watcher keeps the same |
| EvFd.Fds.FdChange | deps/libev/ev.c:2125-2137 | Flags are added, and the descriptor is listed unless it is already |
| EvFd.Fds.IoStart | deps/libev/ev.c:3828-3852 | ev_io_start enters the watcher at the head of the list of its descriptor and notes the change |
| EvFd.Fds.IoStop | deps/libev/ev.c:3854-3871 | ev_io_stop takes the watcher out and notes the change |
| EvFd.WithoutIs | deps/libev/ev.c:3759-3771 | wlist_del removes the watcher and nothing else |
| EvFd.Fds.CollectEvents | deps/libev/ev.c:2108-2112 | The loop over the watchers computes the union of their masks |
| EvFd.Fds.ReifyFd | deps/libev/ev.c:2092-2119 | One descriptor: the union becomes its events, and the backend is told of the change |
| EvFd.Fds.FdReify | deps/libev/ev.c:2065-2122 | fd_reify leaves no change outstanding, every descriptor up to date, and the backend asking for exactly that |
| EvFd.BackendMatchesWatchers | deps/libev/ev.c:2065-2122 | With no change outstanding, poll() asks for input (output) of a descriptor if and only if an active watcher of it wants to read (write) |
| EvFd.Fds.FdEvent | deps/libev/ev.c:2030-2053 | Events of a descriptor with an outstanding change are dropped; others are queued for its watchers |
| EvFd.EventReachesWatchers | deps/libev/ev.c:2030-2043 | An event is queued once for each active watcher of the descriptor whose mask meets it, with what they have in common |
| EvAsync.StepKeepsInv | deps/libev/ev.c:2426-2539 | Every memory access of a sender or of the loop keeps: a set flag has been or will be made known to the loop, and a set item has its flag set, or will have, or will be found |
| EvAsync.RunKeepsInv | deps/libev/ev.c:2426-2539 | So does every interleaving of any number of senders with the loop |
| EvAsync.NoLostWakeup | deps/libev/ev.c:3602-3668 | When the loop waits, the pipe is empty and no send is under way, then no flag is set and no active watcher or signal is sent |
| EvAsync.PassTakes | deps/libev/ev.c:2512-2536 | In a pass nothing happens but that items that were set and listed are taken, each once |
| EvAsync.PassDelivers | deps/libev/ev.c:2476-2536 | In a pass of the loop with no send under way and none beginning, exactly the active watchers and signals that were sent are fed, each once, and nothing else is cleared |
| EvAsync.PassAmidSenders | deps/libev/ev.c:2426-2536 | While any others send during the pass: what was sent before, and whose send is past setting its flag, is taken in the pass if and only if the loop does not decide that nobody has sent; if it does, nothing is taken and the flag stays set |
| EvAsync.PassAmidLateSenders | deps/libev/ev.c:2426-2536 | If no send is under way when the loop stops being busy, and those that begin during the pass use a flag that was set then, all that was sent before is taken |
| EvAsync.PassedBy | deps/libev/ev.c:2437-2445 | A sender with the other flag can make the loop pass by what was sent |
| EvAsync.WhyPassedBy | deps/libev/ev.c:3656-3664 | The loop passes by a set flag only if the pipe is no longer empty or a call is about to set pipe_write_skipped or to write |
| EvAsync.PassIsShort | deps/libev/ev.c:2476-2536 | Such a pass ends, within a number of steps linear in the number of watchers |
| EvAsync.AdvanceKeepsInv | deps/libev/ev.c:2426-2470 | The accesses of evpipe_write in particular |
| EvAsync.LoopKeepsInv | deps/libev/ev.c:2476-2536 | The accesses of pipecb and of the wait in particular |
| EvAsync.ListKeepsInv | deps/libev/ev.c:4862-4900 | ev_async_start and ev_async_stop, with their swap-remove, in particular |
| EvAsync.ListedExactly | deps/libev/ev.c:4862-4900 | Starting lists a watcher and stopping unlists exactly the one that is stopped; nothing else does, nobody else is touched, and nobody is listed twice |
| EvAsync.SentUntilTaken | deps/libev/ev.c:2476-2536 | An item is set from when it is sent until pipecb feeds it, or its watcher is started anew |
| EvAsync.WaitsAgain | deps/libev/ev.c:3592-3668 | No busy waiting: behind a pass during which nobody sent anything, a loop that wants to wait does wait, and sleeps on if the pipe was read empty |
| BsonFormat.UnLEOfLE | cext/lua-bson.c:183-190 | Reading little-endian bytes undoes writing them |
| BsonFormat.Int32RoundTrip | cext/lua-bson.c:112-120 | The same for 32-bit numbers with sign |
| BsonFormat.Int64RoundTrip | cext/lua-bson.c:122-132 | The same for 64-bit numbers with sign |
| BsonFormat.StrTolOfDecimal | cext/lua-bson.c:401-409 | strtol of a printed number is that number |
| BsonEncode.Bson.Reserve | cext/lua-bson.c:77-91 | If there is no room the capacity is doubled, at least once and no more often than needed, and the contents are kept; otherwise nothing changes |
| BsonEncode.Bson.WriteLE | cext/lua-bson.c:183-190 | A number is appended with its low byte first |
| BsonEncode.Bson.WriteLength | cext/lua-bson.c:192-199 | Four bytes in the middle are replaced, and nothing else |
| BsonEncode.Bson.ReserveLength | cext/lua-bson.c:209-215 | Four bytes are appended to be written later |
| BsonEncode.Bson.WriteString | cext/lua-bson.c:201-207 | A string and its NUL are appended |
| BsonEncode.Bson.WriteBinary | cext/lua-bson.c:292-299 | The length counts the data without its subtype |
| BsonEncode.Bson.WriteRegex | cext/lua-bson.c:359-371 | Writes pattern and options, each with its NUL, if there is a NUL before the last byte; otherwise it would read wild memory |
| BsonEncode.SplitRegex | cext/lua-bson.c:360-369 | The search from the end finds the last NUL before the last byte if and only if there is one; otherwise the length is -1, or -2 for empty data |
| BsonFormat.PatternAlone | cext/lua-bson.c:359-371 | A pattern without options, and empty data, lead the encoder astray |
| BsonFormat.WrittenIfTerminated | cext/lua-bson.c:359-371 | A value all of whose regular expressions have the NUL never does, and one that is encoded has them |
| BsonEncode.Bson.WriteTagged | cext/lua-bson.c:319-377 | Accepts exactly the known subtypes with the right lengths, and goes wild exactly on a regular expression without a NUL before its last byte |
| BsonEncode.Bson.AppendOne | cext/lua-bson.c:301-399 | Appends exactly the element of the format, reports an error, or goes wild, each exactly when the first field that cannot be written says so |
| BsonEncode.Bson.CloseDocument | cext/lua-bson.c:455-456 | The NUL and the length complete a document |
| BsonEncode.Bson.PackDict | cext/lua-bson.c:411-457 | Appends exactly the bytes of the table, nested tables included, or reports an error or goes wild, as the first key, value or depth that cannot be written says |
| BsonDecode.ReadsBack | cext/lua-bson.c:502-642 | Every good value is read back from its bytes, and what follows them is left alone |
| BsonDecode.FieldsReadBack | cext/lua-bson.c:514-642 | The elements of a table are read back as its fields, in their order |
| BsonDecode.KeyReadsBack | cext/lua-bson.c:521-525 | Names without NUL and array indices from 1 to 2^31 - 1 are read back |
| BsonDecode.TaggedReadsBack | cext/lua-bson.c:545-632 | Binary data, object ids, dates, timestamps, regular expressions, null and the extreme keys, code and pointers are read back if they have their shape |
| BsonDecode.RoundTrip | cext/lua-bson.c:502-642 | Decoding what was encoded gives back the document |
| BsonDecode.GoodIsAccepted | cext/lua-bson.c:411-416 | A good value is encoded if and only if its tables are nested at most 129 deep, the outermost included; otherwise an error is raised |
| BsonElements.WrittenExactly | cext/lua-bson.c:301-457 | A value is encoded if and only if its arrays have numbers as keys, its tagged strings are of known types and the right lengths, and its tables are nested at most 129 deep |
| BsonElements.TaggedNumbers | cext/lua-bson.c:319-377 | The types, by number, and the lengths that are asked of tagged strings |
| BsonElements.OneFieldIsRead | cext/lua-bson.c:502-642 | What is read as the value of an element is the one field of the document of that element |
| BsonElements.DateIsSeconds | cext/lua-bson.c:564-570 | A date of m milliseconds is read as s seconds with 1000 s <= m < 1000 s + 1000, or towards zero if m is negative |
| BsonElements.SecondsAreKept | cext/lua-bson.c:564-570 | For dates of the first 2^32 seconds the four bytes hold exactly s |
| BsonElements.BooleanIs | cext/lua-bson.c:526-642 | A boolean is true if and only if its byte is not 0 |
| BsonElements.StringIs | cext/lua-bson.c:526-545 | Of a string all bytes but the last are kept |
| BsonElements.NumberKeys | cext/lua-bson.c:401-457 | The key of an array element is its index less one, as an unsigned number of 32 bits, in decimal digits; a number in a document is printed with its sign |
| BsonElements.ArrayKeys | cext/lua-bson.c:521-525 | An array key that begins with digits is read as the index one higher, as a signed number of 32 bits |
| BsonElements.HelloWorld | cext/lua-bson.c:411-457 | The bytes of {"hello": "world"} are those of the BSON specification |
| BsonElements.Awesome | cext/lua-bson.c:411-457 | So are the bytes of its array of a string, a float and an integer |
| BsonShapes.DocumentShape | cext/lua-bson.c:502-519 | The decoder takes the first m bytes for a document if and only if they are one by an independent grammar: a length that is m, elements, and a NUL |
| BsonShapes.FieldsShape | cext/lua-bson.c:514-642 | It takes bytes for fields if and only if they are elements: a type, a name with its NUL, and a value, one after the other |
| BsonShapes.ValueShape | cext/lua-bson.c:526-642 | It takes the first m bytes for a value of a type if and only if they have its shape: a fixed size, a length and as many bytes, two strings, nothing, or a document |
| BsonReader.Reader.TakeCString | cext/lua-bson.c:158-174 | Reads up to the first NUL, or reports that there is none |
| BsonReader.Reader.UnpackScalar | cext/lua-bson.c:526-637 | The cases of the switch that do not recurse read what the decoder function reads |
| BsonReader.Reader.UnpackDict | cext/lua-bson.c:502-642 | unpack_dict reads what the decoder function reads, and leaves the reader behind the document |
| BsonReader.Encode | cext/lua-bson.c:850-862 | The bytes of the document, or how encoding it fails |
| BsonReader.Decode | cext/lua-bson.c:815-828 | The document that the decoder function reads |
| BsonReader.EncodeAndDecode | cext/lua-bson.c:411-642 | A good document comes back from encoder and decoder as it was, if and only if it is not nested too deep |
| BsonIndex.SkipAgrees | cext/lua-bson.c:644-727 | lmakeindex passes over exactly the bytes that unpack_dict reads as a value |
| BsonIndex.ValueIsLocal | cext/lua-bson.c:502-642 | The bytes of a value alone decide what is read |
| BsonIndex.EntriesAreFields | cext/lua-bson.c:644-727 | Every entry of the index names the key and the place of a field, and other bytes written there change the value of that field and nothing else |
| BsonIndex.FieldsAreIndexed | cext/lua-bson.c:644-727 | A document that can be decoded can be indexed: its elements stand for the fields in their order, each with its key and with the value that is read at its place, and the entries of the index are exactly the elements whose type has a fixed size |
| BsonIndex.IndexedExactly | cext/lua-bson.c:644-727 | A key is in the index if and only if an element of a fixed size has it |
| BsonIndex.MakeIndex | cext/lua-bson.c:644-727 | The table that the loop builds is that of the entries, a later key replacing an earlier one |
| BsonIndex.SkipValue | cext/lua-bson.c:658-714 | The switch of lmakeindex passes over a value or reports an error |
| BsonIndex.NewBytesReadBack | cext/lua-bson.c:729-812 | The bytes that lreplace writes for a value of the right type and range are read as that value |
| BsonIndex.TakenValues | cext/lua-bson.c:729-812 | lreplace takes a float for a float, anything for a boolean, an integer for either integer, and a string of its kind and length for the others, and nothing else |
| BsonIndex.TakenIsRead | cext/lua-bson.c:729-812 | It is read as that value, except that for a boolean only false is false, and that of an integer put for a 32-bit one the low 32 bits are kept |
| BsonIndex.Replace | cext/lua-bson.c:765-812 | lreplace writes those bytes in place and nothing else, or leaves the document alone |
| BsonIndex.ReplaceAgreesWithDecode | cext/lua-bson.c:644-812 | After lreplace of an indexed key the document decodes to the old one with that field, and no other, changed to the new value |
| LeventQueue.StepKeepsInv | levent/queue.lua:33-129 | Every step of coroutines, hub and loop keeps the invariant |
| LeventQueue.DoPutKeepsInv | levent/queue.lua:86-94 | _put in particular |
| LeventQueue.DoGetKeepsInv | levent/queue.lua:75-84 | _get in particular |
| LeventQueue.CallbackKeepsInv | levent/loop.lua:150-168 | Taking a callback from the list, or the next list, keeps it |
| LeventQueue.QueueIsSafe | levent/queue.lua:33-129 | In every run the length is that of the items and within the bound, what was got is a prefix of what was put, and each deferred callback holds one reference |
| LeventQueue.NobodyIsForgotten | levent/queue.lua:33-62 | A waiting putter with room, or a waiting getter with an item, implies that the unlock method is deferred or under way exactly once; with nothing deferred putters wait only on a full queue and getters only on an empty one |
| LeventQueue.ResumedInTime | levent/queue.lua:75-129 | A resumed putter finds room and a resumed getter an item, so the assertion of _get holds, although neither looks again |
| LeventQueue.PutsAreAccountedFor | levent/queue.lua:86-112 | In every run, for every item: as often as put was called with it, it came into the queue, or still waits, or an exception ended the wait, and then it never comes |
| LeventQueue.GetsAreAccountedFor | levent/queue.lua:75-129 | Every get got an item, or still waits, or an exception ended its wait |
| LeventQueue.WhoRuns | levent/queue.lua:33-129 | A coroutine runs from when it is resumed until it yields or has to wait, and only a running one begins to wait |
| LeventQueue.Queue.constructor | levent/queue.lua:14-31 | A new queue is empty |
| LeventQueue.Queue.PutNow | levent/queue.lua:86-94 | _put on the object is _put on values |
| LeventQueue.Queue.GetNow | levent/queue.lua:75-84 | _get returns the oldest item and is _get on values |
| LeventQueue.Queue.PutOrWait | levent/queue.lua:96-102 | put goes on if there is room and waits otherwise |
| LeventQueue.Queue.GetOrWait | levent/queue.lua:114-119 | get goes on if there is an item and waits otherwise |
| LeventQueue.Queue.UnlockPutters | levent/queue.lua:33-46 | The loop of _put_unlock is a run of the transition system, and ends with a full queue or no putter |
| LeventQueue.Queue.UnlockGetters | levent/queue.lua:48-62 | The loop of _get_unlock is one too, and ends with an empty queue or no getter |

## Left out

- HttpRoundTrip.RequestIsHeard: about messages with CR LF at their line ends, one line for each header, a value that is not empty, no trailer behind the chunks, and no switch of the protocol; `HttpVariants` and `HttpValues` are about the others. Callbacks do not object.
- HttpRoundTrip.HearRequests: one buffer for the object; `HttpStreams.CutAnywhere` and `HttpRoundTrip.RequestsInBuffers` are about more.
- HttpStartLines.VersionRecognition: in HTTP/0.9, where a request line ends with its URL, there is none.
- HttpVariants.SwitchedProtocolStops: about messages without a body; `HttpVariants.SwitchedBodyStops` is about a body of known length, and one in chunks is left out.
- HttpSplit.SplitInvariance: about the machine without a limit; `HttpStreams.CutOnce` is about the parser.
- HttpStreams.CutOnce: says nothing of streams of which one cutting is found too long; `HttpCuts` does, up to what has been reported by then.
- HttpFraming.ConnectionsAreFramed: data callbacks succeed, and callbacks neither change the parser nor call it again; a notification may fail, pause, or skip the body.
- HttpExecute.HttpParser.Finish: buffers of 4 GiB and more, for which the 32-bit `nread` would wrap, are not modelled.
- HttpUrl.ParseHost: for a URL with a schema and no server part, like "http:///x", the source reads `field_data[UF_HOST]`, which it has not set and which `lparse_url` leaves uninitialised; the model takes offset and length 0, and so rejects the URL, as the comment in the source says it will.
- HttpUrl.Strtoul: stops at the end of the buffer, where strtoul would read the bytes behind it; offsets and lengths are not cut to 16 bits.
- `HTTP_PARSER_STRICT=1`, and the names and descriptions of errors.
- EvPending.PendingQueues.RunCallback: callbacks feed and clear watchers; starting and stopping them changes the queues only by clearing.
- EvLoop.Loop.ExpireAndInvoke: timers that expire while they are pending already keep their place in the queue; the order is claimed when there are none, and callbacks feed and clear watchers.
- EvLoop.Loop.TimeUpdate: the branch with a monotonic clock changes no timer and is left out.
- Time is exact (`real`): the rounding of `ev_tstamp`, and with it the branch of `periodic_recalc` for an interval that rounding swallows.
- EvPeriodic.PeriodicsReify: works on a sequence, without back pointers; the reschedule callback is the time that it returns.
- EvFd.Fds.IoStop: does not clear pending events; that is in `EvPending`. The list of watchers of a descriptor is a sequence, not linked.
- EvFd.Fds.IoStart: the descriptor of a watcher is fixed when it is made.
- `fd_kill`, `fd_ebadf`, `fd_enomem`, `fd_rearm_all`, and the backends other than poll.
- EvAsync.NoLostWakeup: memory accesses are sequentially consistent, as the fences of the source are there to ensure, and the pipe is initialised before anybody sends (otherwise `pipe_write_skipped` fails the assertion about `pipe_w` in ev_run).
- Idle, prepare, check, fork, cleanup, child, stat and embed watchers: the same swap-remove arrays and lists again.
- BsonEncode.Bson.Reserve: sizes are unbounded; from 2^30 on the doubling of a 32-bit capacity would overflow.
- BsonDecode.ReadBytes: a negative length is an error, where the source would step backwards.
- BsonFormat.StrTol: reads digits only; white space and signs, which the encoder never writes, are left out.
- BsonFormat.TaggedPayload: dates and timestamps are read on a machine with the low byte first.
- BsonIndex.NewBytes: a number is stored in a BSON_REAL only if it is a float; the conversion of an integer is left out.
- BsonIndex.MakeIndex: offsets are unbounded; the source packs them into 27 bits.
- Whether a Lua table is an array (it is a tag here), encoded documents as values, float keys, and `pack_ordered_dict`.
- LeventQueue.QueueIsSafe: items are not nil; with nil items `#items` and `length` part.
- LeventQueue.NobodyIsForgotten: which waiter `next` picks is arbitrary, so no fairness is claimed.
- `Queue:join`: its event is set only when the queue is made and by `_get_unlock`.
- System calls, clocks and the kernel: their results are inputs.
- The Lua side of the C functions (stack, metatables, user data), `cext/luacrypto`, `src/lua-socket.c`, `src/lua-ev.c`, `levent/lock.lua`, `levent/dns.lua`: thin, or without a claim that holds.
