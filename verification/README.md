# TZZero-HTTP in Dafny

A model of the parts of TZZero-HTTP that hold state between system calls, and proofs of what they promise over every
input, every run or every interleaving. The operating system (`readv`, `write`, `epoll_wait`, `eventfd`, the clock,
the allocator, the file system), the application's callbacks and the scheduler are an arbitrary environment: they
appear as parameters, as scripts of calls, or as the choice of the next step.

| files | what they model |
|---|---|
| `Options`, `Text` | line ends, tokens, trimming and `std::stoull` on byte strings |
| `Buffer`, `NetworkOrder` | the byte buffer as an array with two indices, refining a queue of bytes; the integer codecs |
| `HttpRequest`, `HttpParsing`, `HttpParser`, `HttpRoundTrip`, `HttpMessage`, `HttpResumption` | the request object and its printer, the streaming parser run on the real buffer, chunking, pipelining, the round trip, what any message says by its bytes, and the server's request per call |
| `TimerSpec`, `TimerSafety`, `TimerHistory`, `TimerBook`, `TimerQueue` | the two timer indices, ownership on an explicit heap, passes with callbacks that add and cancel; the refinement of a table of deadlines by number |
| `LoopSpec`, `EventLoop` | the wake-up and hand-off protocol between any number of threads; the loop itself on its own thread |
| `ConnectionSpec`, `ConnectionSafety`, `ConnectionOutput`, `TcpConnection` | one connection: states, output bytes, the ways it can fail, what each event does; the object on a real buffer |
| `ServerNames`, `ServerSpec`, `ServerSafety`, `ServerSteps`, `ServerProtocol`, `TcpServer` | the registry of connections across the base loop and the I/O loops |
| `ThreadPool`, `ThreadPoolRuns` | queue, condition variable and draining stop; every run told by its steps |
| `MemoryPool` | the block allocator and the history of its slots |
| `LogRotation` | the rotating log file and its archives |

Code that changes state step by step is a class whose methods are proved to take the state where a specification
function says; the theorems are about those functions, over all runs. For each operation one theorem gives its whole
effect in other words than its body. What threads do to each other is a step machine, one step for each critical
section or atomic operation. `dafny verify dfyconfig.toml` checks everything.

## Where the code does less than it is meant to

The model follows the code. Each departure has a theorem that says exactly when the intended behaviour is met.

- `peek_int64` reads the high word twice (`src/utils/buffer.cpp:138-139`), so `tests/buffer_test.cpp:50-60` expects a
  value the code does not return. A 64-bit value reads back exactly when its halves are equal
  (`SeenUnchangedIff`, `MixedFifoExact`); with the second word taken at offset 4 every value would (`PeekEncoded`).
- `tests/http_parser_test.cpp:51-70` expects a request to complete whose body has 16 bytes while its header says 18.
  A message completes exactly when as many bytes follow its head as its Content-Length announces (`MessageRead`,
  `LengthTakesBody`); this one does not (`PostedDoesNotComplete`).
- `HttpServer::on_message` makes a new request for every call (`src/http/http_server.cpp:72`). Resumption holds with
  one request object kept between calls, as in `tests/http_parser_test.cpp:72-86` (`ChunkingInvariance`). With a new
  one for each call, a message is served exactly when the pieces before its last one, joined, hold no line end
  (`FreshRequestResumesIff`). A call serves one message at most, so a second one that arrived with it waits for more
  bytes (`ServesOneACall`).
- Not every request survives printing and parsing; `RoundTripExactly` says which do. A field value with a blank at an
  end is trimmed, and a request without path and query prints a request line with two tokens.
- `quit()` before `loop()` is entered is lost (`QuitInEffectIff`, `EarlyQuitIsLost`); one after it takes the loop out
  (`QuitLeaves`).
- `canceling_timers_` is never used: cancelling a timer of the batch being run has no effect, and a repeating timer
  that cancels itself goes on (`CancelTakesEffectIff`, `RunTimersGoOn`).
- `handle_write` does nothing in DISCONNECTING (`src/net/tcp_connection.cpp:177`), so line 202 is never reached and
  what is buffered when `shutdown()` is called is never sent (`ShutdownClosesWriteSideIff`, `BufferedByteIsLost`),
  against the graceful shutdown the repository's README promises.
- One event with READ ending in end of file and ERROR closes the connection twice and trips an assertion; a send
  queued by another thread and run after the close makes the poller throw (`ReadyKeepsInv`, `CrashExactly`,
  `ErrorAfterEndOfFileCrashes`).
- Connection names are cut to 63 characters behind the server's name. Names, and with them the registry and the
  lifetime of connections, are safe exactly for addresses of at most 51 characters, port included (`NamesUniqueIff`,
  `SafeIff`). Dotted addresses are shorter, but `inet_aton` (`src/net/acceptor.cpp:133`) also accepts numbers with any
  count of leading zeros, and those reach the listening socket.
- The functor that `send()` leaves behind on another thread captures `this` without a reference. It finds its
  connection alive exactly when it was queued before the removal ran or a hang-up still holds a reference
  (`MessageFindsConnectionIff`); `LateMessageFindsNothing` is a run in which it does not.
- A thread pool of no workers accepts tasks and drops them (`NoWorkersNoProgress`).
- With `max_files_` at most 1 a rotation replaces the archive it made before (`NeverClobbersIff`).

## Model

| member | source | states |
|---|---|---|
| `Text.FindCrlf` | src/utils/buffer.cpp:155-158 | the offset found holds "\r\n", none earlier does, and None means there is none at all |
| `Text.FindCrlfExtends` | src/utils/buffer.cpp:155-158 | bytes arriving later never change a line end already found, and one found only with them ends past the bytes seen before, of which the last may be its first half |
| `Text.SpaceIs` | src/http/http_parser.cpp:97 | the white space that ends a token: blank, tab, newline, vertical tab, form feed, carriage return |
| `Text.ExtractSplits` | src/http/http_parser.cpp:93-99 | one `>>` into a string: the text is exactly blanks, then the token without white space, then a rest that begins with white space; the token is empty only when there are blanks alone |
| `Text.StoullReads` | src/http/http_request.cpp:83-87 | `std::stoull` on blanks, an optional sign, digits and a rest: refused without digits or when they exceed 64 bits, negated modulo 2^64 behind a minus, the number otherwise |
| `Text.NumberSplits` | src/http/http_request.cpp:83-87 | every text whatever can be taken apart in that way, so `StoullReads` covers all of them |
| `Text.StoullDecimal` | src/http/http_request.cpp:83-87 | reading the decimal form of any 64-bit number, whatever follows its digits, returns the number |
| `Http.NamesReadBack` | src/http/http_parser.cpp:150-168 | the text of every method and of every known version reads back as that method and version |
| `Http.RepeatedFieldsCombine` | src/http/http_request.cpp:34-44 | after any list of `add_header` calls the table has one entry for each distinct name, ignoring case, and it is that name's values in order joined by ", " (section 5.3 of RFC 9110) |
| `Http.HttpRequest.AddHeaderField` | src/http/http_request.cpp:34-44 | the method in place does to the header table what the specification function says, and nothing else changes |
| `Http.HttpRequest.Reset` | src/http/http_request.cpp:105-114 | every field is back at its initial value |
| `Http.HttpRequest.StartLineText` | src/http/http_request.cpp:120-125 | the request line printed for the object |
| `Http.HttpRequest.HeadersText` | src/http/http_request.cpp:127-130 | the loop over the header map prints the table for some order in which the map may be walked |
| `Http.HttpRequest.ToString` | src/http/http_request.cpp:117-140 | the text is the printed form of the request, for that order |
| `HttpParsing.OneTurn` | src/http/http_parser.cpp:16-82 | a turn that goes round again has consumed input, so `parse_request` terminates |
| `HttpParsing.TurnExtends` | src/http/http_parser.cpp:16-82 | a turn of the loop does the same when more bytes stand behind those it looks at |
| `HttpParsing.ParseExtends` | src/http/http_parser.cpp:15-85 | a call that completed or failed is unaffected by later bytes; one that did not and is called again after them ends where a single call on everything ends |
| `HttpParsing.ChunkingInvariance` | src/http/http_parser.cpp:15-85 | for every parser state without error, every byte string and every way to cut it, feeding the pieces gives the verdict, parser, request and left-over bytes of one call on the whole |
| `HttpParsing.ParseConsumes` | src/http/http_parser.cpp:15-85 | a call never adds to the input, completes only in PARSE_COMPLETE, and consumes something when it completes a message it began |
| `HttpParsing.ServeExtends` | src/http/http_parser.cpp:15-91 | the messages served from a prefix of the input are the first ones served from all of it; the rest come from what was left |
| `HttpParsing.PipelineChunking` | src/http/http_parser.cpp:15-91 | with a reset between messages, the list of messages, the final state and the left-over bytes do not depend on how the stream was cut |
| `HttpParsers.HttpParser.constructor` | src/http/http_parser.cpp:8-13 | a new parser has no error, no body length and expects no body |
| `HttpParsers.HttpParser.Reset` | src/http/http_parser.cpp:87-91 | error, body length and body flag are cleared |
| `HttpParsers.HttpParser.ParseStartLine` | src/http/http_parser.cpp:93-125 | verdict and request fields, also those left set by a failure, are the specification's |
| `HttpParsers.HttpParser.ParseHeaderLine` | src/http/http_parser.cpp:127-148 | fails exactly without a colon or with an empty name, otherwise adds the trimmed field |
| `HttpParsers.HttpParser.TakeLine` | src/http/http_parser.cpp:19-25 | takes the bytes before the first line end and the line end itself off the real buffer, or nothing |
| `HttpParsers.HttpParser.TakeHeaderTurn` | src/http/http_parser.cpp:35-60 | one turn in PARSE_HEADERS on buffer and request objects is the specification's turn, whose outcome `MessageRead` and `MessageRefused` give |
| `HttpParsers.HttpParser.TakeTurn` | src/http/http_parser.cpp:16-82 | one turn on buffer and request objects is the specification's turn |
| `HttpParsers.HttpParser.ParseRequest` | src/http/http_parser.cpp:15-85 | the `while` loop over the real buffer ends with the verdict and in the state of the specification, which `MessageRead`, `MessageRefused` and `IdleCalls` give on the bytes |
| `HttpParsers.ParseInPieces` | tests/http_parser_test.cpp:72-86 | appending fragments to one buffer and calling the parser after each, on real objects, ends as one call on everything does |
| `HttpRoundTrip.StartLineReadsBack` | src/http/http_parser.cpp:93-125 | the printed request line is accepted and gives back method, path, query and version; without path and query it is refused |
| `HttpRoundTrip.FieldReadsBack` | src/http/http_parser.cpp:127-148 | a printed field is accepted and gives back its name and the trimmed value |
| `HttpRoundTrip.TidyReadsBack` | src/http/http_parser.cpp:136-140 | a value survives the trimming exactly when it neither starts with a blank nor ends with a blank or line end |
| `HttpRoundTrip.TableRebuilt` | src/http/http_request.cpp:127-130 | for every order of printing, the table parsed back has the same names and the values trimmed |
| `HttpRoundTrip.TableUnchangedIff` | src/http/http_request.cpp:127-130 | that table equals the printed one exactly when every value is tidy |
| `HttpRoundTrip.TurnSound` | src/http/http_parser.cpp:16-82 | every turn that does not fail keeps the invariant of a parser started afresh, in PARSE_BODY that the remembered length is the header's and positive |
| `HttpRoundTrip.CallKeepsSound` | src/http/http_parser.cpp:15-85 | so does every call: unless it failed, `content_length_` is the header's whenever the state is PARSE_BODY between calls |
| `HttpRoundTrip.CompletedIsSound` | src/http/http_parser.cpp:15-85 | every request ever completed has a known method and version, a target without white space, trimmed lower-case names, and a body of exactly the length its header says |
| `HttpRoundTrip.ParserUndoesPrinter` | src/http/http_request.cpp:117-140 | for every well-formed request, every order of its header map and whatever bytes follow, parsing the printed form completes, rebuilds the request and leaves exactly those bytes |
| `HttpRoundTrip.RoundTripExactly` | src/http/http_request.cpp:117-140 | for every request at all: printing and parsing gives it back with an empty buffer if and only if it is well-formed |
| `HttpRoundTrip.NoPrefixSettles` | src/http/http_parser.cpp:15-85 | no proper prefix of a printed well-formed request completes or fails |
| `HttpRoundTrip.ShortBodyWaits` | src/http/http_parser.cpp:62-72 | a body shorter than Content-Length leaves the parser waiting, without an error |
| `HttpRoundTrip.CompletesIffBodyArrived` | src/http/http_parser.cpp:62-72 | a message whose head is well-formed completes if and only if as many bytes follow the head as get_content_length() returns; `AnnouncedIsLength` and `LengthTakesBody` say which number that is |
| `HttpMessages.NamesAre` | src/http/http_parser.cpp:150-168 | each method and version is read from its own name, letter case included, and no other text names one |
| `HttpMessages.SameNameIff` | src/http/http_request.cpp:34-44 | two field names share an entry of the header table exactly when they differ in letter case alone |
| `HttpMessages.StartLineRead` | src/http/http_parser.cpp:93-125 | blanks, three tokens and an ignored rest: accepted exactly for a known method and a known version; the target is cut at its first question mark; what a failure leaves set |
| `HttpMessages.ShortLineRefused` | src/http/http_parser.cpp:97-99 | a line that cannot be taken apart so has fewer than three tokens, is refused and sets nothing |
| `HttpMessages.FieldRead` | src/http/http_parser.cpp:127-148 | a field line gives its name and value without the blanks around them, cut at its first colon |
| `HttpMessages.FieldRefusedIff` | src/http/http_parser.cpp:128-144 | a field line is refused exactly when it has no colon or only blanks before its first one |
| `HttpMessages.AnnouncedIsLength` | src/http/http_request.cpp:77-88 | every table announces one number - none without the field, else the digits of its value under their sign, and none without digits or beyond 64 bits - and it is the one get_content_length() returns |
| `HttpMessages.MessageRead` | src/http/http_parser.cpp:15-85 | any acceptable request line and field lines: the call completes exactly when as many bytes follow the empty line as the table announces; those are the body, the rest stays unread, and until then it waits without an error |
| `HttpMessages.MessageRefused` | src/http/http_parser.cpp:27-30 | the first line refused, request line or field line, ends the call in error right behind it, with what was read before in the request |
| `HttpMessages.IdleCalls` | src/http/http_parser.cpp:19-82 | without a line end, or with too short a body, a call changes nothing; on a complete request it returns true again, on a failed one false |
| `HttpMessages.NoLengthNoBody` | src/http/http_parser.cpp:44-52 | a printed request without Content-Length and body completes at its empty line and leaves what follows |
| `HttpMessages.LengthTakesBody` | src/http/http_parser.cpp:62-72 | under a Content-Length of n, whatever stands behind its digits, a printed request completes if and only if at least n bytes of body are there, and takes exactly the first n |
| `HttpMessages.RefusedLengthNoBody` | src/http/http_request.cpp:83-87 | under a Content-Length without digits or beyond 64 bits it completes with an empty body and leaves the body's bytes unread |
| `HttpMessages.PrintedExample` | src/http/http_request.cpp:117-140 | the exact text of a small request |
| `HttpRoundTrip.PostedDoesNotComplete` | tests/http_parser_test.cpp:51-70 | the request of this test, with 16 bytes of body under a Content-Length of 18, does not complete |
| `HttpResumption.FieldLineRefused` | src/http/http_parser.cpp:93-106 | no field line with a lower-case name is ever accepted as a request line |
| `HttpResumption.BodyFitsInput` | src/http/http_parser.cpp:62-68 | a message read from its start is longer than its body |
| `HttpResumption.TableCut` | src/http/http_parser.cpp:34-72 | wherever the header table or body is cut, a call that did not complete leaves to the next ones stray bytes: they start at a field line or the empty line, or are at most the body |
| `HttpResumption.StrayCall` | src/http/http_server.cpp:72-79 | a call on stray bytes drops at most the line it finds, serves no message with that body, and leaves stray bytes |
| `HttpResumption.FreshRequestResumesIff` | src/http/http_server.cpp:63-87 | for every well-formed message, every order of its fields and every way to cut it into pieces: with a new request object for each call, as the server makes, the message is served if and only if the pieces before the last, joined, hold no line end, and then nothing else is |
| `HttpResumption.ServesOneACall` | src/http/http_server.cpp:63-87 | for every list of well-formed messages, one after the other and cut into any pieces: if no call cuts a message behind a line end, exactly the first `CountServed` are served, in order, one a call however many arrived with it |
| `HttpResumption.CountServed` | src/http/http_server.cpp:63-87 | never more than one message for each piece |
| `HttpRoundTrip.ServeReturnsMessages` | src/http/http_parser.cpp:15-91 | serving the concatenated printed forms of any list of well-formed requests returns that list in order and an empty buffer |
| `HttpRoundTrip.PipelineReturnsMessages` | src/http/http_parser.cpp:15-91 | and so it does however the concatenation is cut into fragments |
| `Buffers.Buffer.constructor` | src/utils/buffer.cpp:11-16 | an empty queue of bytes with 8 bytes free in front |
| `Buffers.Buffer.RetrieveAll` | include/tzzero/utils/buffer.h:40 | the queue is empty and the front gap is back at 8 |
| `Buffers.Buffer.Retrieve` | src/utils/buffer.cpp:54-60 | drops `len` bytes, or all of them when there are no more |
| `Buffers.Buffer.RetrieveAsString` | src/utils/buffer.cpp:62-66 | returns the first `len` bytes and drops them |
| `Buffers.Buffer.Grow` | src/utils/buffer.cpp:244-246 | the enlarged array holds the same bytes at the same indices |
| `Buffers.Buffer.MoveDown` | src/utils/buffer.cpp:247-253 | the in-place forward copy keeps the readable bytes, because their destination is strictly lower |
| `Buffers.Buffer.MakeSpace` | src/utils/buffer.cpp:243-254 | the bytes are kept and `len` more fit; the array is kept, with the eight bytes free in front, exactly when the free space on both sides suffices, and grows to the write index plus `len` otherwise |
| `Buffers.Buffer.EnsureWritableBytes` | src/utils/buffer.cpp:149-153 | room for the bytes with the queue unchanged; the array is kept exactly when there was room behind, or enough on both sides |
| `Buffers.Buffer.FillTail` | src/utils/buffer.cpp:74-75 | stores bytes behind the readable ones without touching those |
| `Buffers.Buffer.Append` | src/utils/buffer.cpp:72-76 | for every layout of the indices the queue grows by exactly these bytes, in a new array exactly when the free space on both sides does not suffice, and within the capacity bound |
| `Buffers.Buffer.Prepend` | src/utils/buffer.cpp:143-147 | within the front gap the bytes go in front of the queue |
| `Buffers.Buffer.FindLineEnd` | src/utils/buffer.cpp:155-158 | the search over the array finds the first line end of the queue |
| `Buffers.Buffer.ReadFd` | src/utils/buffer.cpp:175-199 | whatever `readv` delivers, also past the free tail into the 65536-byte stack buffer, is appended in order; an error changes nothing and is reported |
| `Buffers.Buffer.WriteFd` | src/utils/buffer.cpp:201-209 | exactly the bytes the kernel took leave the front; an error changes nothing and is reported |
| `Buffers.Buffer.AppendInt8` | src/utils/buffer.cpp:78-80 | appends the one-byte two's complement form |
| `Buffers.Buffer.AppendInt16` | src/utils/buffer.cpp:82-85 | appends the two bytes in network order |
| `Buffers.Buffer.AppendInt32` | src/utils/buffer.cpp:87-90 | appends the four bytes in network order |
| `Buffers.Buffer.AppendInt64` | src/utils/buffer.cpp:92-97 | two 32-bit halves written one after the other are the eight bytes in network order |
| `Buffers.Buffer.PeekInt8` | src/utils/buffer.cpp:123-125 | decodes the first byte, the queue unchanged |
| `Buffers.Buffer.PeekInt16` | src/utils/buffer.cpp:127-130 | decodes the first two bytes, the queue unchanged |
| `Buffers.Buffer.PeekInt32` | src/utils/buffer.cpp:132-135 | decodes the first four bytes, the queue unchanged |
| `Buffers.Buffer.PeekInt64` | src/utils/buffer.cpp:137-141 | combines the first word with itself, as the code does |
| `Buffers.Buffer.ReadInt8` | src/utils/buffer.cpp:99-103 | returns what peek shows and drops one byte |
| `Buffers.Buffer.ReadInt16` | src/utils/buffer.cpp:105-109 | returns what peek shows and drops two bytes |
| `Buffers.Buffer.ReadInt32` | src/utils/buffer.cpp:111-115 | returns what peek shows and drops four bytes |
| `Buffers.Buffer.ReadInt64` | src/utils/buffer.cpp:117-121 | returns what peek shows and drops eight bytes |
| `NetworkOrder.DecodeEncode` | src/utils/buffer.cpp:78-90 | decoding undoes encoding for every value of every width |
| `NetworkOrder.EncodedByte` | src/utils/buffer.cpp:82-97 | the byte at each place of an encoded value is the digit of that weight, most significant first, in two's complement |
| `NetworkOrder.EncodedExamples` | src/utils/buffer.cpp:82-90 | the bytes of two values |
| `NetworkOrder.CombineHalves` | src/utils/buffer.cpp:92-97 | the two halves of a 64-bit value make it up again, and any two 32-bit words are the halves of what they make up |
| `NetworkOrder.HalvesAreNetworkOrder` | src/utils/buffer.cpp:92-97 | the encodings of the halves, one after the other, are the eight-byte encoding |
| `NetworkOrder.PeekEncoded` | src/utils/buffer.cpp:123-141 | whatever follows, the readers return the value written, except that of a 64-bit value the high half stands in for both; a reader taking the second word at offset 4 returns every value as written |
| `NetworkOrder.SeenUnchangedIff` | src/utils/buffer.cpp:137-141 | a 64-bit value is read back as written if and only if its two halves are equal |
| `NetworkOrder.GreatestIsMisread` | tests/buffer_test.cpp:50-60 | the 64-bit value this test writes is read back as a different one |
| `NetworkOrder.MixedFifo` | src/utils/buffer.cpp:78-141 | any list of mixed values leaves the queue in order, each consuming exactly its width, and what follows stays |
| `NetworkOrder.MixedFifoExact` | src/utils/buffer.cpp:78-141 | the whole list is read back as written if and only if each 64-bit value in it has equal halves |
| `TimerSafety.AddTimerKeepsInv` | src/core/timer_queue.cpp:89-97 | both indices agree, every timer has one owner and every number one fate after an addition at any moment, also from a callback |
| `TimerSafety.CancelTimerKeepsInv` | src/core/timer_queue.cpp:144-157 | the same after a cancellation: the erase by key hits its entry and the timer is deleted once |
| `TimerSafety.TakeExpiredKeepsInv` | src/core/timer_queue.cpp:164-179 | the same after the expired timers moved from both indices into the batch |
| `TimerSafety.DueExactly` | src/core/timer_queue.cpp:164-170 | the entries before the sentinel are exactly those whose deadline is at most the pass time |
| `TimerSafety.BeginRunKeepsInv` | src/core/timer_queue.cpp:126-128 | the next entry of the batch still points to a live timer, whatever earlier callbacks did |
| `TimerSafety.ReturnTimerKeepsInv` | src/core/timer_queue.cpp:181-189 | the invariant is kept when the front of the batch is given back; `RunTimersGoOn` says what becomes of it |
| `TimerHistory.PassRunsExactlyDue` | src/core/timer_queue.cpp:119-132 | a pass runs exactly the timers due at its time, once each, in set order, whatever the callbacks add or cancel |
| `TimerHistory.FiringHistory` | src/core/timer_queue.cpp:119-195 | for every life of a queue under every callback script: no timer runs before its deadline, a one-shot timer runs at most once, and runs of a repeating timer are at least its interval apart |
| `TimerHistory.OwnershipBetweenPasses` | src/core/timer_queue.cpp:119-210 | for every such life: the indices hold exactly the allocated timers under their current deadlines and numbers, and each number ever given out is live or deleted, never both |
| `TimerHistory.CancelTakesEffectIff` | src/core/timer_queue.cpp:144-157 | a cancellation deletes the timer if and only if it is in the indices; for a timer of the batch being run it changes nothing |
| `TimerHistory.RunTimersGoOn` | src/core/timer_queue.cpp:119-195 | for every queue and every script of additions and cancellations by the callbacks of a pass, of themselves or of each other: each repeating timer the pass runs is afterwards in both indices at its address with deadline pass time plus interval, and each one-shot timer is deleted; so cancelling a timer of the batch is ignored |
| `TimerHistory.CancelIsFinal` | src/core/timer_queue.cpp:144-157 | once a cancellation has taken effect, between passes or from a callback in mid-pass, the timer does not run in the rest of that callback's calls, of the pass, or of any later life |
| `TimerHistory.TimeoutIsSound` | src/core/timer_queue.cpp:104-117 | the poll timeout is -1 exactly when no timer is held, never reaches past a deadline, and falls short of the earliest by less than a millisecond |
| `TimerBook.AddTimerEffect` | src/core/timer_queue.cpp:89-97 | the whole effect of an addition: one new timer due `now() + when`, one entry more in each index, one number and one clock reading used, nothing else |
| `TimerBook.CancelEffect` | src/core/timer_queue.cpp:144-157 | the whole effect of a cancellation that finds its timer: that timer and its two entries, nothing else |
| `TimerBook.OpRefines` | src/core/timer_queue.cpp:89-157 | add and cancel do to the timers in the indices what they do to a table of deadlines and intervals by number |
| `TimerBook.PassRefines` | src/core/timer_queue.cpp:119-132 | a pass with reentrant callbacks does to them what the simple book does: the due numbers leave, each callback makes its calls in order, and the repeating ones come back an interval after the pass |
| `TimerBook.LifeRefines` | src/core/timer_queue.cpp:89-210 | refinement: for every life of the queue, on its two indices and explicit heap, the timers in it are those of the book |
| `TimerBook.PassLogsDue` | src/core/timer_queue.cpp:119-132 | the callbacks a pass runs are those of the numbers due, each under its deadline and interval, and all of them |
| `TimerBook.NeverBeforeItsDelay` | src/core/timer_queue.cpp:89-97 | a timer added between passes or in mid-pass never runs before its delay after that clock reading is over, in any life that follows |
| `TimerBook.FirstPassRunsIt` | src/core/timer_queue.cpp:119-132 | and unless someone asks to cancel it, the first pass at or after that moment runs it, and none before |
| `Timers.TimerQueue.constructor` | src/core/timer_queue.cpp:68-77 | an empty queue |
| `Timers.TimerQueue.Insert` | src/core/timer_queue.cpp:197-210 | enters the timer in both indices and reports whether it is now the earliest |
| `Timers.TimerQueue.AddTimer` | src/core/timer_queue.cpp:89-97 | at an address not in use a timer due the delay after the clock reading, with that interval and the next number, which is returned; entered in both indices, every other timer as it was |
| `Timers.TimerQueue.FindNumber` | src/core/timer_queue.cpp:146-149 | the linear search finds the timer with this number, or there is none |
| `Timers.TimerQueue.CancelTimer` | src/core/timer_queue.cpp:144-157 | the state is the specification's after a cancellation |
| `Timers.TimerQueue.Erase` | src/core/timer_queue.cpp:149-152 | leaves both indices and is deleted |
| `Timers.TimerQueue.CountDue` | src/core/timer_queue.cpp:166-167 | the length of the part of the set before the sentinel |
| `Timers.TimerQueue.DropActive` | src/core/timer_queue.cpp:173-176 | the loop removes exactly the batch from the second index |
| `Timers.TimerQueue.GetExpired` | src/core/timer_queue.cpp:164-179 | the state is the specification's with the due timers in the batch |
| `Timers.TimerQueue.RunCallback` | src/core/timer_queue.cpp:126-128 | the callback's own calls, one after the other, reenter the queue |
| `Timers.TimerQueue.ReturnFront` | src/core/timer_queue.cpp:183-188 | one entry is armed again or deleted |
| `Timers.TimerQueue.Reset` | src/core/timer_queue.cpp:181-189 | and so is the whole batch |
| `Timers.TimerQueue.RunExpired` | src/core/timer_queue.cpp:126-128 | the loop over the batch is the specification's |
| `Timers.TimerQueue.ProcessExpiredTimers` | src/core/timer_queue.cpp:119-132 | one pass of the object is one pass of the specification, so the history theorems hold of it |
| `Timers.TimerQueue.GetNextTimeout` | src/core/timer_queue.cpp:104-117 | returns the timeout whose soundness `TimeoutIsSound` states |
| `LoopSpec.StepKeepsInv` | src/core/event_loop.cpp:44-160 | every step of every thread keeps the hand-off order and the wake-up behind waiting work |
| `LoopSpec.RunKeepsInv` | src/core/event_loop.cpp:44-160 | so every run of any number of threads does |
| `LoopSpec.NoLostWakeUp` | src/core/event_loop.cpp:54-117 | in every interleaving a loop that may block in poll has nothing pending and no quit to notice, or another thread still owes it the write that wakes it |
| `LoopSpec.PendingWorkRuns` | src/core/event_loop.cpp:54-117 | from a poll with work pending and no unit in the eventfd some thread owes one; that write by any thread that owes it, one turn of the loop and the batch it takes are a legal run and run everything enqueued so far |
| `LoopSpec.QuitLeaves` | src/core/event_loop.cpp:53-95 | from a poll with a quit in effect the same steps, and the check after them, take the loop out |
| `LoopSpec.ReadNeverFails` | src/core/event_loop.cpp:138-143 | the eventfd is never read when its counter is zero |
| `LoopSpec.FunctorsRunInOrder` | src/core/event_loop.cpp:145-160 | in every interleaving the functors run are a prefix of those enqueued, and the rest wait in order in the batch and the pending vector: exactly once, first in first out |
| `LoopSpec.BatchIsFixed` | src/core/event_loop.cpp:145-160 | functors enqueued while a batch runs go to the next one; the batch shrinks by one a run and so ends |
| `LoopSpec.QuitInEffectIff` | src/core/event_loop.cpp:44-95 | `quit_` is set if and only if a `quit()` came after the last entry into `loop()` |
| `LoopSpec.EarlyQuitIsLost` | src/core/event_loop.cpp:44-49 | a run in which `quit()` returns before `loop()` is entered and the loop then may sleep for ever |
| `LoopSpec.PushesAreEnqueued` | src/core/event_loop.cpp:109-117 | in every interleaving what was enqueued is what all threads pushed, in the order of the critical sections, and each run step starts one functor |
| `EventLoops.EventLoop.constructor` | src/core/event_loop.cpp:18-38 | a loop that is not running, with nothing pending |
| `EventLoops.EventLoop.WakeUp` | src/core/event_loop.cpp:131-136 | the counter goes up by one unless it is full |
| `EventLoops.EventLoop.QueueInLoop` | src/core/event_loop.cpp:109-117 | push, then wake-up, as two steps of the machine: the functor joins the end and one unit is written |
| `EventLoops.EventLoop.Quit` | src/core/event_loop.cpp:90-95 | on the loop thread the flag is set, without a wake-up |
| `EventLoops.EventLoop.HandleWakeUp` | src/core/event_loop.cpp:138-143 | one read empties the counter |
| `EventLoops.EventLoop.RunFunctor` | src/core/event_loop.cpp:155-157 | one functor runs with the calls it makes: it leaves the batch, what it enqueues joins the pending vector in order with one unit of the eventfd each, and quit is set if it asks |
| `EventLoops.EventLoop.RunBatch` | src/core/event_loop.cpp:154-157 | the loop over the swapped-out vector runs each functor once, in order |
| `EventLoops.EventLoop.DoPendingFunctors` | src/core/event_loop.cpp:145-160 | exactly the functors pending at the swap are run, in order; what is pending afterwards is what they enqueued, in order, and the eventfd has gained one unit for each |
| `EventLoops.EventLoop.Turn` | src/core/event_loop.cpp:73-84 | one turn of the loop is a legal run of the machine, reads the eventfd and runs what was pending; afterwards the counter is positive if and only if that batch enqueued something |
| `EventLoops.EventLoop.Run` | src/core/event_loop.cpp:44-88 | `loop()` over any results of poll is a legal run of the machine that goes through exactly those polls, and ends if and only if quit is set or a poll failed; functors run, functors pending, the counter and quit are those of the turns taken, one turn for each poll that returned, each running what the one before enqueued |
| `EventLoops.EventLoop.CheckQuit` | src/core/event_loop.cpp:53 | the loop goes on to poll exactly when quit is not set |
| `EventLoops.EventLoop.PollFails` | src/core/event_loop.cpp:60-71 | EINTR goes around again and any other error leaves the loop |
| `EventLoops.EventLoop.HandleEvents` | src/core/event_loop.cpp:73-81 | the eventfd is among the events while its counter is positive, and is read empty |
| `EventLoops.EnqueuedInOrder` | src/core/event_loop.cpp:109-117 | what a functor enqueues is one functor for each of its calls, in the order of the calls |
| `EventLoops.AllEnqueuedInOrder` | src/core/event_loop.cpp:154-157 | what a batch enqueues is what its functors enqueue, one after the other |
| `EventLoops.OneMoreTurn` | src/core/event_loop.cpp:53-85 | after one turn more the functors run are those before and all that were pending, and quit is in effect exactly if one of them asked |
| `ConnectionSafety.SendKeepsInv` | src/net/tcp_connection.cpp:238-292 | whatever the kernel answers, a send keeps the ledger and the write interest; it fails exactly for data on a connection no longer (or not yet) registered |
| `ConnectionSafety.CallKeepsInv` | src/net/tcp_connection.cpp:49-104 | no call made on the loop thread fails, and only `force_close` ends an open connection |
| `ConnectionSafety.ReadKeepsInv` | src/net/tcp_connection.cpp:154-172 | a read keeps the invariant and closes the connection exactly on end of file, on an error or on a reply that forces it |
| `ConnectionSafety.WriteKeepsInv` | src/net/tcp_connection.cpp:174-210 | a write event keeps the invariant and the state; what it writes is `WriteEffect` |
| `ConnectionSafety.ReadyKeepsInv` | src/net/tcp_connection.cpp:118-128 | the handler fails exactly when an error follows a read that closed the connection, or on a stale event |
| `ConnectionSafety.StepKeepsInv` | src/net/tcp_connection.cpp:80-308 | every event keeps ledger, registration, write interest and close count, and fails exactly when `Fatal` says |
| `ConnectionSafety.RunKeepsInv` | src/net/tcp_connection.cpp:80-308 | in every run: written bytes followed by buffered ones are the accepted messages, the descriptor is registered if and only if the connection is open, write interest is on if and only if bytes are buffered, and the close callback has fired once if and only if it is DISCONNECTED |
| `ConnectionSafety.CrashExactly` | src/net/tcp_connection.cpp:213-236 | a run ends in a failed assertion or a poller exception if and only if one of its events is fatal to the connection as it finds it |
| `ConnectionSafety.ErrorAfterEndOfFileCrashes` | src/net/tcp_connection.cpp:118-128 | an event with end of file and an error ends the run in a failed assertion |
| `ConnectionSafety.RunGoesForward` | src/net/tcp_connection.cpp:80-142 | states only move from CONNECTING through CONNECTED and DISCONNECTING to DISCONNECTED, bytes once written or accepted stay so, and past CONNECTED nothing more is written |
| `ConnectionSafety.OutputIsFaithful` | src/net/tcp_connection.cpp:238-300 | in every run the wire carries a prefix of the accepted messages; write-complete is queued only when all is written; SHUT_WR comes at most once, when all is written, and nothing is written after it |
| `ConnectionSafety.ShutdownClosesWriteSideIff` | src/net/tcp_connection.cpp:80-91 | after `shutdown()` the write side is closed if nothing was buffered at that moment, and otherwise never, and then the buffered bytes are never written |
| `ConnectionSafety.BufferedByteIsLost` | src/net/tcp_connection.cpp:80-91 | a byte buffered when `shutdown()` is called is never written and the write side stays open, whatever follows |
| `ConnectionSafety.AlarmOnCrossing` | src/net/tcp_connection.cpp:267-273 | the high-water callback is queued exactly by the send that takes the buffer from below the mark to it or beyond, with the new length |
| `ConnectionOutput.StateAfter` | src/net/tcp_connection.cpp:80-236 | the state every event leaves, as a table: send keeps it, shutdown and force_close, end of file, errors and the teardown move it on |
| `ConnectionOutput.SendEffect` | src/net/tcp_connection.cpp:238-292 | send_in_loop takes over its data or, on EPIPE and ECONNRESET with nothing buffered, drops all of it; what the kernel took is on the wire, the rest is buffered, and write-complete is queued exactly when it took all at once |
| `ConnectionOutput.SendCallEffect` | src/net/tcp_connection.cpp:49-60 | send() on the loop thread is send_in_loop for a CONNECTED connection and nothing otherwise |
| `ConnectionOutput.WriteEffect` | src/net/tcp_connection.cpp:174-210 | a write event moves what the kernel takes from the front of the buffer to the wire; write interest goes off and write-complete is queued exactly when that was something and nothing is left; otherwise nothing changes |
| `ConnectionOutput.BufferDrains` | src/net/tcp_connection.cpp:174-210 | over any list of write events the wire follows the accepted bytes as far as the kernel takes them, and write-complete is queued once, when the last buffered byte is out |
| `ConnectionOutput.EveryByteIsWritten` | src/net/tcp_connection.cpp:174-210 | as many write events as bytes are buffered, each taking at least one, put every accepted byte on the wire |
| `ConnectionOutput.ReadyIsThreeEvents` | src/net/tcp_connection.cpp:118-128 | one event with several flags does what a read, a write and an error event one after the other do |
| `ConnectionOutput.ReplyIsItsCalls` | src/net/tcp_connection.cpp:160-164 | data delivered does what the calls of the message callback do one after the other |
| `ConnectionOutput.CloseEffect` | src/net/tcp_connection.cpp:213-236 | end of file, a read error, an error event, force_close and the teardown all do the same to an open connection, and move no byte |
| `ConnectionOutput.OpenAndShutdownEffect` | src/net/tcp_connection.cpp:80-142 | what connection_established and shutdown do, and that shutdown, force_close and the teardown do nothing elsewhere |
| `TcpConnections.TcpConnection.constructor` | src/net/tcp_connection.cpp:16-22 | CONNECTING, with empty buffers |
| `TcpConnections.TcpConnection.QueueWriteComplete` | src/net/tcp_connection.cpp:250-254 | queued when the callback is set |
| `TcpConnections.TcpConnection.BufferRemaining` | src/net/tcp_connection.cpp:266-291 | the rest goes to the real output buffer, the alarm and the write interest follow |
| `TcpConnections.TcpConnection.SendInLoop` | src/net/tcp_connection.cpp:238-292 | the state after a send is the specification's for every kernel answer |
| `TcpConnections.TcpConnection.ShutdownInLoop` | src/net/tcp_connection.cpp:294-300 | SHUT_WR exactly when nothing is buffered |
| `TcpConnections.TcpConnection.Shutdown` | src/net/tcp_connection.cpp:80-91 | only a CONNECTED connection reacts |
| `TcpConnections.TcpConnection.HandleClose` | src/net/tcp_connection.cpp:213-224 | unregisters, reports the close and ends DISCONNECTED, or trips the assertion |
| `TcpConnections.TcpConnection.ForceClose` | src/net/tcp_connection.cpp:93-104 | closes an open connection and leaves any other alone |
| `TcpConnections.TcpConnection.ConnectionEstablished` | src/net/tcp_connection.cpp:111-129 | registers for reading, or trips the assertion |
| `TcpConnections.TcpConnection.ConnectionDestroyed` | src/net/tcp_connection.cpp:131-142 | closes a connection still CONNECTED |
| `TcpConnections.TcpConnection.Callback` | src/net/tcp_connection.cpp:160-164 | the calls a message callback makes, one after the other |
| `TcpConnections.TcpConnection.HandleRead` | src/net/tcp_connection.cpp:154-172 | data goes to the callback, end of file and errors close |
| `TcpConnections.TcpConnection.HandleWrite` | src/net/tcp_connection.cpp:174-210 | in CONNECTED the bytes the kernel takes move from the front of the real buffer to the wire, and write interest goes off exactly when that was something and nothing is left; in any other state nothing happens |
| `TcpConnections.TcpConnection.HandleReady` | src/net/tcp_connection.cpp:118-128 | read, then write, then error, as registered with the poller |
| `ServerNames.NamesDiffer` | src/net/tcp_server.cpp:82-84 | different numbers give different connection names when the listening address has at most 51 characters |
| `ServerNames.NameIs` | src/net/tcp_server.cpp:82-84 | the name in full for addresses of at most 51 characters, and its first 63 characters for long ones |
| `ServerNames.LongAddressCollides` | src/net/tcp_server.cpp:82-84 | with a longer address two named numbers give the same name, because the buffer keeps 63 characters |
| `ServerNames.NamesUniqueIff` | src/net/tcp_server.cpp:82-84 | names tell all numbers of a 32-bit counter apart if and only if the address has at most 51 characters |
| `ServerSpec.DoStop` | src/net/tcp_server.cpp:62-68 | the walk over the connections leaves the registry as it is, and removes and tears down nobody |
| `ServerSafety.AppendKeepsInv` | src/core/event_loop.cpp:109-117 | queueing a functor behind the others keeps the registry's invariant |
| `ServerSafety.PopKeepsInv` | src/core/event_loop.cpp:145-160 | taking the next functor keeps it, finds the connection in the state that functor expects, and finds no second copy of a life-cycle functor |
| `ServerSafety.SetupKeepsInv` | src/net/tcp_connection.cpp:111-115 | connection_established, on a connection still CONNECTING, keeps the invariant without a crash |
| `ServerSafety.NextInHand` | src/core/event_loop.cpp:145-157 | a loop that takes its next functor finds the connection as the functor asserts it (CONNECTING for a set-up, registered for a removal) and no second functor of its kind anywhere |
| `ServerSafety.RemoveKeepsInv` | src/net/tcp_server.cpp:116-129 | the erase finds the entry (`n == 1`), and the teardown is queued behind everything that needs the connection |
| `ServerSafety.CloseKeepsInv` | src/net/tcp_connection.cpp:213-224 | a close hands the removal to the base loop, at once or as a functor |
| `ServerSafety.TeardownKeepsInv` | src/net/tcp_connection.cpp:131-142 | connection_destroyed always finds its connection DISCONNECTED, so its own closing branch is never taken |
| `ServerSafety.HangupFindsItSetUp` | src/net/tcp_server.cpp:62-68 | a shutdown queued by `stop()` never runs before the set-up of its connection |
| `ServerSafety.AcceptKeepsInv` | src/net/tcp_server.cpp:79-108 | a new connection enters the registry with its set-up done or queued |
| `ServerSafety.StopKeepsInv` | src/net/tcp_server.cpp:53-72 | for every order of walking the registry, each connection walked over is marked and hung up or has its hang-up queued, and the registry is unchanged |
| `ServerSafety.StepKeepsInv` | src/net/tcp_server.cpp:53-129 | every step of every loop keeps the invariant |
| `ServerSafety.RunKeepsInv` | src/net/tcp_server.cpp:53-129 | so every interleaving does |
| `ServerProtocol.RegistryProtocol` | src/net/tcp_server.cpp:79-129 | in every interleaving no assertion fails, and a connection is found under its own name exactly from its acceptance until its removal runs |
| `ServerProtocol.StepMovesRegistry` | src/net/tcp_server.cpp:79-129 | each step leaves the registry alone, or enters the connection just accepted under a name not in use, or removes one never removed before: in once, out at most once |
| `ServerSteps.StepEffect` | src/net/tcp_server.cpp:53-129 | every step of every loop, as a table: the functors it posts and to which queue, the state each connection is left in, the entries that leave the registry, and nothing else |
| `ServerSteps.WalkEffect` | src/net/tcp_server.cpp:62-68 | the walk of `stop()` hangs up the connections of the base loop at once and posts one hang-up for each other one to its own loop, in the order of the walk |
| `ServerProtocol.FreedExactly` | src/net/tcp_connection.cpp:44-47 | the last reference goes exactly when the teardown has run and no hang-up is queued; the destructor's assertion holds then |
| `ServerProtocol.FreedOnlyDisconnected` | src/net/tcp_connection.cpp:44-47 | in every interleaving a connection without a reference is DISCONNECTED |
| `ServerProtocol.BorrowerFindsConnection` | src/net/tcp_connection.cpp:196-200 | a write-complete or high-water functor, which captures only `this`, still finds its connection alive when it runs |
| `ServerProtocol.MessageFindsConnectionIff` | src/net/tcp_connection.cpp:54-58 | the functor that `send()` on another thread leaves behind, which captures only `this`, finds its connection alive if and only if it was queued before the removal ran, that is ahead of the teardown, or a hang-up still holds a reference |
| `ServerProtocol.LateMessageFindsNothing` | src/net/tcp_connection.cpp:54-58 | a run in which such a functor is queued after the removal and nothing holds its connection when it comes up |
| `ServerProtocol.ExecuteIsEnabled` | src/core/event_loop.cpp:145-160 | a loop with a functor queued can always run it: the model blocks nothing the code would do |
| `ServerProtocol.NothingLeaks` | src/net/tcp_server.cpp:110-129 | once the queues are empty the registry holds exactly the connections not DISCONNECTED, every DISCONNECTED one has been freed, and none is stuck in CONNECTING |
| `ServerProtocol.StopReachesAll` | src/net/tcp_server.cpp:53-72 | once the queues are empty again, every connection that was registered when the body of `stop()` ran is DISCONNECTING or DISCONNECTED, in every interleaving |
| `ServerProtocol.LongAddressFreesOpen` | src/net/tcp_server.cpp:82-93 | with an address of 52 characters or more some run frees a connection that is still CONNECTED, and no more than two are ever open in it |
| `ServerProtocol.SafeIff` | src/net/tcp_server.cpp:79-129 | the assertions of registry, set-up and destructor hold in every run if and only if the address has at most 51 characters |
| `TcpServers.TcpServer.constructor` | src/net/tcp_server.cpp:10-19 | an idle server for any address; it satisfies the invariant if and only if the address has at most 51 characters |
| `TcpServers.TcpServer.QueueInLoop` | src/core/event_loop.cpp:109-117 | the functor joins the end of one loop's queue |
| `TcpServers.TcpServer.NewConnection` | src/net/tcp_server.cpp:79-108 | for any address the state is the specification's; where the invariant holds it is kept, and the new name was not in use |
| `TcpServers.TcpServer.RemoveConnection` | src/net/tcp_server.cpp:110-114 | runs the removal at once on the base loop and queues it otherwise |
| `TcpServers.TcpServer.RemoveConnectionInLoop` | src/net/tcp_server.cpp:116-129 | erases exactly one entry and queues the teardown |
| `TcpServers.TcpServer.StopConnection` | src/net/tcp_server.cpp:62-68 | one connection is hung up, or its hang-up queued |
| `TcpServers.TcpServer.StopInLoop` | src/net/tcp_server.cpp:57-69 | the loop over the map visits every registered connection and ends in the specification's state for that order |
| `TcpServers.TcpServer.RunNext` | src/core/event_loop.cpp:155-157 | running the functor at the head of a queue is the specification's step |
| `TcpServers.TcpServer.ConnectionEstablished` | src/net/tcp_connection.cpp:111-115 | takes a CONNECTING connection to CONNECTED; `NewConnection` and `RunNext` call it on no other |
| `TcpServers.TcpServer.Shutdown` | src/net/tcp_connection.cpp:80-82 | only a CONNECTED connection is hung up |
| `TcpServers.TcpServer.HandleClose` | src/net/tcp_connection.cpp:213-224 | marks the connection and hands its removal over |
| `TcpServers.TcpServer.ConnectionDestroyed` | src/net/tcp_connection.cpp:131-142 | finds it DISCONNECTED |
| `ThreadPools.StepKeepsInv` | src/utils/thread_pool.cpp:8-24 | every step of worker, submitter or stopper keeps the invariant |
| `ThreadPools.PoolInv` | src/utils/thread_pool.cpp:5-46 | so every interleaving from a new pool does |
| `ThreadPools.TasksAccountedFor` | include/tzzero/utils/thread_pool.h:49-57 | in every interleaving each accepted task is in exactly one of queued, running and finished, on one worker at most; which tasks are accepted is `PoolIsItsHistory` |
| `ThreadPools.StepIsOrderly` | include/tzzero/utils/thread_pool.h:49-57 | tasks leave the queue in submission order, none is accepted after a stop, and only a running task finishes; a running pool takes every submission by `SubmitEffect` |
| `ThreadPools.DrainedOnStop` | src/utils/thread_pool.cpp:33-45 | when all workers have exited the queue is empty and every accepted task has finished |
| `ThreadPools.NoLostNotify` | src/utils/thread_pool.cpp:12-13 | while a worker sleeps, the queued tasks are no more than the awake workers and the notifies on their way; after a stop its notify is on its way |
| `ThreadPools.StepShrinks` | src/utils/thread_pool.cpp:8-24 | after a stop every further step of pool or pending notify lowers a measure |
| `ThreadPools.StoppedRunIsBounded` | src/utils/thread_pool.cpp:33-45 | so a stopped pool runs for at most that many steps |
| `ThreadPools.StoppedIsNotStuck` | src/utils/thread_pool.cpp:8-24 | and while a worker lives some step is possible |
| `ThreadPools.StopCompletes` | src/utils/thread_pool.cpp:33-45 | so under every schedule all joins return and every accepted task has finished |
| `ThreadPools.NoWorkersNoProgress` | src/utils/thread_pool.cpp:5-6 | a pool of no workers never runs a task, and stopping it leaves the queue full |
| `ThreadPoolRuns.SubmitEffect` | include/tzzero/utils/thread_pool.h:49-61 | submit hands over its task behind the others with one notify owed, or changes nothing once the pool is stopped |
| `ThreadPoolRuns.PoolIsItsHistory` | src/utils/thread_pool.cpp:5-46 | in every interleaving the pool is told by its steps alone: accepted is what was submitted before the first stop, in order; the k-th take takes the k-th task; who runs, finished, sleeps and exited; and one notify follows each submission and each stop |
| `ThreadPoolRuns.AskedShrinks` | src/utils/thread_pool.cpp:8-24 | every step of worker or notify, stopped or not, lowers a measure of the work left |
| `ThreadPoolRuns.AskedRunIsBounded` | src/utils/thread_pool.cpp:8-24 | so a pool that gets no more calls comes to rest within that many steps |
| `ThreadPoolRuns.BusyIsNotStuck` | src/utils/thread_pool.cpp:8-24 | while a task is queued or running some worker or some notify can move |
| `ThreadPoolRuns.EveryTaskRuns` | src/utils/thread_pool.cpp:8-24 | so under every schedule a pool with a worker, stopped or not, has run and finished every task it accepted when it comes to rest |
| `MemoryPools.ReusedOnlyWhenReturned` | include/tzzero/utils/memory_pool.h:62-107 | in the history of a pool, between two times a slot is handed out it was given back |
| `MemoryPools.NoneFree` | include/tzzero/utils/memory_pool.h:66-75 | the free count is zero exactly when all flags are set, so the scan of a block with a positive count always finds a slot |
| `MemoryPools.MarkUsed` | include/tzzero/utils/memory_pool.h:68-72 | setting a clear flag and lowering the count puts exactly that address in use, one nobody had |
| `MemoryPools.MarkFree` | include/tzzero/utils/memory_pool.h:99-103 | clearing a set flag and raising the count takes exactly that address out of use |
| `MemoryPools.AddedBlock` | include/tzzero/utils/memory_pool.h:109-112 | a new block puts nothing in use |
| `MemoryPools.FullPool` | include/tzzero/utils/memory_pool.h:65-79 | if no block has a free slot then every slot is in use, and they are blocks times block size many |
| `MemoryPools.MemoryPool.constructor` | include/tzzero/utils/memory_pool.h:50-56 | one block and nothing handed out, for any block size; the pool may allocate if and only if that is positive |
| `MemoryPools.MemoryPool.TotalCapacity` | include/tzzero/utils/memory_pool.h:28 | the number of slots there are; beyond the first block, less than one block more than were ever out at once |
| `MemoryPools.MemoryPool.AllocateFromNew` | include/tzzero/utils/memory_pool.h:78-84 | when no block has a free slot every slot is out, and the first slot of one new block is handed out |
| `MemoryPools.MemoryPool.AddBlock` | include/tzzero/utils/memory_pool.h:109-112 | one more block, nothing else changed |
| `MemoryPools.MemoryPool.Take` | include/tzzero/utils/memory_pool.h:68-72 | hands out one free slot and keeps all counts right |
| `MemoryPools.MemoryPool.Allocate` | include/tzzero/utils/memory_pool.h:61-85 | for every run before it: the slot is one nobody has, the first free one in scan order, or the first of a new block, which is added if and only if every slot is out; there are never more blocks than the busiest moment needed |
| `MemoryPools.MemoryPool.Release` | include/tzzero/utils/memory_pool.h:99-103 | takes one slot back and keeps all counts right |
| `MemoryPools.MemoryPool.TakeBack` | include/tzzero/utils/memory_pool.h:93-106 | the search finds the slot the pointer belongs to, if any, and nothing else changes |
| `MemoryPools.MemoryPool.Deallocate` | include/tzzero/utils/memory_pool.h:87-107 | the slot is in use no more and nothing else changes; null, foreign and repeated pointers change nothing at all |
| `LogRotation.RotationKeepsPacked` | src/utils/logger.cpp:105-132 | archives stay numbered without gaps below `max_files_`, each one full |
| `LogRotation.RotationKeepsFaith` | src/utils/logger.cpp:105-132 | a rotation takes exactly the archive in the oldest place off the front of what is on disk, and nothing while that place is free; the rest stays the end of what was logged |
| `LogRotation.WrittenKeepsInv` | src/utils/logger.cpp:27-33 | one logged line keeps all of it |
| `LogRotation.DirectoryIsSuffix` | src/utils/logger.cpp:26-34 | for every sequence of lines from an empty directory, archives from the oldest and then the log file are the last lines logged, in order and without gaps, and the log file is below the limit |
| `LogRotation.FewFiles` | src/utils/logger.cpp:111-122 | at most `max_files_` files exist |
| `LogRotation.RetainsItsShare` | src/utils/logger.cpp:105-132 | all lines are still there, or at least `max_files_` - 1 times the limit in bytes is |
| `LogRotation.NeverClobbersIff` | src/utils/logger.cpp:105-127 | no rename ever lands on an existing archive if and only if `max_files_` is at least 2 |
| `LogRotation.WrittenKeepsOne` | src/utils/logger.cpp:105-132 | with at most one file allowed a line keeps the log file and its one archive, and replaces that archive exactly when it fills the file again |
| `LogRotation.OneArchiveIsSuffix` | src/utils/logger.cpp:105-132 | so for every sequence of lines the two are the last lines logged |
| `LogRotation.SizeIsLength` | src/utils/logger.cpp:27-29 | the size kept for a file is the length of its text, newlines included |
| `LogRotation.LevelsDiffer` | src/utils/logger.cpp:61-70 | the five levels are strictly ordered, and their names have five characters and differ |
| `LogRotation.ShiftGoesOn` | src/utils/logger.cpp:111-122 | each round of the loop moves one file up, onto a name that is free |
| `LogRotation.Logger.constructor` | include/tzzero/utils/logger.h:37-45 | settings as given, no file open |
| `LogRotation.Logger.SetOutputFile` | src/utils/logger.cpp:84-103 | the log's name opens its file for appending, and the size counts what the file already holds; the empty name ends file output |
| `LogRotation.Logger.Remove` | src/utils/logger.cpp:117 | one file less |
| `LogRotation.Logger.Rename` | src/utils/logger.cpp:119 | the file moves, and it is recorded if it replaced another |
| `LogRotation.Logger.RotateLogFile` | src/utils/logger.cpp:105-132 | for every directory and every `max_files_` the loop of removes and renames ends in the shifted directory, and replaces a file exactly in the one case named |
| `LogRotation.Logger.WriteLog` | src/utils/logger.cpp:14-35 | the line as formatted, written if the level and the open file allow it, and the rotation it may cause |

## Left out

- `Buffer` after a move, copies, `swap`, `unwrite`, `find_eol`, the iovec accessors: a moved-from buffer has size 0 with both indices at 8 and must not be used; the others would add easy members.
- `size_t` overflow in `Buffer` and in `get_content_length` sums: sizes are unbounded naturals; `std::stoull` itself is modelled at 64 bits.
- Buffers.Buffer.Prepend: the bytes must fit in the front gap, because the source subtracts from an unsigned index without a check.
- Characters are not restricted to 256 values; no definition depends on how many there are. Locale "C" is assumed for blanks and lower case.
- `set_header`, `remove_header`, `has_header`, `keep_alive` of `HttpRequest`: one-line members that the round trip does not need.
- `HttpServer` apart from the calls to the parser in `on_message`, `HttpResponse`, routing, `src/main.cpp`, `examples/`, `tools/`: plumbing, tables and demos.
- The acceptor, socket options, address formatting and `EpollPoller`: foreign calls. The poller appears as the registration and write interest of a connection, and as the exception it throws for a descriptor it does not know.
- `timerfd` arming (`reset_timerfd`, the read in `handle_timer_fd`): timeouts come from `get_next_timeout`.
- Times are reals: rounding of `double` and the `int` overflow of very long timeouts are not modelled, and the clock is assumed not to go back.
- TimerHistory.FiringHistory: `add_timer` and `cancel_timer` from other threads are excluded, as the source says they are unsafe; one loop is modelled, so the numbers of its timers have no gaps.
- `~TimerQueue`: it frees what the index holds, which is everything by `OwnershipBetweenPasses`.
- EventLoops.EventLoop.Run: runs on the loop thread alone and over a finite list of poll results; what other threads do in between is covered by the step machine of `LoopSpec`. I/O and timer callbacks make no calls of their own here; the machine allows them to.
- `TcpConnection::shutdown`, `force_close` and `send(Buffer&)` from another thread: they read and write `state_` unsynchronised or keep a reference to the caller's buffer. A send of a string from another thread is modelled by the functor it leaves, for the connection's bytes and for its lifetime; the references the application itself keeps are not counted.
- The input buffer of a connection: its bytes pass to the message callback, whose calls on the connection are arbitrary.
- `~TcpServer`: it runs functors that may erase from the map it is iterating. The other clauses of `stop()` (not listening any more) and `start()` belong to the acceptor; connections accepted after a stop are allowed.
- TcpServers.TcpServer.NewConnection: the counter stays within 32 bits; counting beyond is undefined in the source. The application's connection callback is not part of this model.
- ServerProtocol.StopReachesAll: a connection is hung up in the sense of `shutdown()`, with the loss of buffered output described above.
- `EventLoopThreadPool` and `EventLoopThread`: the choice of a loop is arbitrary in the model.
- Exceptions thrown by tasks, functors and callbacks, and the futures returned by `submit`.
- `ThreadPool` as an object: its queue, lock and condition variable are the shared state of a step machine, because every method of it is meant to be interleaved. Two threads joining the same workers at once is not modelled.
- MemoryPools.MemoryPool.Allocate: a pool of block size zero is excluded; the source then indexes an empty vector. The mutex makes each call one step. Pointers into the middle of a slot are not modelled.
- Console output, time stamps (a parameter), and the second `log` overload, which only adds file and line to the text.
- LogRotation.Logger.SetOutputFile: a logger keeps one file name, besides the empty one.
- HttpResumption.ServesOneACall: what is served after a call has cut a message behind a line end is stated for a single message only.
- LogRotation.Logger.RotateLogFile: file operations succeed, nobody else touches the directory, and limit and number of files stay fixed.
