# Verification of wrk's parser, histogram and pacing, and of LuaJIT's allocator, assembler and Lua library

wrk is an HTTP load generator. It reads responses with a streaming HTTP parser, records latencies in
an HdrHistogram, paces its requests, and runs Lua scripts in a bundled LuaJIT. This project models
the parts of that code whose correctness is least obvious and proves, for all inputs and all runs,
what they are there for. `dafny verify dfyconfig.toml` checks everything.

The model takes the source's form: what the source updates in place is a class with methods and
loops; pure functions are functions. Each method is proved against a specification, and lemmas prove
what the specification means.

* **Http*.dfy: the streaming HTTP parser** (`src/http_parser.c`, strict mode). `HttpVisit` is what
  one byte does in one state, `HttpRun` what that makes of a stream. `HttpParser.Parser.Execute` is
  `http_parser_execute` with its marks, its scanning loops and its re-reading of bytes; it refines
  `HttpRun.Run`. Cuts in the stream (`HttpSplit`, `HttpCut`), the header size limit (`HttpSize`),
  header matching (`HttpNames`, `HttpLists`, `HttpFolds`) and the reading of whole responses with any
  framing and in all forms of lines (`HttpHeaderRead`, `HttpBodyRead`, `HttpChunkRead`, `HttpResponse`)
  are theorems about `Run`, and so is the converse, that nothing else is accepted (`HttpAcceptLine`,
  `HttpAccept`, `HttpAcceptBody`); `HttpConversation` is a client that reads responses with the parser
  object.
* **Alloc*.dfy: LuaJIT's allocator** (`deps/luajit/src/lj_alloc.c`). Chunk headers and footers are
  maps from addresses to words; `AllocShape` is the heap invariant, stated on those words;
  `AllocTrie` and `AllocBins` are the bins; `AllocHeap.Heap` is the allocator; `AllocClient.Client`
  is a program that uses it and checks that its bytes survive. System memory is an oracle.
* **Dasm*.dfy: DynASM's encoder** (`deps/luajit/dynasm/dasm_x86.h`). `DasmLabels` is the theory of
  label chains in the buffer, `DasmShrink` that of branch shrinking and alignment, and
  `DasmEncoder.Encoder` runs the three passes over the shared buffer. `DasmTargets` says where the
  references of action lists lead in the finished code, from the history of what was put.
* **Hdr*.dfy: HdrHistogram** (`src/hdr_histogram.c`), against the sequence of recorded values.
* **Pacing*.dfy: request pacing** (`src/wrk.h`, `src/wrk.c`): one TCP connection and its event
  handlers, which may run in any order.
* **LuaChars, LuaSets, LuaPattern, LuaTokens, LuaSearch, LuaMeaning, LuaMatch, LuaFind: Lua patterns**
  (`deps/luajit/src/lib_string.c`). `LuaPattern.In` says what a pattern matches, `LuaPattern.Best`
  which match is to be found, `LuaTokens.Means` is a second reading, from tokens instead of characters,
  with sets and classes spelled out (`LuaSets`); `LuaMatch.MatchState` is the backtracking matcher with its captures in
  place, `LuaFind` is `string.find` and `string.match`.
* **LuaSort: `table.sort`** (`deps/luajit/src/lib_table.c`).
* **JitShuffle: the register shuffle** at the head of a side trace (`deps/luajit/src/lj_asm.c`).

## What turned out not to hold

* *Splitting the input can change what is delivered before an error.* The final parser, the events
  and the bytes consumed never depend on how a stream is cut, and on streams without an error the
  data do not either. With an error inside a run of data (a URL, a header) the bytes of that run are
  lost in the call that fails, but not if an earlier call had delivered them:
  `HttpCut.ErrorDataDependsOnCut` says exactly for which cuts, `HttpCut.CutUrlExample` shows one.
* *A keyword in a `Connection` list is not always honoured.* A comma behind a proper beginning of a
  keyword is taken for a mismatching byte, so that the element after it is swallowed
  (`Connection: k, close`, `HttpLists.CloseBehindPrefix`); that element in turn swallows nothing
  (`x,k,close` is lost, `HttpLists.CloseBehindTwo`). An element without a word loses the rest of the
  value, and so does a tab after a comma, which LOWER does not leave a tab
  (`HttpLists.CloseBehindTab`). `HttpLists.ListText` gives flags and final state for any list by these
  rules; `HttpLists.KeywordHonoured` says when a keyword is honoured.
* *Negative values are counted* by a histogram, as large positive ones, when its highest value is
  above 2^61 - 2^(60 - half-count magnitude), and turned down otherwise
  (`HdrHistogram.NegativeDropped`). `HdrHistogram.NegativeExample` records -1.
* *A timer can outlive its socket.* After a read error while a connection waits for its turn, the old
  timer and the new socket both go on, and a second batch may be sent while the first is owed.
  `PacingConnection.Connection.Step` says that this is the only way, `PacingConnection.StaleTimer`
  is such a sequence of events. Latencies are never negative all the same.
* *The plain search of `string.find` and the matcher disagree* on patterns without special characters
  that have a `)` or a zero byte, and on no others (`LuaFind.PlainIsMatch`).

## Model

| member | source | states |
|---|---|---|
| HttpParser.Parser.constructor | src/http_parser.c:2128-2136 | A new parser is in the start state of its type, satisfies the invariant and has delivered nothing. |
| HttpParser.Parser.Execute | src/http_parser.c:626-2075 | A call that does not run into the header size limit leaves the parser, all deliveries and the consumed length as the byte-wise meaning says; the asserts hold, the loop ends, at most one mark is left. The limit strikes only if more than a fifth of it are header bytes that follow each other without a reset: bodies do not count. |
| HttpParser.Parser.ExecuteEof | src/http_parser.c:642-666 | End of input completes a message that lasts until the connection closes, is silent between messages and an error elsewhere. |
| HttpParser.Parser.Step | src/http_parser.c:694-2043 | One turn of the main loop keeps the outcome of the whole call and makes progress, also when it looks at a byte again. |
| HttpParser.Parser.MainLoop | src/http_parser.c:694-2043 | The loop gets to the end of the data with the outcome of the whole call still ahead, or stops early with that outcome or with the limit exceeded. |
| HttpParser.Parser.ScanField | src/http_parser.c:1316-1443 | The loop over a header name stops where the byte-wise reading would and leaves the same matcher state. |
| HttpParser.Parser.ScanValue | src/http_parser.c:1518-1702 | The loop over a header value, with its memchr short cut, does what reading byte by byte does. |
| HttpParser.Parser.EatBody | src/http_parser.c:1872-1913 | Body bytes taken in a block count down the length and are delivered as byte by byte, up to the end of the body. |
| HttpParser.FindLineEnd | src/http_parser.c:1542-1565 | The first CR or LF within the limit, or the end of the data. |
| HttpParser.Parser.FinalCallbacks | src/http_parser.c:2045-2067 | When the bytes have run out, the one mark left is called back, so that all deliveries are up to date. |
| HttpParser.AssertsHold | src/http_parser.c:1876-2032 | The invariant implies the conditions of the asserts of the switch: header states, chunked flag, lengths neither 0 nor the marker in body states. |
| HttpVisit.VisitGood | src/http_parser.c:694-2043 | Any byte in any state that the invariant allows keeps it or reports an error; re-reading lowers a rank; marks and callbacks pair up. |
| HttpRun.RunSplits | src/http_parser.c:626-2075 | Reading b after a is reading a + b, unless a already stopped. |
| HttpRun.KeptIsIrrelevant | src/http_parser.c:105-142 | Parser, events and consumption do not depend on which data were called back when. |
| HttpSize.SizesGrow | src/http_parser.c:155-162 | No byte counts more than once. |
| HttpSize.SizesSplit | src/http_parser.c:155-162 | Counting header bytes of a and then of b is counting those of a + b. |
| HttpSplit.Feed | src/http_parser.c:626-2075 | A stream fed in any pieces ends with the parser, events, data and consumption of a single call; no call runs into the header size limit if the header bytes between two resets of the count stay below a fifth of it. |
| HttpCut.ErrorKeeps | src/http_parser.c:2069-2074 | A call that fails delivers what was delivered before it, or does not depend on it. |
| HttpCut.PendingInside | src/http_parser.c:105-142 | Bytes read before a cut have not been called back if and only if the cut is inside a run of data, by the state that is reached (bodies without chunks, where no error can follow, aside). |
| HttpCut.ErrorDataDependsOnCut | src/http_parser.c:105-142 | On a stream with an error, a cut changes the delivered data exactly when the cut is inside a run of data and the error comes before the end of that run. |
| HttpCut.CutUrlExample | src/http_parser.c:975-1142 | Such a cut exists: "GET /x", then a control byte. |
| HttpNames.NameExact | src/http_parser.c:1316-1443 | After the bytes of a header name, the matcher is in the state of the keyword that they are or still can become, at the right index. |
| HttpNames.ClassExact | src/http_parser.c:1376-1420 | A header is treated specially if and only if its case-folded name is one of the five keywords. |
| HttpNames.LengthText | src/http_parser.c:1572-1597 | Content-Length is the written number, spaces skipped, below the marker for no length; it is refused exactly when the number before some further digit exceeds the limit. |
| HttpNames.EncodingText | src/http_parser.c:1600-1608 | After a Transfer-Encoding value the matcher knows whether the value is the chunked keyword, can still become it, or neither. |
| HttpLists.ListText | src/http_parser.c:1490-1680 | For any Connection value, flags and final state are those of its list elements, each read, swallowed or lost as the elements before it decide. |
| HttpLists.ListMeans | src/http_parser.c:1610-1680 | A list sets a keyword's flag if and only if one of the elements that are read is the keyword. |
| HttpLists.KeywordHonoured | src/http_parser.c:1610-1680 | A keyword in any case, with spaces around it, at any place of a list is honoured if and only if its element is read; tabs after commas aside. |
| HttpLists.SecondElement | src/http_parser.c:1610-1680 | The second of two elements is read if and only if the first is not a proper beginning of a keyword. |
| HttpLists.CloseBehindPrefix | src/http_parser.c:1642-1662 | `k, close` does not close. |
| HttpLists.CloseBehindTwo | src/http_parser.c:1642-1662 | Neither does `x,k,close`. |
| HttpLists.CloseBehindTab | src/http_parser.c:1610-1627 | Neither does `x,` with a tab and `close`. |
| HttpLists.TextEffect | src/http_parser.c:1712-1775 | What a header value leaves in flags and length is what the header means. |
| HttpFolds.OpenEndIs | src/http_parser.c:1610-1680 | After a Connection list the scanner stands at the beginning of an element if and only if a comma that is noticed is followed by spaces only. |
| HttpFolds.FoldsEffect | src/http_parser.c:1460-1510 | What a value with further lines leaves in flags and length: in a Connection list a line end is as a space where an element can begin, and anywhere else hides the element and all behind it; a chunked coding is seen only on one line. |
| HttpHeaderRead.NameRead | src/http_parser.c:1266-1443 | Any token is delivered as header field and leaves the matcher state of its name. |
| HttpHeaderRead.ValueRead | src/http_parser.c:1460-1702 | Any header text is delivered as header value and leaves the state of the value scanner. |
| HttpHeaderRead.PadRead | src/http_parser.c:1446-1458 | Blanks, and line ends followed by a blank, are skipped before a value. |
| HttpHeaderRead.FoldsRead | src/http_parser.c:1704-1775 | Further lines of a value are delivered with the blanks they begin with and without the line ends; the scan starts anew in each of them. |
| HttpHeaderRead.HeaderEffect | src/http_parser.c:1712-1775 | When the next line begins, the parser has made of a header what it means for the message. |
| HttpHeaderRead.HeaderRead | src/http_parser.c:1266-1775 | A printed header line, with any blanks and line ends before its value, a value that goes on in any number of further lines, and either line end, is delivered as its name and its whole value. |
| HttpBodyRead.HeadersRead | src/http_parser.c:1266-1775 | A printed list of headers, in any forms of lines, is delivered line by line; the framing is that of all of them. |
| HttpBodyRead.EmptyLine | src/http_parser.c:1779-1800 | An empty line that is a bare line feed, which is looked at several times, leads to where CR LF leads. |
| HttpBodyRead.HeadEnd | src/http_parser.c:1779-1870 | The empty line notifies the end of the headers and chooses the framing of the body, or ends the message. |
| HttpBodyRead.IdentityRead | src/http_parser.c:1872-1918 | A body of the announced length is delivered whole and completes the message once. |
| HttpBodyRead.EofRead | src/http_parser.c:1909-1913 | A body that lasts until the connection closes is delivered as it comes. |
| HttpChunkRead.SizeDigit | src/http_parser.c:1936-1971 | A size digit gives the exact value or an error; it never wraps and never reaches the marker. |
| HttpChunkRead.SizeRead | src/http_parser.c:1920-1971 | Written hex digits are read as their number. |
| HttpChunkRead.SizeTooLong | src/http_parser.c:1956-1968 | A size that does not fit is refused at the first digit that would not fit. |
| HttpChunkRead.ExtRead | src/http_parser.c:1973-1982 | Chunk extensions are skipped. |
| HttpChunkRead.DataRead | src/http_parser.c:2000-2021 | The announced number of payload bytes is delivered. |
| HttpChunkRead.ChunksRead | src/http_parser.c:1920-2036 | Any list of non-empty chunks is delivered as its concatenated payload. |
| HttpChunkRead.ChunkedBodyRead | src/http_parser.c:1920-2036 | Chunks, last chunk with extensions and trailers: exactly the payload, then one message_complete, then a start state or s_dead. |
| HttpRoundTrip.LeadRead | src/http_parser.c:749-773 | Each byte of the line ends before a message is announced as the beginning of one, and nothing else happens. |
| HttpRoundTrip.TailRead | src/http_parser.c:876-943 | A status line can end right behind the code or behind a reason, that can be empty, with either line end: the headers follow. |
| HttpRoundTrip.StatusLineRead | src/http_parser.c:749-943 | Line ends, if any, and a status line in any of its forms, with spaces before the code, with or without a reason, with CR LF or a bare line feed, give version, status code and reason. |
| HttpResponse.ResponseRoundTrip | src/http_parser.c:626-2075 | Any printed response, in any forms of lines, is read back: reason, headers, exact body, notifications in order, and the right end state. |
| HttpResponse.ConversationRoundTrip | src/http_parser.c:2101-2118 | Any sequence of responses on a connection that each leaves open is read back. |
| HttpResponse.DeadRead | src/http_parser.c:702-712 | When the last response does not leave the connection open, only line ends are accepted. |
| HttpAcceptLine.LineOnly | src/http_parser.c:749-943 | Bytes that are read without an error from the start of a response are a printed status line, or the part of one that the state says. |
| HttpAccept.HeadersOnly | src/http_parser.c:1266-1800 | Bytes that are read without an error in the headers are printed header lines, up to the empty line. |
| HttpAccept.HeadAccepted | src/http_parser.c:694-1870 | The head of a response is read without an error only if it is a printed one: the forms that are read back are all the forms that are accepted. |
| HttpAcceptBody.ChunkedAccepted | src/http_parser.c:1920-2036 | A chunked body is read without an error to its end only if it is printed chunks, a last size line and printed trailers. |
| HttpConversation.HeadSizes | src/http_parser.c:1779-1870 | A head counts at most its own bytes on top of what was counted before, and leaves nothing counted. |
| HttpConversation.ChunksSizes | src/http_parser.c:1920-2036 | Chunks of any number and size count no more than the longest size line, and leave nothing counted. |
| HttpConversation.ConversationSizes | src/http_parser.c:155-162 | Any number of responses with short heads, trailers and size lines keep the count below twice the short length, whatever their bodies are. |
| HttpConversation.ReadResponses | src/wrk.c:662-681 | A client that hands over a conversation in any pieces gets exactly the printed responses, without any error: no call runs into the header size limit. |
| AllocSizes.PaddedFits | deps/luajit/src/lj_alloc.c:332-352 | A padded request has room for the request, is aligned and wastes less than an alignment unit. |
| AllocSizes.TreeIndexMonotone | deps/luajit/src/lj_alloc.c:527-552 | A larger size never has a smaller tree bin. |
| AllocSizes.TreeIndexPrefix | deps/luajit/src/lj_alloc.c:527-552 | The sizes of a tree bin are exactly an interval with a common prefix. |
| AllocTrie.InsertOk | deps/luajit/src/lj_alloc.c:641-675 | Insertion keeps the bitwise trie and adds exactly the new chunk. |
| AllocTrie.RemoveOk | deps/luajit/src/lj_alloc.c:680-724 | Removal, also by promoting a descendant leaf, keeps the trie and takes out exactly that chunk. |
| AllocTrie.MinIsLeast | deps/luajit/src/lj_alloc.c:419-419 | The smallest size of a trie is on its leftmost path. |
| AllocBins.RemainderTest | deps/luajit/src/lj_alloc.c:1053-1057 | The wrapped subtraction turns down chunks that are too small and otherwise compares remainders. |
| AllocBins.Bins.InsertChunk | deps/luajit/src/lj_alloc.c:588-732 | The chunk is in the one bin of its size, and the bin's bit is set. |
| AllocBins.Bins.UnlinkChunk | deps/luajit/src/lj_alloc.c:603-734 | The chunk is in no bin; the bit of its bin is cleared when the bin is empty. |
| AllocBins.Bins.FindLarge | deps/luajit/src/lj_alloc.c:1042-1085 | True best fit: no large free chunk that is big enough is smaller, and none is found only if there is none. |
| AllocBins.Bins.FindSmallest | deps/luajit/src/lj_alloc.c:1106-1122 | The smallest of all large free chunks. |
| AllocShape.EditOk | deps/luajit/src/lj_alloc.c:572-586 | Cutting a stretch of a heap anew within the rules keeps tiling, PINUSE bits, footers and that no two neighbours are free. |
| AllocState.StepOk | deps/luajit/src/lj_alloc.c:1174-1326 | A step that cuts a stretch anew and keeps bins, dv and top up with it keeps the whole invariant. |
| AllocSteps.EditUse | deps/luajit/src/lj_alloc.c:572-586 | After cutting a stretch anew, what is in use in it is what the cut says, and elsewhere what was in use before: no chunk is lost. |
| AllocState.EditSpares | deps/luajit/src/lj_alloc.c:572-586 | Header words written in a step are in no other chunk's payload. |
| AllocState.PayloadsDisjoint | deps/luajit/src/lj_alloc.c:332-337 | Payloads of live chunks are disjoint from each other, from all header words and from footers of free chunks. |
| AllocState.ChunkFacts | deps/luajit/src/lj_alloc.c:360-383 | Around any chunk: alignment, least size, where the next one is, and that PINUSE there is CINUSE here; a free chunk has neighbours in use. |
| AllocSegments.AppendOk | deps/luajit/src/lj_alloc.c:787-800 | Enlarging top by memory behind it keeps the shape. |
| AllocSegments.PrependOk | deps/luajit/src/lj_alloc.c:814-845 | Memory before a segment joins it as a chunk. |
| AllocNewSegment.AddOk | deps/luajit/src/lj_alloc.c:847-893 | A new segment, the record and fenceposts in the old one and what is left of the old top form a well-shaped heap. |
| AllocSystem.PrependGranted | deps/luajit/src/lj_alloc.c:814-845 | The front of prepended memory is granted and the rest joins top, dv or a free chunk behind it, or is binned. |
| AllocSystem.ExtendsOk | deps/luajit/src/lj_alloc.c:847-893 | Adding a segment keeps the whole invariant. |
| AllocSystem.SystemSizeFits | deps/luajit/src/lj_alloc.c:907-916 | The system is asked for the least multiple of the granularity with room for chunk and top padding. |
| AllocSystem.SystemSizeWraps | deps/luajit/src/lj_alloc.c:907-916 | That size wraps around if and only if the request is that near to the end of size_t. |
| AllocFree.FreedOk | deps/luajit/src/lj_alloc.c:1257-1326 | Joining a chunk with its free neighbours keeps the invariant and releases only that chunk, which is not in use any more; no other chunk is lost. |
| AllocFree.FreedPlainly | deps/luajit/src/lj_alloc.c:1257-1326 | free, when the chunk behind is not top. |
| AllocFree.FreedToTop | deps/luajit/src/lj_alloc.c:1285-1296 | free, when it is. |
| AllocRealloc.SplitOk | deps/luajit/src/lj_alloc.c:1343-1351 | Splitting a chunk in use keeps the invariant. |
| AllocRealloc.Shrunk | deps/luajit/src/lj_alloc.c:1343-1351 | A shrunk block stays in place with its bytes, the rest is released. |
| AllocRealloc.GrowOk | deps/luajit/src/lj_alloc.c:1352-1362 | Growing into top keeps the invariant and the bytes. |
| AllocRealloc.MovedTo | deps/luajit/src/lj_alloc.c:1364-1374 | A copied block has the old bytes up to the smaller of both sizes; no other block changes. |
| AllocRealloc.ScribbleOk | deps/luajit/src/lj_alloc.c:332-337 | Whatever a client writes into its block, the heap stays well-formed. |
| AllocHeap.Heap.constructor | deps/luajit/src/lj_alloc.c:1138-1160 | The first heap is well-formed and has no live chunk. |
| AllocHeap.Heap.MallocSmall | deps/luajit/src/lj_alloc.c:1179-1219 | A small request gets a chunk from a small bin or the trees, else no binned chunk is big enough unless dv is. |
| AllocHeap.Heap.TmallocLarge | deps/luajit/src/lj_alloc.c:1042-1103 | Grants the best fitting large chunk; nothing only when dv fits at least as well or nothing fits. |
| AllocHeap.Heap.TmallocSmall | deps/luajit/src/lj_alloc.c:1106-1136 | Grants from the smallest large chunk. |
| AllocHeap.Heap.Carve | deps/luajit/src/lj_alloc.c:1089-1098 | The front of a free chunk is granted; a rest that makes a chunk becomes dv or is binned. |
| AllocHeap.Heap.TakeDv | deps/luajit/src/lj_alloc.c:1229-1244 | Grants the front of dv, or all of it. |
| AllocHeap.Heap.TakeFromTop | deps/luajit/src/lj_alloc.c:1245-1252 | Grants the front of top. |
| AllocHeap.Heap.Append | deps/luajit/src/lj_alloc.c:918-926 | Memory behind top enlarges it; all live chunks keep their bytes. |
| AllocHeap.Heap.PrependAlloc | deps/luajit/src/lj_alloc.c:814-845 | Grants a chunk at the front of memory before a segment. |
| AllocHeap.Heap.SegmentHolding | deps/luajit/src/lj_alloc.c:484-494 | The segment that holds an address. |
| AllocHeap.Heap.AddSegment | deps/luajit/src/lj_alloc.c:847-893 | The new memory becomes top; all live chunks keep their bytes. |
| AllocHeap.Heap.AllocSys | deps/luajit/src/lj_alloc.c:895-955 | Grants a chunk from system memory; fails, changing nothing, if and only if the system refuses or the size wraps. |
| AllocHeap.Heap.Malloc | deps/luajit/src/lj_alloc.c:1174-1255 | Keeps the invariant; grants a new chunk that is big enough by less than a least chunk and touches no other, from the best fitting free chunk, else from dv, else from top, else from the system; null changes nothing and only when neither heap nor system had room. |
| AllocHeap.Heap.Free | deps/luajit/src/lj_alloc.c:1257-1326 | Keeps the invariant; exactly that chunk is released, its space is in a free chunk, and nothing else goes out of use or comes into use. |
| AllocHeap.Heap.Realloc | deps/luajit/src/lj_alloc.c:1328-1376 | On every path the block is big enough and keeps its bytes up to the smaller size, no other is touched. The block stays in place if and only if it is big enough or can grow into top; else it moves to a chunk chosen as by malloc. Null changes nothing, and only for a request that is too large or when the block cannot stay, no chunk is free for it and the system refuses. |
| AllocHeap.Heap.Shrink | deps/luajit/src/lj_alloc.c:1343-1351 | The block stays; a rest that makes a chunk is freed. |
| AllocHeap.Heap.GrowUp | deps/luajit/src/lj_alloc.c:1352-1362 | The block grows into top. |
| AllocHeap.Heap.MoveTo | deps/luajit/src/lj_alloc.c:1364-1374 | The block is copied to a granted chunk and freed. |
| AllocHeap.Heap.WriteByte | deps/luajit/src/lj_alloc.c:332-337 | A client may write any byte of its block without harm to the heap. |
| AllocClient.Client.Alloc | deps/luajit/src/lj_alloc.c:1378-1388 | The one entry point: the client's map of blocks and known bytes changes as freed, allocated or resized, and in no other way; null, moved and kept blocks exactly as malloc and realloc say. |
| AllocClient.Client.Write | deps/luajit/src/lj_alloc.c:332-337 | A written byte is known; no other block's bytes change. |
| AllocClient.Client.Read | deps/luajit/src/lj_alloc.c:332-337 | A client reads back what it wrote last, whatever was allocated, freed or resized since. |
| AllocClient.Client.Run | deps/luajit/src/lj_alloc.c:1378-1388 | Any sequence of calls and writes keeps heap and client consistent. |
| AllocClient.BlocksApart | deps/luajit/src/lj_alloc.c:1174-1255 | In every reachable heap, blocks are 8-aligned and disjoint for their requested sizes. |
| DasmLabels.LinkOk | deps/luajit/dynasm/dasm_x86.h:213-236 | Chaining an open reference keeps all chains and bindings. |
| DasmLabels.PointOk | deps/luajit/dynasm/dasm_x86.h:213-236 | Binding a reference to a known definition keeps all chains and bindings. |
| DasmLabels.DefOk | deps/luajit/dynasm/dasm_x86.h:237-244 | Collapsing a chain binds exactly its references to the new definition. |
| DasmLabels.ForgetOk | deps/luajit/dynasm/dasm_x86.h:455-471 | Clearing local labels with none open changes no binding. |
| DasmLabels.AllBound | deps/luajit/dynasm/dasm_x86.h:213-244 | With no label open, every reference slot holds the position of the definition it names. |
| DasmLabels.ResolveMeans | deps/luajit/dynasm/dasm_x86.h:213-244 | A backward reference names the latest definition before it, a forward one the next behind it. |
| DasmLabels.OpenMeans | deps/luajit/dynasm/dasm_x86.h:282-290 | A reference to a global or PC label is open only if the label is never defined. |
| DasmShrink.NoFarther | deps/luajit/dynasm/dasm_x86.h:291-341 | Final distances never exceed estimated ones. |
| DasmShrink.ShrinkSound | deps/luajit/dynasm/dasm_x86.h:303-324 | A shrunk branch reaches its label with -128..127 from its end, forward, backward and across alignment. |
| DasmShrink.PadAligns | deps/luajit/dynasm/dasm_x86.h:331-331 | Padding ends at the next multiple of the alignment. |
| DasmShrink.LongReaches | deps/luajit/dynasm/dasm_x86.h:398-405 | 32 bits hold every displacement of code below 2 GB. |
| DasmLink.MarkResolves | deps/luajit/dynasm/dasm_x86.h:282-290 | After marking undefined globals, every reference slot holds its definition or its mark. |
| DasmLink.DistanceIs | deps/luajit/dynasm/dasm_x86.h:306-320 | The distance read from the buffer, with section estimates for labels ahead, is the one that the shrinking theory decides on. |
| DasmLink.JumpTarget | deps/luajit/dynasm/dasm_x86.h:303-324 | The target of a branch is the one item that defines its label; it is ahead in the buffer if and only if it is ahead in the code. |
| DasmFlat.GuessAt | deps/luajit/dynasm/dasm_x86.h:310-313 | The estimate in the combined code is the section's own plus the sections before. |
| DasmEmit.EmitStep | deps/luajit/dynasm/dasm_x86.h:360-437 | Encoding an item puts its bytes at its linked offset and disturbs no other item. |
| DasmEmit.LittleValue | deps/luajit/dynasm/dasm_x86.h:348-358 | Bytes written little-endian read back as the number modulo their range. |
| DasmEncoder.Encoder.constructor | deps/luajit/dynasm/dasm_x86.h:84-153 | An initialised assembler has no label, no code and satisfies the invariant. |
| DasmEncoder.Encoder.Put | deps/luajit/dynasm/dasm_x86.h:167-262 | Appends exactly the actions of the list with their arguments to section, history and label events; the status is that of the first action that does not fit its range or names a label that is not there, and Ok if there is none. |
| DasmEncoder.VerdictIs | deps/luajit/dynasm/dasm_x86.h:184-228 | The tests of a put on labels are those on the label events: number in range, and for a backward reference a definition with no reference waiting for another. |
| DasmEncoder.SettledIs | deps/luajit/dynasm/dasm_x86.h:213-236 | The label array holds a position if and only if the label is defined and no reference waits. |
| DasmEncoder.Encoder.PutRef | deps/luajit/dynasm/dasm_x86.h:213-236 | A reference is bound or chained; errors exactly for labels out of range and backward references without definition. |
| DasmEncoder.Encoder.PutLabel | deps/luajit/dynasm/dasm_x86.h:237-244 | A definition binds the open references; errors exactly for labels out of range. |
| DasmEncoder.Encoder.Collapse | deps/luajit/dynasm/dasm_x86.h:239-243 | Every slot on the chain, and nothing else, gets the position. |
| DasmEncoder.Encoder.CheckStep | deps/luajit/dynasm/dasm_x86.h:455-471 | Fails if and only if a local label is open, or else the section does not match; which of the two is told. |
| DasmEncoder.Encoder.LinkGlobals | deps/luajit/dynasm/dasm_x86.h:272-290 | Fails if and only if a PC label is open; otherwise every reference is resolved. |
| DasmEncoder.Encoder.LinkRel | deps/luajit/dynasm/dasm_x86.h:303-324 | Decides a branch and stores what it saves. |
| DasmEncoder.Encoder.Link | deps/luajit/dynasm/dasm_x86.h:266-341 | Lays out all code: every label word has its final offset, and the size is known. |
| DasmEncoder.Encoder.EncodeRel | deps/luajit/dynasm/dasm_x86.h:395-405 | Encodes a branch in the form that was decided, replacing its opcode if it is short. |
| DasmEncoder.Encoder.EncodeAlign | deps/luajit/dynasm/dasm_x86.h:421-424 | No-ops exactly up to the linked offset. |
| DasmEncoder.Encoder.Encode | deps/luajit/dynasm/dasm_x86.h:360-440 | Never reports that the phases disagree: the code has the linked size, every item's bytes are at its linked offset, globals have their addresses. |
| DasmEncoder.Encoder.GetPcLabel | deps/luajit/dynasm/dasm_x86.h:442-452 | The final offset of the latest definition, or -2. |
| DasmEncoder.BranchLands | deps/luajit/dynasm/dasm_x86.h:395-405 | The displacement in the encoded bytes of every branch, short or long, leads to the definition its label names. |
| DasmHistory.LastMark | deps/luajit/dynasm/dasm_x86.h:213-244 | The definition that counts at a place of the history is the latest label put before it, for local labels since the latest check. |
| DasmTargets.ForwardLands | deps/luajit/dynasm/dasm_x86.h:213-236 | RelLg or ImmLg of 246 + i, for i from 1 to 9: the code of the reference leads to the first LabelLg(i) that is put behind it. |
| DasmTargets.BackwardLands | deps/luajit/dynasm/dasm_x86.h:213-236 | RelLg or ImmLg of i, for i from 1 to 9: it leads to the latest LabelLg(i) put before it, since the latest check. |
| DasmTargets.GlobalLands | deps/luajit/dynasm/dasm_x86.h:395-413 | RelLg or ImmLg of n, for n from 10 to 246: it leads to the latest LabelLg(n) before it, without one to the first behind it, and without any to the address given for the global. |
| DasmTargets.PcLands | deps/luajit/dynasm/dasm_x86.h:398-413 | RelPc or ImmPc: it leads to the latest LabelPc with the same argument before it, or without one to the first behind it. |
| DasmTargets.ImmediateFits | deps/luajit/dynasm/dasm_x86.h:197-203 | The range checks let just those immediates pass that their one, two or four bytes can hold. |
| DasmTargets.ImmediateReads | deps/luajit/dynasm/dasm_x86.h:375-391 | An immediate that was put is read back from its bytes in the code. |
| DasmTargets.ShortBranch | deps/luajit/dynasm/dasm_x86.h:398-405 | Only the unconditional branch and the conditional ones are made short, and then into the short branch of the same kind. |
| HdrIndex.Partition | src/hdr_histogram.c:41-78 | The values of a counter are exactly those from its lowest up to the next counter's lowest. |
| HdrIndex.BucketBounds | src/hdr_histogram.c:41-45 | The bucket by the bounds of its values. |
| HdrIndex.IndexMonotone | src/hdr_histogram.c:67-73 | Larger values never have smaller counters. |
| HdrIndex.SameCounter | src/hdr_histogram.c:88-111 | Two values share a counter if and only if each is in the other's equivalent range, while the size of the range fits an int. |
| HdrIndex.RangesFit | src/hdr_histogram.c:88-94 | It does for every value with a counter when there are at most 31 - unit magnitude buckets. |
| HdrIndex.IndexOnto | src/hdr_histogram.c:52-73 | Every counter has values. |
| HdrIndex.Recordable | src/hdr_histogram.c:52-73 | The counters hold exactly the values below the end of the last bucket. |
| HdrHistogram.BucketsNeeded | src/hdr_histogram.c:147-157 | The fewest buckets that cover the highest value. |
| HdrHistogram.Covers | src/hdr_histogram.c:138-157 | With these buckets every value up to the highest has a counter. |
| HdrHistogram.Init | src/hdr_histogram.c:127-185 | Refuses exactly figures outside 1..5; else unit and sub-buckets are as small as the precision allows and all trackable values are recordable; negative values are recordable exactly if the highest value is above 2^61 - 2^(60 - half-count magnitude). |
| HdrHistogram.Histogram.RecordValues | src/hdr_histogram.c:230-243 | Adds the values if and only if they are in range; one counter changes. A negative value is in range exactly if the buckets reach far enough, and then counted as a value of the counter that it falls into. |
| HdrHistogram.Histogram.RecordValue | src/hdr_histogram.c:215-228 | Adds one value, of either sign, if and only if it is in range. |
| HdrHistogram.Histogram.RecordCorrectedValue | src/hdr_histogram.c:245-267 | Also adds the missed values, interval by interval. |
| HdrHistogram.MissedAre | src/hdr_histogram.c:245-267 | The missed values are the value less 1, 2, ... intervals, as long as that is at least one interval. |
| HdrHistogram.Histogram.Reset | src/hdr_histogram.c:193-198 | No values are left. |
| HdrHistogram.Histogram.ValueAtPercentile | src/hdr_histogram.c:335-358 | The highest equivalent of the element at the rank that is nearest to the percentile of the recorded values in order, at least 1, if the size of its range fits an int. |
| HdrHistogram.NearestUnique | src/hdr_histogram.c:340-343 | There is one nearest rank. |
| HdrHistogram.Histogram.Max | src/hdr_histogram.c:299-314 | The lowest equivalent of the greatest recorded value, likewise. |
| HdrHistogram.Histogram.Min | src/hdr_histogram.c:316-333 | The lowest equivalent of the least recorded value. |
| HdrHistogram.Iter.Next | src/hdr_histogram.c:423-494 | Visits counters 0, 1, 2, ... with their prefix sums and never leaves the buckets. |
| HdrHistogram.AddCounter | src/hdr_histogram.c:275-283 | A counter's count is added at one place or dropped. |
| HdrHistogram.Add | src/hdr_histogram.c:269-287 | Conserves counts: added and dropped together are the source's; every counter is merged at its lowest value. |
| HdrHistogram.SameConfig | src/hdr_histogram.c:269-287 | With equal configurations nothing is dropped and counters add pointwise. |
| HdrHistogram.PercentileMonotone | src/hdr_histogram.c:335-358 | A larger percentile, at its nearest rank, is never a smaller value. |
| HdrHistogram.NegativeRange | src/hdr_histogram.c:41-73 | A negative value is in range if and only if unit + half <= 62 <= buckets + unit + half, whichever it is. |
| HdrHistogram.NegativeDropped | src/hdr_histogram.c:138-157 | In terms of the arguments of hdr_init, for unit + half up to 60: if and only if the highest value is above 2^61 - 2^(60 - half). |
| HdrHistogram.NegativeExample | src/hdr_histogram.c:215-228 | A histogram for 1 to 2^62 with three figures records -1, as the value 2047 * 2^51. |
| HdrCounts.RecordAgrees | src/hdr_histogram.c:230-243 | Counters stay in agreement with the recorded values. |
| HdrCounts.PrefixIsBelow | src/hdr_histogram.c:444-460 | A prefix sum counts the values below a counter's range. |
| HdrCounts.RankCounter | src/hdr_histogram.c:345-356 | The counter at which the counts reach a rank is that of the element at that rank. |
| HdrCounts.RankExists | src/hdr_histogram.c:335-358 | Every rank has an element. |
| HdrCounts.RankUnique | src/hdr_histogram.c:335-358 | And only one. |
| HdrCounts.Accuracy | src/hdr_histogram.c:108-111 | At unit magnitude 0 the reported value exceeds the recorded one by less than one part in 10 to the significant figures, while the size of the range fits an int. |
| HdrCounts.MaxCounter | src/hdr_histogram.c:299-314 | The last counter in use is that of the greatest value. |
| HdrCounts.MinCounter | src/hdr_histogram.c:316-333 | The first counter in use is that of the least value. |
| PacingRate.LineReached | src/wrk.h:158-158 | The truncated start time is reached if and only if fewer requests are complete than the rate allows for. |
| PacingRate.LineIsFirst | src/wrk.h:158-158 | The truncated start time is the first microsecond in which the rate allows for more requests than are complete. |
| PacingRate.WaitIsExact | src/wrk.h:155-194 | While nothing completes, a later decision allows sending if and only if the announced wait is over. |
| PacingRate.WakeSends | src/wrk.c:43-51 | After sleeping the rounded milliseconds a connection may send, and it slept less than a millisecond and a bit too long. |
| PacingRate.CatchUpEnds | src/wrk.h:167-186 | Catching up ends: after as long as the connection was behind, the catch-up line never holds back what the pace allows. |
| PacingConnection.Connection.constructor | src/wrk.c:395-427 | A new connection satisfies the invariant. |
| PacingConnection.Connection.UsecToNextSend | src/wrk.h:155-194 | 0 exactly when pace and catch-up line allow sending, else the time until then. |
| PacingConnection.Connection.DelayRequest | src/wrk.c:43-51 | The timer lets the socket send when it is time, else goes on. |
| PacingConnection.Connection.MaySend | src/wrk.c:57-71 | Sends exactly when it is time, else starts one timer. |
| PacingConnection.Connection.StartBatch | src/wrk.c:79-87 | A batch starts on time; latencies count from the first try of a batch. |
| PacingConnection.Connection.Transmit | src/wrk.c:89-108 | Partial writes go on where they stopped; a complete one stops listening for writability. |
| PacingConnection.Connection.SockWriteable | src/wrk.c:53-108 | The whole handler: when a batch starts, what is counted from where, what is listened for. |
| PacingConnection.Connection.SocketConnected | src/wrk.c:623-650 | A connected socket starts to write from the beginning. |
| PacingConnection.Connection.StatsRequestCompleted | src/wrk.c:518-582 | The expected latency counts from the first microsecond in which the rate allowed the request and is never negative; it is at least the actual one if and only if a batch has been sent (or the start time is 0). |
| PacingConnection.Connection.ResponseComplete | src/wrk.c:584-621 | Counts the response and records it if all are recorded or it is the last of its batch; the last one of a batch frees the socket; with one thing going on at a time the unsigned counter never wraps. |
| PacingConnection.Connection.Step | src/wrk.c:43-108 | Any event keeps the invariant; one thing goes on at a time until a read error while a timer runs, and exactly then two. |
| PacingConnection.Connection.Run | src/wrk.c:518-582 | Over any run no latency is negative and every batch started on the pace and below the catch-up line. |
| PacingConnection.StaleTimer | src/wrk.c:43-51 | A run in which two batches are owed at once. |
| LuaChars.ClassEnd | deps/luajit/src/lib_string.c:205-224 | The end of a pattern item, or an error when it is cut off. |
| LuaChars.ComplementClass | deps/luajit/src/lib_string.c:232-244 | An upper-case class is the complement of the lower-case one, for exactly the letters of classes. |
| LuaChars.MatchBracketClass | deps/luajit/src/lib_string.c:246-267 | Whether a set has a character. |
| LuaChars.ComplementSet | deps/luajit/src/lib_string.c:246-267 | A set that starts with ^ has exactly the characters that the rest as a set has not. |
| LuaSets.ClassesSpelled | deps/luajit/src/lib_string.c:226-244 | Every class has exactly the characters that are spelled out for it. |
| LuaSets.SetAt | deps/luajit/src/lib_string.c:205-267 | A set that is printed from characters, escaped characters, ranges and classes is taken for the whole set and has just the characters of its elements, or with ^ all others. |
| LuaSearch.LongestRepeats | deps/luajit/src/lib_string.c:302-307 | The count that max_expand starts from is possible, and no larger one is. |
| LuaSearch.MostRight | deps/luajit/src/lib_string.c:302-315 | max_expand ends with the largest number of repetitions for which the rest matches, or none does. |
| LuaSearch.LeastRight | deps/luajit/src/lib_string.c:317-329 | min_expand ends with the smallest such number, or none does. |
| LuaSearch.GoOnRight | deps/luajit/src/lib_string.c:368-451 | Sound and complete for all patterns: a match found is in the pattern's language and the best one; none is found only if there is none. |
| LuaMeaning.BestUnique | deps/luajit/src/lib_string.c:368-451 | There is one best match. |
| LuaMeaning.InText | deps/luajit/src/lib_string.c:368-451 | A match ends in the text; its captures are in the text; closed captures do not change. |
| LuaMeaning.BalanceMeans | deps/luajit/src/lib_string.c:281-300 | Balanced text ends at the first place where as much is closed as opened. |
| LuaMeaning.NoError | deps/luajit/src/lib_string.c:368-372 | A complete capture-free pattern with few enough repeated items raises no error. |
| LuaMeaning.CaptureFree | deps/luajit/src/lib_string.c:368-451 | For such patterns a match is found if and only if there is one. |
| LuaTokens.ItemAt | deps/luajit/src/lib_string.c:205-279 | A printed item ends where its text does and stands for the characters that it should. |
| LuaTokens.TokensMean | deps/luajit/src/lib_string.c:368-451 | A pattern that is printed from tokens (items with suffixes, captures, positions, %b, %f, captures again, a final $) is matched by just the texts, and leaves just the captures, that the tokens mean. |
| LuaTokens.TokenErrs | deps/luajit/src/lib_string.c:331-366 | In a printed pattern an error is raised just at a 33rd capture, at a parenthesis with none to close, and at a capture again that is missing or open. |
| LuaMatch.MatchState.CaptureToClose | deps/luajit/src/lib_string.c:196-203 | The innermost open capture, if any. |
| LuaMatch.MatchState.MatchBalance | deps/luajit/src/lib_string.c:281-300 | The loop finds the end of the balanced text. |
| LuaMatch.MatchState.MatchCapture | deps/luajit/src/lib_string.c:356-366 | Compares the captured text, always within the subject. |
| LuaMatch.MatchState.MaxExpand | deps/luajit/src/lib_string.c:302-315 | Agrees with the search by values. |
| LuaMatch.MatchState.MinExpand | deps/luajit/src/lib_string.c:317-329 | Agrees with the search by values. |
| LuaMatch.MatchState.StartCapture | deps/luajit/src/lib_string.c:331-343 | Opens a capture and takes it back when the rest does not match. |
| LuaMatch.MatchState.EndCapture | deps/luajit/src/lib_string.c:345-354 | Closes a capture and opens it again when the rest does not match. |
| LuaMatch.MatchState.PatternItem | deps/luajit/src/lib_string.c:419-447 | An item with its suffix agrees with the search by values. |
| LuaMatch.MatchState.Match | deps/luajit/src/lib_string.c:368-451 | The matcher that writes captures in place agrees with the search by values; a failed match leaves level, captures and depth as they were. |
| LuaFind.MemFind | deps/luajit/src/lib_string.c:453-475 | The first occurrence, or there is none. |
| LuaFind.FindFrom | deps/luajit/src/lib_string.c:536-555 | The first place at which the matcher succeeds. |
| LuaFind.PushCaptures | deps/luajit/src/lib_string.c:477-501 | The texts and positions of the captures, or the whole match; an error exactly if a capture is still open. |
| LuaFind.StrFind | deps/luajit/src/lib_string.c:511-559 | The leftmost place with a match, the best match there, and the values of its captures, all of them closed; not found only if no place has one; an error only if the search raises one or the match has an open capture. For a printed pattern that is the first place where the text is what the tokens mean. |
| LuaFind.StartOf | deps/luajit/src/lib_string.c:504-526 | Positions count from 1, negative ones from the end; what is outside of the text counts as its nearest end. |
| LuaFind.WordFound | deps/luajit/src/lib_string.c:511-559 | `^%w+$` is found just in a text of letters and digits that is not empty. |
| LuaFind.PlainIsMatch | deps/luajit/src/lib_string.c:527-538 | For patterns without special characters, plain search and matcher agree on all texts if and only if the pattern has no closing parenthesis and no zero. |
| LuaSort.MedianOfThree | deps/luajit/src/lib_table.c:197-221 | First, middle and last element are in order; short ranges are sorted. |
| LuaSort.ScanUp | deps/luajit/src/lib_table.c:229-233 | Stops in the range, or with the error; with a strict weak order before the end. |
| LuaSort.ScanDown | deps/luajit/src/lib_table.c:234-238 | Likewise downwards. |
| LuaSort.Partition | deps/luajit/src/lib_table.c:222-244 | Splits the range at the pivot, as a permutation; no index leaves the range whatever the comparison does. |
| LuaSort.SplitStays | deps/luajit/src/lib_table.c:245-252 | Sorting one side keeps the split. |
| LuaSort.AuxSort | deps/luajit/src/lib_table.c:195-254 | Always a permutation of the range, recursion depth at most log2 of its size; sorted and without error under a strict weak order. |
| LuaSort.TableSort | deps/luajit/src/lib_table.c:256-265 | The same for the whole table. |
| JitShuffle.ExecSource | deps/luajit/src/lj_asm.c:1472-1506 | Running emitted moves puts into a register what was in its source at entry. |
| JitShuffle.CoalescedOk | deps/luajit/src/lj_asm.c:1476-1485 | A coalescing move keeps the invariant. |
| JitShuffle.RenamedOk | deps/luajit/src/lj_asm.c:616-637 | A rename to a free temporary keeps the invariant. |
| JitShuffle.StuckIsPermutation | deps/luajit/src/lj_asm.c:1487-1489 | When no live register is free, they wait for each other. |
| JitShuffle.StuckIsCycle | deps/luajit/src/lj_asm.c:1491-1503 | Registers stuck without a temporary formed a cycle from the start. |
| JitShuffle.CycleStays | deps/luajit/src/lj_asm.c:1491-1503 | A cycle without a spare register never gets free. |
| JitShuffle.Allocator.PickBot | deps/luajit/src/lj_asm.c:1477-1477 | The least register of a set. |
| JitShuffle.Allocator.Coalesce | deps/luajit/src/lj_asm.c:1476-1485 | One live register less, its value moved to its target. |
| JitShuffle.Allocator.Rename | deps/luajit/src/lj_asm.c:616-637 | The instruction holds the temporary; the inverse move is emitted. |
| JitShuffle.Allocator.Shuffle | deps/luajit/src/lj_asm.c:1472-1506 | Ends; succeeds if and only if each register class has a spare register or no cycle; then the emitted code takes every parent value to its target. |

## Left out

The whole project:

- Machine integers are unbounded unless a row says otherwise; sizes and addresses of the allocator are below 2^40, where compute_tree_index does not truncate.
- Sockets, SSL, QUIC, back ends of the event loop, script glue, argument parsing, output, random numbers: input and output, or easy members.

HTTP parser:

- HttpParser.Parser.Execute: callbacks return 0, except that the load generator's on_message_complete initialises the parser again; the local copies of the parser state are the fields themselves; the deliveries are not stated for calls that exceed the header size limit; that limit is shown not to strike below a fifth of it, as nread counts a byte more than once when it is looked at again.
- HttpSplit.Feed: streams that ask for an upgrade are not included.
- HttpResponse.ResponseRoundTrip: responses only, and none that ask for an upgrade; printed requests are not read back, although the request states are part of the parser.
- HttpAccept.HeadAccepted: says which bytes are accepted, not which error is reported for the others.
- on_headers_complete returning 1: the flag it sets does not fit its bit field (src/http_parser.h:142, src/http_parser.h:207).
- The non-strict mode, http_parser_parse_url and the exact value of nread, which counts bytes at piece boundaries twice.

Allocator:

- AllocHeap.Heap.AllocSys: large requests are not mapped directly; a direct mapping counts as failing.
- AllocHeap.Heap.Free: chunks mapped directly are not modelled, nor is giving memory back to the system (trimming top, releasing segments).
- AllocFree.FreedToTop: a large top is not trimmed afterwards.
- AllocHeap.Heap.Realloc: resizing of chunks mapped directly is not modelled.
- AllocHeap.Heap.Malloc: chunks mapped directly are not modelled; a direct mapping counts as failing, and the request goes on to alloc_sys.
- AllocBins.Bins.FindLarge: the links of bins and trees are values (sequences and trees), not pointers in the free chunks; bitmaps are sets of indices.
- alloc_trim and release_unused_segments, which give memory back to the system.

DynASM:

- DasmEncoder.Encoder.Put: action lists are decoded once; the variable-size operands (DISP, IMM_DB, IMM_WB), VREG, SETLABEL, EXTERN, REL_A and MARK are left out; a backward reference needs a definition and no open forward reference.
- DasmEncoder.Encoder.Link: requires that no local label is open, as dasm_checkstep makes sure.
- dasm_growpc after the start; dasm_arm.h, which has the same label and alignment algorithm and no shrinking; dasm_mips.h and dasm_ppc.h.

Histogram:

- HdrHistogram.Init: ceil(log2) is an integer loop; int shifts of 31 and more and overflows of int32 and int64 are not modelled; the asserts of counts_index are compiled out.
- HdrHistogram.Histogram.RecordValues: the count is not negative.
- HdrHistogram.Histogram.ValueAtPercentile: doubles are reals; nothing is said of values whose range is so large that its size does not fit an int.
- HdrHistogram.Add: the recorded iterator is part of its loop.
- Mean, standard deviation, printing, and the percentile, linear and log iterators.

Pacing:

- PacingConnection.Connection.Step: doubles are reals; the clock does not run back; file descriptors are not modelled, so a timer that fires while a socket connects acts on that socket.
- Timeouts, calibration and rate sampling, which read the counters only.

Lua patterns and sorting:

- LuaMatch.MatchState.Match: bytes are characters; the C stack is not modelled beyond the depth limit.
- LuaSort.TableSort: the comparison is a function of two elements, without side effects or errors; the table is an array counted from 0.
- LuaTokens.TokensMean: says nothing of patterns that are not printed from tokens: malformed ones, and sets with a ^ or a dash in their middle.
- string.gsub and string.gmatch, which call the same matcher.

Register shuffle:

- JitShuffle.Allocator.Shuffle: starts from what the setup before the loop leaves: distinct parent registers, targets that are not allowed as temporaries, and live registers that are free or hold an inherited value; machine code is a list of moves.
