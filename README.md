# Streaming NDJSON book recommendations, in Dafny

This project models three small programs that each ask a language model for
book recommendations as newline-delimited JSON (one object per line). Each
program then turns the reply into a list of processed book records.

- `main.py` streams. A background reader appends each chunk of the reply to a
  buffer and cuts every complete object line off the front of the buffer
  with the `OBJ_LINE` pattern. It decodes each object and puts it on an
  `asyncio.Queue`. It always puts a `None` sentinel last. A langgraph graph
  (`start_stream -> next_item -> consume_item -> next_item | END`) takes the
  objects off the queue one at a time and runs `process_book` on each.
- `main_medium.py` collects the whole reply (`call_llm`), splits it into
  lines (`parse_books`) and processes every decoded line
  (`process_books`).
- `main_basic.py` takes the reply as one string and parses and processes it
  line by line (`get_book_recommendations`).

The model is sequential and deterministic. It takes two parameters:

- `json.loads` is a partial function `Decoder = string -> Option<Value>`.
  `None` stands for `JSONDecodeError`.
- `random.random() < 0.25` is a coin. `coins(k)` is the draw of the k-th
  `process_book` call, and `true` means "not in store".

Modules, one per file:

- `Json` (json.dfy): `Option`, the JSON `Value` and the `Decoder` type.
- `PyText` (py_text.dfy): `str.isspace` (which is also what the regex `\s`
  matches), `str.strip()` and `str.split('\n')`.
- `ObjLine` (obj_line.dfy): the `OBJ_LINE` pattern.
  - The grammar predicates `Body`, `Quoted` and `TailAt` and the predicate
    `IsMatch` state what the pattern accepts.
  - `Match` is an explicit scanner that finds the match the regex engine
    finds. It is proved sound, complete, and maximal in its end.
  - `Frames` is the `while m := OBJ_LINE.match(buf)` loop.
- `Ndjson` (ndjson.dfy): well-formed replies (`Wf`, `Render`).
  - For such a reply the extractor yields exactly the reply's objects.
  - Cutting the reply into two pieces changes nothing.
- `Chunks` (chunks.dfy): chunk contents.
  - `main.py` keeps the leading run of "text" elements (`LeadText`).
  - `main_medium.py` keeps all "text" elements (`AllText`).
- `Reader` (stream_reader.dfy): `_stream_reader`.
  - `Produce` is the reader as a function of its inputs.
  - The `Channel` class is the queue.
  - `StreamReader` is the loop, proved to put exactly
    `Items(Produce(...))` on the channel.
- `Books` (books.dfy): `process_book`, identical in the three programs.
- `Graph` (graph.dfy): the nodes of `main.py`'s graph, and the `Context` class
  with `start_stream`.
  - `Consume` is the consumer loop.
  - `RunGraph` is a whole session.
- `Medium` (medium.dfy): `call_llm`, `parse_books`, `process_books`.
- `Basic` (basic.dfy): `get_book_recommendations`.

The concurrency of `main.py` is sequential in the model. `RunTask` runs the
reader task to its end, then `Consume` drains the queue. The queue has one
producer and is first in, first out, so the consumer sees the same items in
the same order as under any interleaving.

### Notes on the code

- **Decode failure.** main.py:82 cuts the matched object off the buffer
  (`buf = buf[m.end():]`) before `json.loads` runs at main.py:83. A decode
  that raises ends the reader, so the cut buffer is never seen again.
  `Reader.Drain` follows that order.
- **Queue.** The queue is an unbounded `asyncio.Queue()` (main.py:92), so a
  put never waits. `Reader.Channel` is unbounded.
- **Chunk boundaries.** Where a chunk ends makes no difference unless it ends
  right after an object's `}` (or in the whitespace after it) and the next
  chunk puts non-space text on that same line. The buffer then matches at
  once, because `$` matches at the buffer end (main.py:57). The whole text
  would not match there (`ObjLine.TrailingTextBlocks`).
  - `Ndjson.Wf` covers replies whose object lines each end in a newline, and
    whose last object line may or may not have one.
  - `Reader.SplitInvariance` proves chunk invariance for all such replies.

## Model

| member | source | states |
|---|---|---|
| PyText.SkipSpace | main.py:53 | `^\s*`: the end of the longest whitespace run from i; everything before it is whitespace and the character there is not |
| PyText.StripSpec | main_medium.py:56-57 | `strip()` removes exactly the whitespace at both ends; the result is empty iff the line is all whitespace, else it starts and ends with non-whitespace |
| PyText.SplitLines | main_medium.py:56 | `split('\n')` gives at least one piece, no piece holds a newline, and joining the pieces with newlines gives the text back |
| PyText.SplitJoin | main_basic.py:39 | splitting a newline-join of newline-free lines gives those lines back (split inverts join) |
| ObjLine.ScanStringSound | main.py:55 | what the string scan reads up to the closing quote is string content (`\\.` or a character other than `"` and `\\`) |
| ObjLine.ScanStringComplete | main.py:55 | string content followed by a quote is always read by the scan, which stops just after that quote |
| ObjLine.ScanBodySound | main.py:55 | what the body scan reads is body text: plain runs and closed strings |
| ObjLine.ScanBodyComplete | main.py:55 | body text that ends where the body cannot continue is exactly what the scan reads, so the body is parsed in one way only |
| ObjLine.QuotedSpanSkipped | main.py:55 | braces, newlines and escaped quotes inside a closed string do not end the body: the scan goes right past the string |
| ObjLine.LineEndSound | main.py:57 | the end found for the tail (whitespace, then a newline or the end of the buffer) is a match of that tail |
| ObjLine.LineEndLongest | main.py:57 | if the tail can match at all it is found, and no match of the tail ends later (the greedy `\s*` backtracks to the last newline or the buffer end) |
| ObjLine.Match | main.py:52-59 | `OBJ_LINE.match`: a found match spans `{`...`}` of at least two characters and ends within the buffer |
| ObjLine.MatchSound | main.py:52-59 | every match found is a match of the pattern (leading whitespace, `{`, body, `}`, tail), and no match of that object ends later |
| ObjLine.MatchComplete | main.py:52-59 | whenever the pattern can match, the scanner finds a match with the same object span and an end at least as late |
| ObjLine.MatchPrefix | main.py:80 | growing the buffer never moves the object a match spans |
| ObjLine.Frames | main.py:80-84 | the `while` loop stops on a buffer that does not match |
| ObjLine.FramesStep | main.py:80-84 | one turn of the loop takes `m.group(1)` and continues on `buf[m.end():]` |
| ObjLine.FramesRestIsSuffix | main.py:82 | the buffer left by the loop is a suffix of the buffer it started from |
| ObjLine.PreambleBlocks | main.py:52-53 | text other than `{` after the leading whitespace blocks the buffer: nothing is extracted however it grows |
| ObjLine.StrayCharBlocks | main.py:54-55 | a nested `{` or a newline outside strings in the front object blocks the buffer for good |
| ObjLine.TrailingTextBlocks | main.py:57 | non-space text after the `}` on the same line blocks the buffer for good |
| Ndjson.MatchShift | main.py:53 | leading whitespace shifts a match and changes nothing else; there is a match with it iff there is one without it |
| Ndjson.LeadingSpace | main.py:53 | whitespace in front of the buffer changes nothing that is extracted |
| Ndjson.RenderFrames | main.py:80-84 | a well-formed reply yields exactly its objects, in line order, including the object of a last line that has no newline |
| Ndjson.Commute | main.py:67-84 | draining the first piece of a well-formed reply, then the leftover with the second piece appended, yields the objects of the whole reply, and the leftover stays well-formed |
| Chunks.Then | main.py:71-76 | appending to an accumulator fails iff either side has failed |
| Chunks.TextRun | main.py:74-79 | where the element loop breaks: the elements before it are all text and the one there is not |
| Chunks.LeadTextIsRunText | main.py:74-79 | main.py keeps the text of the leading run of text elements and drops everything from the first other element on |
| Chunks.LeadTextAllText | main.py:74-79 | where every element is text, main.py and main_medium.py take the same text |
| Chunks.AllTextSkipsOthers | main_medium.py:49-51 | main_medium.py's text is the text of the text elements alone, other elements skipped without stopping |
| Chunks.AllTextAppend | main_medium.py:49-51 | the text of two element lists run together is the text of the first, then that of the second |
| Reader.DecodeAllSpec | main.py:81-84 | decoding stops at the first object that fails; before it the values are the decodes in order; the fault names that object; no fault iff every object decodes |
| Reader.DecodeAllAppend | main.py:80-84 | decoding two runs of objects is decoding the first, then (if it did not fail) the second |
| Reader.AppendPiece | main.py:68-79 | the accumulation step equals `Grow`: a string appended whole, leading text elements appended until the first other element, None on a text element without "text" |
| Reader.Drain | main.py:80-84 | the drain loop enqueues the decoded objects of `Frames(buf)` in order, stops at the first decode failure, and otherwise leaves `Frames(buf).rest` |
| Reader.Feed | main.py:67-84 | one chunk: a false chunk is skipped; otherwise the chunk's text is appended and the buffer drained; what it enqueues and where it stops is one step of `Produce` |
| Reader.StreamReader | main.py:62-86 | the channel gains exactly the records of `Produce` followed by one sentinel, and the reader ends as `Produce` says |
| Reader.ItemsShape | main.py:84-86 | the queue a reader leaves holds its records in order, then the sentinel, which is its last item and its only one |
| Reader.RecordsAppend | main.py:84 | enqueueing two runs of records one after the other is enqueueing their concatenation |
| Reader.UpstreamFaultKeepsRecords | main.py:66-86 | the model call raising after its last chunk changes only how the reader ends, never what it enqueues |
| Reader.SplitInvariance | main.py:67-84 | for a well-formed reply (its last object line with or without a newline), however it is cut into chunks, the reader enqueues and ends as on the whole reply in one piece |
| Reader.ReplyObjects | main.py:62-86 | for a well-formed reply streamed in any chunks, its last line with or without a newline, the reader enqueues the decoded objects of its lines in order, up to the first that fails |
| Reader.PreambleStarves | main.py:80 | a buffer whose first non-space character is not `{` never yields a record, whatever chunks follow |
| Reader.Channel.constructor | main.py:92 | a new queue is empty |
| Reader.Channel.Put | main.py:84 | `queue.put` appends the item at the back |
| Reader.Channel.Get | main.py:110 | `queue.get` takes the front item; an empty queue yields nothing and stays empty |
| Books.Marker | main.py:23-26 | the marker is one of the two marker strings |
| Books.MarkerDistinct | main.py:23-26 | the two markers differ, so the coin decides which one a record gets |
| Books.ProcessBook | main.py:12-29 | the fill loop over the five keys, then the marker, computes `Processed`; a non-dict is returned as it is |
| Books.FilledUnique | main.py:18-21 | the filled dictionary is the only one that keeps the record's entries, adds exactly the absent required keys, and puts `""` under them |
| Books.ProcessedKind | main.py:15-16 | a non-dict comes back unchanged; a record comes back a dict iff it was one |
| Books.ProcessedFields | main.py:18-26 | a processed dict holds the five keys and `is_in_store`; keys it had (bar the marker) keep their values; the keys it lacked hold `""`; no other key appears; the marker is one of the two values |
| Books.ProcessedTwice | main_medium.py:16-24 | processing twice is processing once with the second coin: the fill is idempotent and only the marker may change |
| Books.ProcessAllCons | main_medium.py:68-71 | processing a list is processing its head with the first coin, then its tail with the following coins |
| Graph.NextItem | main.py:105-113 | the sentinel gives `done=True` and no item; an object gives that item and `done=False` |
| Graph.ConsumeItem | main.py:115-121 | when done, `done=True` again; otherwise the item processed with the coin, `done=False` |
| Graph.ConditionalEnd | main.py:123-124 | routes to END iff done |
| Graph.Turn | main.py:126-138 | after next_item and consume_item, done says whether the item taken was the sentinel, and a record taken comes back processed |
| Graph.DriveRecords | main.py:126-138 | over records then the sentinel, the consumer processes exactly those records in queue order with coins k, k+1, ..., takes the sentinel, reaches END, and takes nothing after it |
| Graph.Context.constructor | main.py:165-168 | a session starts with no queue and no task |
| Graph.Context.StartStream | main.py:91-102 | a queue is made only if there is none; a reader is started only if there is no task or the last one is done; otherwise nothing changes |
| Graph.Context.RunTask | main.py:98-102 | running the reader leaves the same queue with the reader's items appended, and `stream_task` finished with the reader's outcome |
| Graph.Consume | main.py:105-138 | the consumer loop's result is `Drive` over the queue contents, and it takes exactly the items it reports received off the front of the queue |
| Graph.RunGraph | main.py:126-138 | from a fresh context the items handed back are the reader's objects processed in order with coins 0, 1, 2, ...; the sentinel is the last item taken, and the run reaches END |
| Medium.CallLlm | main_medium.py:42-52 | `content` is the in-order concatenation of the string pieces and of every text element; None when a text element lacks "text" or the stream raises |
| Medium.CollectedAppend | main_medium.py:43-51 | the collected text does not depend on how the chunks are grouped: that of two runs of chunks is the first's followed by the second's |
| Medium.CollectedIsJoined | main_medium.py:43-51 | where every list element is text, main_medium.py collects exactly the text main.py's reader accumulates |
| Medium.Keep | main_medium.py:56-63 | a line gives at most one record, and one exactly when it is non-blank once stripped and decodes, namely its decode |
| Medium.ParseBooks | main_medium.py:54-64 | the loop over the lines computes `Parse`: the decodes of the non-blank stripped lines of the stripped response, in line order |
| Medium.ParseLinesAppend | main_medium.py:56-63 | the records of two runs of lines are those of the first followed by those of the second (line order kept) |
| Medium.ParseLinesBound | main_medium.py:58-63 | there are at most as many records as non-blank lines, and exactly as many when every non-blank line decodes |
| Medium.ParseLinesSound | main_medium.py:56-61 | every record is the decode of some non-blank stripped line |
| Medium.ProcessBooks | main_medium.py:66-72 | the result has the same length and order as the input, the i-th element being `process_book` of the i-th record with coin i |
| Medium.RunMedium | main_medium.py:74-84 | the graph fails iff call_llm does; otherwise it returns the parsed records of the response, processed in order |
| Basic.GetBookRecommendations | main_basic.py:38-50 | the result is the decodes of the non-blank stripped lines of the stripped content, in line order, each processed with its coin |
| Basic.KeptStep | main_basic.py:43-45 | appending one processed record moves it from the pending records onto the result |
| Basic.NonObjectKept | main_basic.py:43-45 | a line that decodes to something other than an object is kept unchanged; an object stays an object |

## Left out

- The model client (`ChatAnthropic`, `llm.astream`, `llm.ainvoke`) is a network call. The chunk sequence (with a flag saying whether the stream raises after its last chunk) or the reply string is an input instead.
- Prompt construction (`get_langchain_prompt` and the inline f-strings), the `main()` functions, `input`, `print`, `load_dotenv` and the environment are not part of this model.
- `main_simple.py` and `visualize_graphs.py` are not part of this model.
- The langgraph runtime is not modelled, only the node functions and the edges between them. The state merge of a node's returned keys is `Graph.Apply`.
- asyncio scheduling is not modelled. The reader task runs to its end before the consumer starts. With one producer and a FIFO queue the consumer sees the same items in the same order.
- `Graph.RunGraph`: langgraph's recursion limit is not modelled. main.py:160-164 runs the graph with an empty config, so langgraph's default limit applies (25 steps, per its documentation). A session takes 2n + 3 steps for n records: `start_stream`, then `next_item` and `consume_item` for each record and for the sentinel. A reply of about 12 or more records would end in `GraphRecursionError` instead of END, and this model does not capture that.
- `Graph.Consume`: a `q.get()` on an empty queue, which asyncio would wait on forever, ends the loop with `ended == false` instead.
- The grammar of `json.loads` is not modelled. It is the abstract `Decoder`, and every exception it raises is `None`.
- `random.random()` and its 25% distribution are not modelled. The coin is a parameter.
- The emoji markers are kept only as two distinct strings.
- `process_book` is modelled on values. It mutates the dict in place, but the queue and the lists hand each record to one owner, so no alias can observe the mutation.
- Python dict key order is not modelled. A processed record is a `map`.
- List elements that are not dicts, and `"text"` entries that are not strings (which would raise `AttributeError` or `TypeError`), are not modelled. An element is its `"type"` entry and its optional `"text"` entry.
- A content that is neither None, a string nor a list is not modelled.
- `Medium.CallLlm`: a `KeyError` from a text element without `"text"`, and the stream raising, both give `None`. The kind of exception is not kept.
- `Basic.GetBookRecommendations`: `response.content` is taken as a string, so list-valued content from `ainvoke` is not modelled.
- `Reader.SplitInvariance`: stated for well-formed replies (`Ndjson.Wf`). Replies with text after an object on its line, or with a nested object, are not covered. Their outcome can depend on the chunk boundaries, as described above.
