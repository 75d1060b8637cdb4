# Streaming frame extractor of the `chat` client

This project models the streaming decoder of a small command-line client for
a chat-completions API. The decoder is in `internal/openai/openai.go`. Its
`Stream` reads the HTTP response body. The body is a plain concatenation of
JSON objects. The stream assembles those bytes into complete objects and
returns the text delta of each one:

- `Stream` holds an error (`err`), the response body (`rsp`) and a growable
  byte buffer (`buf`). It becomes the class `Streaming.Stream`. Its
  functions `Done` and `Err` read it. Its method `Next` changes it.
- `Next` reads once, up to `2<<10` = 2048 bytes, from the body. A failed read
  stores the error and yields `""`. A successful read is appended to `buf`.
  Then a brace counter scans `buf` from the left. The scan stops at the first
  `'}'` that brings the counter back to 0. It cuts out the object that starts
  at the `'{'` which lifted the counter to 1, keeps the bytes after the `'}'`,
  and decodes the object.
- `parseChunk` decodes one object. Any error from `json.Unmarshal` gives
  `""`: a syntax error, or a value of the wrong type such as
  `{"choices":1}`. Otherwise it gives the delta content of the first choice.
  An empty choices list panics with an index out of range.

How the model is built:

- The scan loop is `Frames.Scan`. It is proved to compute the declarative
  specification `Frames.Frame`: the first index where a `'}'` brings the
  counter to 0, and the first index where a `'{'` lifts it to 1.
  `Frames.FrameIsFirstObject` proves that the span it cuts out is an object
  (`Frames.IsObject`): it starts with `'{'`, ends with `'}'`, holds as many
  of each, and every proper non-empty prefix holds more `'{'` than `'}'`.
- The counter is an unbounded `int`. It goes negative after a stray `'}'`,
  as in the code.
- The scan does not know about string literals, as in the code.
- `Streaming.Step` is the value-level model of one call of `Next`.
  `Streaming.Stream.Next` is proved to follow it. The stream also keeps a
  ghost history: `received`, every byte the reads have delivered, and
  `taken`, the bytes already cut off. `Next` proves that `received` grows by
  exactly the bytes of its read, and keeps the invariant that `received` is
  `taken` followed by `buf`. So bytes leave the buffer only from the front,
  in the order they arrived, across any number of calls.
- The response body is `Transport.Body`, a script of read outcomes that is
  played back one per call. Like any `io.Reader`, it delivers at most the
  requested number of bytes and keeps the rest for the next read. Once the
  script is exhausted it answers `io.EOF` forever.
- JSON decoding (`encoding/json`) is a function parameter of type
  `Chunks.Unmarshal`. It gives `None` for any error from `json.Unmarshal`
  and the decoded `completionsStreamChunk` otherwise.
- The empty-choices panic is an explicit result, `Chunks.EmptyChoicesPanic`.
- The client loop `for !stream.Done() { fmt.Print(stream.Next()) }` in
  `cmd/chat/main.go` becomes `Chat.Drive`. It maps the outcomes of the reads
  to a `Chat.Session`: the text printed so far, and whether the panic ended
  the process. Text printed before a panic stays printed.

Behaviour of the code worth knowing, which the model keeps:

- `Next` does NOT check the buffer before it reads. If one read delivers two
  objects, the second one is returned only by a later call whose read
  succeeds. If the next read fails, for example at end of stream, the second
  object is never printed (`Streaming.TwoObjectsOneRead`,
  `Streaming.TwoObjectsThenFailure`, `Chat.SecondObjectLostAtEof`).
- Nothing stops `Next` from reading again after an error. `err` is never
  reset, so `Done()` stays true (`Streaming.DoneIsSticky`). A later failed
  read replaces the stored error with the new one.
- An empty choices list crashes the streaming client instead of being
  skipped (`Chat.EmptyChoicesCrash`). The text printed before the crash
  stays on standard output (`Chat.PrintedBeforeCrash`).

## Model

| member | source | states |
|---|---|---|
| `Frames.Scan` | internal/openai/openai.go:82-99 | the counter loop finds an object exactly when `Frame` of the buffer has one, and then reports that object's start and end |
| `Frames.Frame` | internal/openai/openai.go:82-99 | the span the scan cuts out lies within the buffer and is non-empty |
| `Frames.FrameIsFirstObject` | internal/openai/openai.go:83-97 | no span is found exactly when no `'}'` brings the counter back to 0; otherwise the span ends at the first such `'}'` and starts at the first `'{'` that lifted the counter to 1; the counter is 0 over the dropped bytes before it; the span is an object: `'{'` first, `'}'` last, equal counts, every proper non-empty prefix with more `'{'` than `'}'` |
| `Frames.FirstCloseFrom` | internal/openai/openai.go:90-93 | the least index at or after k where a `'}'` brings the counter to 0, or none if there is no such index |
| `Frames.FirstOpenFrom` | internal/openai/openai.go:84-88 | the least index at or after k where a `'{'` lifts the counter to 1, or none if there is no such index |
| `Frames.FrameShape` | internal/openai/openai.go:84-95 | before the first closing `'}'` some `'{'` lifted the counter to 1, so `start` never keeps its default of 0 when an object is found, and the span between the two is an object |
| `Frames.SpanIsObject` | internal/openai/openai.go:84-95 | the span from a `'{'` that lifts the counter to 1 to the next `'}'` that drops it to 0 is an object, and the counter is 0 before it |
| `Frames.ReachesOne` | internal/openai/openai.go:84-88 | a counter that started at 0 and is now at least 1 was lifted to 1 by some `'{'` |
| `Frames.ObjectAtFront` | internal/openai/openai.go:82-95 | a buffer that begins with an object yields exactly that object, whatever follows it |
| `Frames.PrefixHasNoFrame` | internal/openai/openai.go:82-101 | a proper prefix of an object contains no object |
| `Frames.StartsAtFirstOpen` | internal/openai/openai.go:84-88 | if no `'}'` comes before the first `'{'`, a found object starts at that first `'{'` |
| `Frames.StrayCloseHidesObject` | internal/openai/openai.go:90-92 | after a stray `'}'` the object `{}` leaves the counter at -1 and is not found |
| `Frames.StrayCloseCutsInnerObject` | internal/openai/openai.go:84-94 | after a stray `'}'` the nested object `{{}}` is cut at its inner `{}` |
| `Chunks.ParseChunk` | internal/openai/openai.go:104-110 | any decoding error gives `""`; an empty choices list gives the panic and nothing else does; a decoded chunk with at least one choice gives exactly the first choice's delta content; any non-empty text is that content |
| `Transport.NextRead` | internal/openai/openai.go:73-74 | a read into a 2048-byte buffer delivers at most that many bytes, keeps the rest of the data in order for the next read, passes errors through, and answers EOF once the body is exhausted |
| `Transport.Body.Read` | internal/openai/openai.go:74 | the body's read follows `NextRead` and delivers at most `size` bytes |
| `Streaming.Stream.constructor` | internal/openai/openai.go:119 | a new stream has a nil error and an empty buffer |
| `Streaming.Stream.Err` | internal/openai/openai.go:64-70 | `Err()` is non-nil exactly when `Done()` holds |
| `Streaming.Stream.Next` | internal/openai/openai.go:72-102 | one read per call, and the new error, buffer and result are those of `Step` on the old state and the read's outcome; the body advances by exactly that read; `Done()` once true stays true; the history of received bytes grows by exactly the bytes read, and stays the bytes already cut off followed by `buf`, so bytes leave the buffer only from the front and in order |
| `Streaming.Step` | internal/openai/openai.go:72-102 | one call of `Next`: a failed read stores its error, keeps the buffer and yields `""`; a successful read keeps the error and leaves a suffix of the old buffer followed by the new bytes; text and the panic only come from a successful read |
| `Streaming.Run` | internal/openai/openai.go:68-78 | over successive calls, reads that all succeed leave the error as it was, and when the last read fails its error is the one stored, replacing any earlier one |
| `Streaming.Stream.Done` | internal/openai/openai.go:68-70 | once done, the stream stays done whatever the next read delivers |
| `Streaming.SuccessfulRead` | internal/openai/openai.go:79-101 | after a successful read the scan sees the old buffer followed by the new bytes, and the error is unchanged; with no object the whole of it stays buffered and the result is `""`; otherwise the cut bytes followed by the new buffer give back the whole, the span is an object, and the result is its decoding |
| `Streaming.ScannedStep` | internal/openai/openai.go:83-101 | what `Scan` reports determines the new state: with an object, the buffer after its end; without, the whole appended buffer |
| `Streaming.LeadingObject` | internal/openai/openai.go:80-95 | when the appended buffer begins with an object, `Next` returns that object's decoding and keeps exactly the bytes after it |
| `Streaming.MalformedObjectSkipped` | internal/openai/openai.go:104-108 | an object that does not decode gives `""`, does not end the stream, and is removed from the buffer |
| `Streaming.DoneIsSticky` | internal/openai/openai.go:68-78 | once the error is non-nil it stays non-nil over any number of later calls |
| `Streaming.TwoObjectsOneRead` | internal/openai/openai.go:72-95 | with two objects in one read, the first call returns the first object; a later successful read returns the second one; a failed read first leaves it stranded in the buffer |
| `Streaming.SplitFirstPart` | internal/openai/openai.go:79-101 | the first part of an object split over two reads gives `""` and stays buffered |
| `Streaming.SplitSecondPart` | internal/openai/openai.go:79-95 | the rest of that object, in the next read, gives the whole object's decoding and leaves the buffer empty |
| `Streaming.TwoObjectsThenFailure` | internal/openai/openai.go:72-95 | on the stream object itself: two objects in one read followed by a failed read give the first object, then `""`, with the stream done and the second object still buffered |
| `Chat.Drive` | cmd/chat/main.go:44-47 | the loop ends quietly with nothing printed when the body is already exhausted, and it can crash only on an object delivered by a successful read when the stream was not yet done |
| `Chat.StopsAtFailedRead` | cmd/chat/main.go:44-47 | a failed read ends the client loop with nothing more printed |
| `Chat.PrintsObject` | cmd/chat/main.go:44-47 | a read that delivers exactly one object into an empty buffer prints that object's text, and the loop then goes on as before |
| `Chat.PrintsLastObject` | cmd/chat/main.go:44-47 | one object in the last read before end of stream prints exactly its text |
| `Chat.PrintsTwoObjects` | cmd/chat/main.go:44-47 | two frames in two reads, then end of stream, print their texts in order and nothing else |
| `Chat.PrintsHello` | cmd/chat/main.go:44-47 | the frames "He" and "llo" in two reads, then end of stream, print exactly "Hello" |
| `Chat.SecondObjectLostAtEof` | cmd/chat/main.go:44-47 | two objects with any texts `s` and `t` in the last read before end of stream print only `s` |
| `Chat.HeWithoutLlo` | cmd/chat/main.go:44-47 | the frames "He" and "llo" together in the last read print only "He" |
| `Chat.EmptyChoicesCrash` | internal/openai/openai.go:109 | an object with an empty choices list ends the client with the index-out-of-range panic, printing nothing more |
| `Chat.PrintedBeforeCrash` | cmd/chat/main.go:44-47 | the frame "He" followed by a frame with no choices leaves "He" on standard output and the client crashed |

## Left out

- `Stream.Close` (internal/openai/openai.go:60-62): it only releases the foreign response body.
- `NewService`, `ChatAsync` beyond building the stream, `callCompletions` and `createCompletionsRequest` (internal/openai/openai.go:26-34, 114-120, 151-201): the HTTP client, its timeout, request building and JSON encoding are network and library calls.
- `ChatSync` (internal/openai/openai.go:37-52): the blocking request path, which is not part of the streaming core. It returns the request's error, `("", nil)` when the response does not decode, an error for an empty choices list, and otherwise the content of the first choice's message.
- `cmd/chat/main.go` apart from the streaming loop: flag parsing, the environment variable, printing to standard output and `os.Exit` are command-line I/O.
- JSON decoding: `encoding/json` is a library outside the model. It is a function parameter, so the model says nothing about which byte strings decode.
- A read that returns bytes together with a non-nil error is modelled as a plain failed read. The code ignores those bytes anyway.
- `Chat.Drive`: takes the outcome of each read directly, without the 2048-byte limit of `Transport.NextRead`.
- Concurrency: the stream is used from one goroutine only, and the model has none.
