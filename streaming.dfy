/**
 * The Stream of internal/openai/openai.go:54-102: an error field, the
 * response body and a growable byte buffer. Each call of Next performs
 * exactly one read of up to 2<<10 bytes; a failed read records the error
 * and yields ""; a successful read is appended to the buffer, which is then
 * scanned for one complete object. The buffer is NOT scanned before the
 * read, so an object already buffered waits for a later successful read.
 *
 * Step is the value-level model of one call of Next; Stream.Next is the
 * object itself and is proved to follow Step.
 */
module Streaming {
  import opened Wrappers
  import opened Bytes
  import opened Frames
  import opened Chunks
  import opened Transport

  /** Bytes asked for by each read: 2<<10. */
  const ReadSize: nat := 2048

  /** The part of a Stream that Next changes: `err` (None is nil) and `buf`. */
  datatype State = State(err: Option<ReadError>, buf: seq<byte>)

  /**
   * One call of Next, given the outcome of its one read. A failed read
   * stores its error and keeps the buffer; a successful read keeps the error
   * and leaves a suffix of the old buffer followed by the new bytes; text
   * only ever comes from a successful read.
   */
  function Step(st: State, read: ReadResult, unmarshal: Unmarshal): (r: (State, Parsed))
    ensures read.Failed? ==> r == (State(Some(read.error), st.buf), Content(""))
    ensures read.Data? ==>
              var b := st.buf + read.bytes;
              && r.0.err == st.err
              && exists k :: 0 <= k <= |b| && r.0.buf == b[k..]
    ensures r.1.EmptyChoicesPanic? || r.1.text != "" ==> read.Data?
  {
    match read
    case Failed(e) => (State(Some(e), st.buf), Content(""))
    case Data(d) =>
      var b := st.buf + d;
      match Frame(b)
      case None => assert b[0..] == b; (State(st.err, b), Content(""))
      case Some(sp) => (State(st.err, b[sp.end..]), ParseChunk(b[sp.start..sp.end], unmarshal))
  }

  /**
   * Successive calls of Next over the outcomes of their reads. Reads that
   * all succeed leave the error as it was; when the last read fails, its
   * error is the one stored, whatever came before.
   */
  function Run(st: State, outcomes: seq<ReadResult>, unmarshal: Unmarshal): (r: State)
    ensures (forall i :: 0 <= i < |outcomes| ==> outcomes[i].Data?) ==> r.err == st.err
    ensures |outcomes| > 0 && outcomes[|outcomes| - 1].Failed? ==>
              r.err == Some(outcomes[|outcomes| - 1].error)
    decreases |outcomes|
  {
    if outcomes == [] then st else Run(Step(st, outcomes[0], unmarshal).0, outcomes[1..], unmarshal)
  }

  /**
   * A successful read of d: the scan sees the old buffer followed by d. With
   * no object in it, the whole of it stays buffered and Next yields "".
   * Otherwise the first object is cut out, everything up to its closing '}'
   * leaves the buffer, and the new buffer is the suffix after it.
   */
  lemma SuccessfulRead(st: State, d: seq<byte>, unmarshal: Unmarshal)
    ensures var b := st.buf + d;
            var (next, r) := Step(st, Data(d), unmarshal);
            && next.err == st.err
            && (Frame(b).None? ==> next.buf == b && r == Content(""))
            && (Frame(b).Some? ==>
                  var sp := Frame(b).value;
                  && b == b[..sp.end] + next.buf
                  && IsObject(b[sp.start..sp.end])
                  && r == ParseChunk(b[sp.start..sp.end], unmarshal))
  {
    var b := st.buf + d;
    FrameIsFirstObject(b);
    if Frame(b).Some? {
      var sp := Frame(b).value;
      assert b == b[..sp.end] + b[sp.end..];
    }
  }

  /**
   * When the buffer after the append begins with an object x, Next yields
   * x's content and keeps exactly the bytes after x.
   */
  lemma LeadingObject(st: State, d: seq<byte>, x: seq<byte>, rest: seq<byte>, unmarshal: Unmarshal)
    requires IsObject(x) && st.buf + d == x + rest
    ensures Step(st, Data(d), unmarshal) == (State(st.err, rest), ParseChunk(x, unmarshal))
  {
    ObjectAtFront(x, rest);
    var b := x + rest;
    assert b[0..|x|] == x;
    assert b[|x|..] == rest;
  }

  /** A malformed object is skipped: "" comes out, the stream is no nearer done, the rest stays. */
  lemma MalformedObjectSkipped(st: State, d: seq<byte>, x: seq<byte>, rest: seq<byte>, unmarshal: Unmarshal)
    requires IsObject(x) && st.buf + d == x + rest && unmarshal(x).None?
    ensures Step(st, Data(d), unmarshal) == (State(st.err, rest), Content(""))
  {
    LeadingObject(st, d, x, rest, unmarshal);
  }

  /** Once err is non-nil it stays non-nil: no path resets it, later failures only replace it. */
  lemma {:induction false} DoneIsSticky(st: State, outcomes: seq<ReadResult>, unmarshal: Unmarshal)
    requires st.err.Some?
    ensures Run(st, outcomes, unmarshal).err.Some?
    decreases |outcomes|
  {
    if outcomes != [] {
      DoneIsSticky(Step(st, outcomes[0], unmarshal).0, outcomes[1..], unmarshal);
    }
  }

  /**
   * Two objects x and y in one read: the first call yields x. The second
   * object is yielded only by a later call whose read succeeds; a failed
   * read leaves it stranded in the buffer.
   */
  lemma TwoObjectsOneRead(x: seq<byte>, y: seq<byte>, d: seq<byte>, e: ReadError, unmarshal: Unmarshal)
    requires IsObject(x) && IsObject(y)
    ensures Step(State(None, []), Data(x + y), unmarshal) == (State(None, y), ParseChunk(x, unmarshal))
    ensures Step(State(None, y), Failed(e), unmarshal) == (State(Some(e), y), Content(""))
    ensures Step(State(None, y), Data(d), unmarshal) == (State(None, d), ParseChunk(y, unmarshal))
  {
    LeadingObject(State(None, []), x + y, x, y, unmarshal);
    LeadingObject(State(None, y), d, y, d, unmarshal);
  }

  /** The first part of an object split over two reads: nothing yet, and the part stays buffered. */
  lemma SplitFirstPart(x: seq<byte>, k: nat, unmarshal: Unmarshal)
    requires IsObject(x) && k < |x|
    ensures Step(State(None, []), Data(x[..k]), unmarshal) == (State(None, x[..k]), Content(""))
  {
    PrefixHasNoFrame(x, k);
    assert [] + x[..k] == x[..k];
  }

  /** The rest of an object split over two reads: the whole object, and an empty buffer. */
  lemma SplitSecondPart(x: seq<byte>, k: nat, unmarshal: Unmarshal)
    requires IsObject(x) && k < |x|
    ensures Step(State(None, x[..k]), Data(x[k..]), unmarshal) == (State(None, []), ParseChunk(x, unmarshal))
  {
    assert x[..k] + x[k..] == x + [];
    LeadingObject(State(None, x[..k]), x[k..], x, [], unmarshal);
  }

  /** Step after a successful read, in terms of what Scan reports. */
  lemma ScannedStep(st: State, d: seq<byte>, found: bool, start: nat, end: nat, unmarshal: Unmarshal)
    requires found <==> Frame(st.buf + d).Some?
    requires found ==> Frame(st.buf + d) == Some(Span(start, end))
    ensures found ==> && start < end <= |st.buf + d|
                      && st.buf + d == (st.buf + d)[..end] + (st.buf + d)[end..]
                      && Step(st, Data(d), unmarshal)
                         == (State(st.err, (st.buf + d)[end..]), ParseChunk((st.buf + d)[start..end], unmarshal))
    ensures !found ==> Step(st, Data(d), unmarshal) == (State(st.err, st.buf + d), Content(""))
  {
  }

  class Stream {
    var err: Option<ReadError>
    const rsp: Body
    var buf: seq<byte>
    /** json.Unmarshal, which the model does not look inside. */
    const unmarshal: Unmarshal

    /** Every byte appended to buf so far, and the prefix of it already cut off. */
    ghost var received: seq<byte>
    ghost var taken: seq<byte>

    /** Bytes leave buf only from the front, and never out of order. */
    ghost predicate Valid()
      reads this
    {
      received == taken + buf
    }

    /** The stream ChatAsync builds around a response body (internal/openai/openai.go:119). */
    constructor (rsp: Body, unmarshal: Unmarshal)
      ensures Valid()
      ensures this.rsp == rsp && this.unmarshal == unmarshal
      ensures err == None && buf == [] && received == [] && taken == []
    {
      this.rsp := rsp;
      this.unmarshal := unmarshal;
      err := None;
      buf := [];
      received, taken := [], [];
    }

    /** Done() holds exactly when Err() is non-nil. */
    function Err(): (e: Option<ReadError>)
      reads this
      ensures e.Some? <==> Done()
    {
      err
    }

    /** Once done, the stream stays done whatever the next read delivers. */
    predicate Done()
      reads this
      ensures Done() ==> forall read :: Step(State(err, buf), read, unmarshal).0.err.Some?
    {
      err.Some?
    }

    method Next() returns (r: Parsed)
      requires Valid()
      modifies this, rsp
      ensures Valid()
      ensures rsp.pending == NextRead(old(rsp.pending), ReadSize).1
      ensures (State(err, buf), r) == Step(State(old(err), old(buf)), NextRead(old(rsp.pending), ReadSize).0, unmarshal)
      ensures old(Done()) ==> Done()
      ensures var rd := NextRead(old(rsp.pending), ReadSize).0;
              received == old(received) + (if rd.Data? then rd.bytes else [])
      ensures old(taken) <= taken
    {
      ghost var before := State(err, buf);
      var read := rsp.Read(ReadSize);
      if read.Failed? {
        err := Some(read.error);
        r := Content("");
      } else {
        var b := buf + read.bytes;
        ghost var t := taken;
        assert received + read.bytes == t + b;
        buf, received := b, received + read.bytes;
        var found, start, end := Scan(b);
        ScannedStep(before, read.bytes, found, start, end, unmarshal);
        if found {
          assert t + b[..end] + b[end..] == t + b;
          taken := t + b[..end];
          buf := b[end..];
          r := ParseChunk(b[start..end], unmarshal);
        } else {
          r := Content("");
        }
      }
    }
  }

  /**
   * Two objects delivered by one read and then a failed read: the caller
   * gets the first object, then "" with the stream done and the second
   * object left in the buffer.
   */
  method TwoObjectsThenFailure(x: seq<byte>, y: seq<byte>, e: ReadError, unmarshal: Unmarshal)
    returns (first: Parsed, second: Parsed, left: seq<byte>, done: bool)
    requires IsObject(x) && IsObject(y) && |x + y| <= ReadSize
    ensures first == ParseChunk(x, unmarshal)
    ensures second == Content("") && done && left == y
  {
    var body := new Body([Data(x + y), Failed(e)]);
    var s := new Stream(body, unmarshal);
    TwoObjectsOneRead(x, y, [], e, unmarshal);
    first := s.Next();
    second := s.Next();
    left := s.buf;
    done := s.Done();
  }
}
