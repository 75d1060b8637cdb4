/**
 * The response body the stream reads from (the io.ReadCloser field `rsp`
 * of Stream, internal/openai/openai.go:56). The body is a foreign object;
 * it is modelled as a script of read outcomes played back one per call.
 * Like any io.Reader, a read into a buffer of `size` bytes delivers at most
 * `size` bytes and leaves the rest for the next call; an exhausted body
 * keeps answering io.EOF.
 */
module Transport {
  import opened Bytes

  /** A non-nil Go error from the body: io.EOF or a transport failure. */
  datatype ReadError = EOF | Failure(reason: string)

  /** The outcome of one Read: n bytes and a nil error, or a non-nil error. */
  datatype ReadResult = Data(bytes: seq<byte>) | Failed(error: ReadError)

  /** The outcome of the next read into a size-byte buffer, and the script left after it. */
  function NextRead(pending: seq<ReadResult>, size: nat): (r: (ReadResult, seq<ReadResult>))
    ensures r.0.Data? ==> |r.0.bytes| <= size
    ensures pending == [] ==> r == (Failed(EOF), [])
    ensures pending != [] && pending[0].Failed? ==> r == (pending[0], pending[1..])
    ensures pending != [] && pending[0].Data? ==>
              && r.0.Data? && r.0.bytes <= pending[0].bytes
              && r.1 == (if r.0.bytes == pending[0].bytes then [] else [Data(pending[0].bytes[|r.0.bytes|..])]) + pending[1..]
  {
    if pending == [] then (Failed(EOF), [])
    else match pending[0]
      case Failed(_) => (pending[0], pending[1..])
      case Data(d) =>
        if |d| <= size then (pending[0], pending[1..])
        else (Data(d[..size]), [Data(d[size..])] + pending[1..])
  }

  class Body {
    var pending: seq<ReadResult>

    constructor (script: seq<ReadResult>)
      ensures pending == script
    {
      pending := script;
    }

    /** Read into a buffer of size bytes. */
    method Read(size: nat) returns (r: ReadResult)
      modifies this
      ensures (r, pending) == NextRead(old(pending), size)
      ensures r.Data? ==> |r.bytes| <= size
    {
      var next := NextRead(pending, size);
      r, pending := next.0, next.1;
    }
  }
}
