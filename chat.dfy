/**
 * The streaming loop of the command-line client (cmd/chat/main.go:44-47):
 * while the stream is not done, call Next and print what it yields.
 * Printing is modelled as appending to the output string. A panic raised
 * by parseChunk ends the process; what was printed before it stays printed.
 */
module Chat {
  import opened Wrappers
  import opened Bytes
  import opened Frames
  import opened Chunks
  import opened Transport
  import opened Streaming

  /** What the client leaves behind: the text on standard output, and whether it panicked. */
  datatype Session = Session(printed: string, crashed: bool)

  /**
   * The text printed by the loop, given the outcomes of the reads the calls
   * of Next perform in turn. Once the outcomes run out the body answers
   * io.EOF, which ends the loop quietly; only an object that was read can
   * crash the client.
   */
  function Drive(st: State, outcomes: seq<ReadResult>, unmarshal: Unmarshal): (r: Session)
    ensures st.err.None? && |outcomes| == 0 ==> r == Session("", false)
    ensures r.crashed ==> st.err.None? && exists i :: 0 <= i < |outcomes| && outcomes[i].Data?
    decreases |outcomes| + (if st.err.None? then 1 else 0)
  {
    if st.err.Some? then Session("", false)
    else
      var read := if outcomes == [] then Failed(EOF) else outcomes[0];
      var rest := if outcomes == [] then [] else outcomes[1..];
      var step := Step(st, read, unmarshal);
      if step.1.EmptyChoicesPanic? then Session("", true)
      else
        var tail := Drive(step.0, rest, unmarshal);
        assert tail.crashed ==> outcomes != [] && outcomes[0].Data?;
        assert tail.crashed ==> exists i :: 0 <= i < |outcomes| && outcomes[i].Data?;
        Session(step.1.text + tail.printed, tail.crashed)
  }

  function Frag(text: string): StreamChunk
  {
    StreamChunk([StreamChoice(Delta(text))])
  }

  /** A failed read ends the loop with nothing more printed, whatever would follow. */
  lemma StopsAtFailedRead(buf: seq<byte>, e: ReadError, more: seq<ReadResult>, unmarshal: Unmarshal)
    ensures Drive(State(None, buf), [Failed(e)] + more, unmarshal) == Session("", false)
  {
    var outcomes := [Failed(e)] + more;
    assert outcomes[0] == Failed(e);
    assert Drive(State(Some(e), buf), outcomes[1..], unmarshal) == Session("", false);
    assert "" + "" == "";
  }

  /**
   * A read that delivers exactly one whole object, to an empty buffer,
   * prints the object's text; the loop then goes on as before, up to a
   * crash if one follows.
   */
  lemma PrintsObject(x: seq<byte>, t: string, more: seq<ReadResult>, out: string, crashed: bool, unmarshal: Unmarshal)
    requires IsObject(x) && unmarshal(x) == Some(Frag(t))
    requires Drive(State(None, []), more, unmarshal) == Session(out, crashed)
    ensures Drive(State(None, []), [Data(x)] + more, unmarshal) == Session(t + out, crashed)
  {
    LeadingObject(State(None, []), x, x, [], unmarshal);
    var outcomes := [Data(x)] + more;
    assert outcomes[0] == Data(x) && outcomes[1..] == more;
  }

  /** One frame in the last read before end of stream: exactly its text is printed. */
  lemma PrintsLastObject(x: seq<byte>, t: string, unmarshal: Unmarshal)
    requires IsObject(x) && unmarshal(x) == Some(Frag(t))
    ensures Drive(State(None, []), [Data(x), Failed(EOF)], unmarshal) == Session(t, false)
  {
    var last := [Failed(EOF)];
    StopsAtFailedRead([], EOF, [], unmarshal);
    assert [Failed(EOF)] + [] == last;
    PrintsObject(x, t, last, "", false, unmarshal);
    assert [Data(x)] + last == [Data(x), Failed(EOF)];
    assert t + "" == t;
  }

  /** Two frames in two reads, then end of stream: their texts are printed in order. */
  lemma PrintsTwoObjects(x: seq<byte>, y: seq<byte>, s: string, t: string, unmarshal: Unmarshal)
    requires IsObject(x) && IsObject(y)
    requires unmarshal(x) == Some(Frag(s)) && unmarshal(y) == Some(Frag(t))
    ensures Drive(State(None, []), [Data(x), Data(y), Failed(EOF)], unmarshal) == Session(s + t, false)
  {
    var two := [Data(y), Failed(EOF)];
    PrintsLastObject(y, t, unmarshal);
    PrintsObject(x, s, two, t, false, unmarshal);
    assert [Data(x)] + two == [Data(x), Data(y), Failed(EOF)];
  }

  /** Two frames "He" and "llo" in two reads, then end of stream: the client prints "Hello". */
  lemma PrintsHello(x: seq<byte>, y: seq<byte>, unmarshal: Unmarshal)
    requires IsObject(x) && IsObject(y)
    requires unmarshal(x) == Some(Frag("He")) && unmarshal(y) == Some(Frag("llo"))
    ensures Drive(State(None, []), [Data(x), Data(y), Failed(EOF)], unmarshal) == Session("Hello", false)
  {
    PrintsTwoObjects(x, y, "He", "llo", unmarshal);
    assert "He" + "llo" == "Hello";
  }

  /**
   * Two objects arriving in the last read before end of stream: only the
   * first is printed, because the loop stops at the failed read that would
   * otherwise have been followed by a scan of the buffer.
   */
  lemma SecondObjectLostAtEof(x: seq<byte>, y: seq<byte>, s: string, t: string, unmarshal: Unmarshal)
    requires IsObject(x) && IsObject(y)
    requires unmarshal(x) == Some(Frag(s)) && unmarshal(y) == Some(Frag(t))
    ensures Drive(State(None, []), [Data(x + y)], unmarshal) == Session(s, false)
  {
    assert Step(State(None, []), Data(x + y), unmarshal) == (State(None, y), Content(s)) by {
      LeadingObject(State(None, []), x + y, x, y, unmarshal);
    }
    assert Step(State(None, y), Failed(EOF), unmarshal) == (State(Some(EOF), y), Content(""));
    assert Drive(State(Some(EOF), y), [], unmarshal) == Session("", false);
    assert "" + "" == "";
    assert Drive(State(None, y), [], unmarshal) == Session("", false);
    assert s + "" == s;
  }

  /** The frames "He" and "llo" together in the last read: only "He" is printed. */
  lemma HeWithoutLlo(x: seq<byte>, y: seq<byte>, unmarshal: Unmarshal)
    requires IsObject(x) && IsObject(y)
    requires unmarshal(x) == Some(Frag("He")) && unmarshal(y) == Some(Frag("llo"))
    ensures Drive(State(None, []), [Data(x + y)], unmarshal) == Session("He", false)
  {
    SecondObjectLostAtEof(x, y, "He", "llo", unmarshal);
  }

  /** An object whose choices list is empty crashes the client before anything more is printed. */
  lemma EmptyChoicesCrash(x: seq<byte>, outcomes: seq<ReadResult>, unmarshal: Unmarshal)
    requires IsObject(x) && unmarshal(x) == Some(StreamChunk([]))
    ensures Drive(State(None, []), [Data(x)] + outcomes, unmarshal) == Session("", true)
  {
    LeadingObject(State(None, []), x, x, [], unmarshal);
  }

  /** The frame "He" and then a frame with no choices: "He" is on standard output when the client crashes. */
  lemma PrintedBeforeCrash(x: seq<byte>, z: seq<byte>, unmarshal: Unmarshal)
    requires IsObject(x) && IsObject(z)
    requires unmarshal(x) == Some(Frag("He")) && unmarshal(z) == Some(StreamChunk([]))
    ensures Drive(State(None, []), [Data(x), Data(z)], unmarshal) == Session("He", true)
  {
    EmptyChoicesCrash(z, [], unmarshal);
    assert [Data(z)] + [] == [Data(z)];
    PrintsObject(x, "He", [Data(z)], "", true, unmarshal);
    assert [Data(x)] + [Data(z)] == [Data(x), Data(z)];
    assert "He" + "" == "He";
  }
}
