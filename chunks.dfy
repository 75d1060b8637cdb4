/**
 * parseChunk (internal/openai/openai.go:104-110) and the record it decodes
 * into (completionsStreamChunk, internal/openai/openai.go:142-148).
 *
 * JSON decoding itself belongs to a library outside the model, so it is a
 * parameter: an Unmarshal function that gives None whenever json.Unmarshal
 * returns an error (a syntax error, or a value of the wrong type such as a
 * number where the choices list belongs) and the decoded record otherwise.
 */
module Chunks {
  import opened Wrappers
  import opened Bytes

  datatype Delta = Delta(content: string)
  datatype StreamChoice = StreamChoice(delta: Delta)
  datatype StreamChunk = StreamChunk(choices: seq<StreamChoice>)

  /** The stand-in for json.Unmarshal into a completionsStreamChunk. */
  type Unmarshal = seq<byte> -> Option<StreamChunk>

  /**
   * What parseChunk produces: the text of the first choice's delta, or the
   * run-time panic of indexing Choices[0] when the choices list is empty.
   */
  datatype Parsed = Content(text: string) | EmptyChoicesPanic

  function ParseChunk(obj: seq<byte>, unmarshal: Unmarshal): (r: Parsed)
    ensures unmarshal(obj).None? ==> r == Content("")
    ensures r.EmptyChoicesPanic? <==> unmarshal(obj).Some? && |unmarshal(obj).value.choices| == 0
    ensures unmarshal(obj).Some? && |unmarshal(obj).value.choices| > 0 ==>
              r == Content(unmarshal(obj).value.choices[0].delta.content)
    ensures r.Content? && r.text != "" ==>
              unmarshal(obj).Some? && r.text == unmarshal(obj).value.choices[0].delta.content
  {
    match unmarshal(obj)
    case None => Content("")
    case Some(chunk) =>
      if |chunk.choices| == 0 then EmptyChoicesPanic
      else Content(chunk.choices[0].delta.content)
  }
}
