/** The menu parser of the shared OCR package: the model's reply, with or
    without a markdown code fence, is read as a JSON array. The model call is
    the given reply (`Failure` where it raises) and `json.loads` is the oracle
    `decode`; every failure is raised again to the caller. */
module PkgOcrLlm {
  import opened Util
  import opened Json

  /** Why `gemini_parse_menu` raises. */
  datatype Failure = MissingApiKey | ModelFailed | BadJson

  datatype Parsed = Items(items: seq<Value>) | Raised(failure: Failure)

  /** The JSON text of a reply: between "```json" and the next fence, else the
      second piece of a split on "```", else the whole reply; stripped in each
      case. */
  function JsonContent(content: string): string {
    if Contains(content, "```json") then Strip(SplitFirst(SplitSecond(content, "```json"), "```"))
    else if Contains(content, "```") then Strip(SplitSecond(content, "```"))
    else Strip(content)
  }

  /** `gemini_parse_menu`: an empty key raises before anything else; a failed
      call or undecodable text raises too, and nothing is swallowed. */
  function GeminiParseMenu(apiKey: string, reply: Reply, decode: string -> Option<seq<Value>>): (r: Parsed)
    ensures apiKey == "" ==> r == Raised(MissingApiKey)
    ensures r.Items? <==> apiKey != "" && reply.Text? && decode(JsonContent(reply.text)).Some?
    ensures r.Items? ==> Some(r.items) == decode(JsonContent(reply.text))
  {
    if apiKey == "" then Raised(MissingApiKey)
    else
      match reply
      case Failure => Raised(ModelFailed)
      case Text(content) =>
        match decode(JsonContent(content))
        case None => Raised(BadJson)
        case Some(items) => Items(items)
  }

  /** A fenced reply leaves no fence in the text that is decoded. */
  lemma FenceGone(content: string)
    requires Contains(content, "```")
    ensures !Contains(JsonContent(content), "```")
  {
    if Contains(content, "```json") {
      FirstHasNoSep(SplitSecond(content, "```json"), "```");
      StripKeepsOut(SplitFirst(SplitSecond(content, "```json"), "```"), "```");
    } else {
      FirstHasNoSep(content[Find(content, "```").value + 3..], "```");
      StripKeepsOut(SplitSecond(content, "```"), "```");
    }
  }

  /** A reply without a fence is decoded as it is, stripped. */
  lemma PlainReply(content: string)
    requires !Contains(content, "```")
    ensures JsonContent(content) == Strip(content)
  {
    if Contains(content, "```json") {
      var i :| 0 <= i <= |content| && OccursAt("```json", content, i);
      assert content[i..i + 3] == content[i..i + 7][..3];
      assert OccursAt("```", content, i);
    }
  }
}
