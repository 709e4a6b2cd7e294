/** The video-summary request of the generative service: a key guard, one
    generation call, a parse of the whole reply, and a fallback that parses the
    brace-delimited block the pattern /\{[\s\S]*\}/ finds in it. */
module Gemini {
  import opened Wrappers
  import Strings

  datatype VideoSummary = VideoSummary(oneLiner: string, popularFactor: seq<string>)

  /** The values a summary request carries; the fixed instruction text is not modelled. */
  datatype SummaryPrompt = SummaryPrompt(title: string, description: string)

  /** `text[i..j]` is a match of /\{[\s\S]*\}/: an opening brace, anything, then a closing brace. */
  ghost predicate MatchesAt(text: string, i: int, j: int)
  {
    0 <= i && i + 2 <= j <= |text| && text[i] == '{' && text[j - 1] == '}'
  }

  /** The match a JavaScript regular expression reports for that pattern: the leftmost start,
      and from there the longest match, since the star is greedy. */
  ghost predicate IsReportedMatch(text: string, i: int, j: int)
  {
    && MatchesAt(text, i, j)
    && forall i', j' :: MatchesAt(text, i', j') ==> i <= i' && (i' == i ==> j' <= j)
  }

  /** Bounds of the reported match: from the first '{' to the last '}', when that '}' comes later. */
  function BraceSpan(text: string): (span: Option<(nat, nat)>)
    ensures span.None? <==> forall i, j :: !MatchesAt(text, i, j)
    ensures span.Some? ==> IsReportedMatch(text, span.value.0, span.value.1)
    ensures span.Some? ==> '{' !in text[..span.value.0] && '}' !in text[span.value.1..]
  {
    match (Strings.FirstIndexOf(text, '{'), Strings.LastIndexOf(text, '}'))
    case (Some(i), Some(k)) =>
      if i < k then
        assert MatchesAt(text, i, k + 1);
        Some((i, k + 1))
      else
        None
    case _ =>
      None
  }

  /** `text.match(/\{[\s\S]*\}/)?.[0]`. */
  function BraceBlock(text: string): (block: Option<string>)
    ensures block.Some? ==> |block.value| >= 2 && block.value[0] == '{' && block.value[|block.value| - 1] == '}'
    ensures block.Some? ==> exists i, j :: IsReportedMatch(text, i, j) && block.value == text[i..j]
    ensures block.None? <==> forall i, j :: !MatchesAt(text, i, j)
  {
    match BraceSpan(text)
    case None => None
    case Some((i, j)) => Some(text[i..j])
  }

  /** The summary for a video. `generate` answers a request with the reply text, or None when the
      call fails; `parse` reads a text as a summary, or None when parsing throws. The whole reply is
      parsed first; if that fails the brace block is parsed instead; anything else is None. */
  function GetAISummary(
    apiKey: bool, title: string, description: string,
    generate: SummaryPrompt -> Option<string>, parse: string -> Option<VideoSummary>): (r: Option<VideoSummary>)
    ensures !apiKey ==> r.None?
    ensures r.Some? ==>
      && apiKey && generate(SummaryPrompt(title, description)).Some?
      && var text := generate(SummaryPrompt(title, description)).value;
         || r == parse(text)
         || (parse(text).None? && BraceBlock(text).Some? && r == parse(BraceBlock(text).value))
    ensures (apiKey && generate(SummaryPrompt(title, description)).Some?
      && parse(generate(SummaryPrompt(title, description)).value).Some?) ==>
      r == parse(generate(SummaryPrompt(title, description)).value)
  {
    if !apiKey then None
    else
      match generate(SummaryPrompt(title, description))
      case None => None
      case Some(text) =>
        match parse(text)
        case Some(data) => Some(data)
        case None =>
          match BraceBlock(text)
          case Some(jsonMatch) => parse(jsonMatch)
          case None => None
  }

  /** A document wrapped in prose or a code fence is recovered: when the text before it has no '{'
      and the text after it has no '}', the block found is exactly the document's text. */
  lemma BraceBlockOfWrapped(before: string, doc: string, after: string)
    requires |doc| >= 2 && doc[0] == '{' && doc[|doc| - 1] == '}'
    requires '{' !in before && '}' !in after
    ensures BraceBlock(before + doc + after) == Some(doc)
  {
    var text := before + doc + after;
    var i, j := |before|, |before| + |doc|;
    assert text[i..j] == doc;
    assert MatchesAt(text, i, j);
    var (i0, j0) := BraceSpan(text).value;
    assert i0 <= i && j <= j0;
    assert text[..i0] + text[i0..] == text;
  }

  /** When the whole reply does not parse but the document inside it does, that document is the summary. */
  lemma WrappedReplyIsSummarised(
    title: string, description: string, before: string, doc: string, after: string,
    generate: SummaryPrompt -> Option<string>, parse: string -> Option<VideoSummary>)
    requires generate(SummaryPrompt(title, description)) == Some(before + doc + after)
    requires parse(before + doc + after).None? && parse(doc).Some?
    requires |doc| >= 2 && doc[0] == '{' && doc[|doc| - 1] == '}'
    requires '{' !in before && '}' !in after
    ensures GetAISummary(true, title, description, generate, parse) == parse(doc)
  {
    BraceBlockOfWrapped(before, doc, after);
  }

  /** Without a key the generation service is never consulted: its answers cannot change the result. */
  lemma NoKeyNoSummary(
    title: string, description: string,
    generate1: SummaryPrompt -> Option<string>, generate2: SummaryPrompt -> Option<string>,
    parse: string -> Option<VideoSummary>)
    ensures GetAISummary(false, title, description, generate1, parse) == None
    ensures GetAISummary(false, title, description, generate1, parse)
         == GetAISummary(false, title, description, generate2, parse)
  {
  }

  /** A reply that parses is returned as it is, even with a number of popularity factors other than three. */
  lemma SummaryIsNotValidated(title: string, description: string)
    ensures
      var odd := VideoSummary("", []);
      GetAISummary(true, title, description, _ => Some("{}"), _ => Some(odd)) == Some(odd)
  {
  }
}
