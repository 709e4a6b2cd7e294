/** The hot-keyword request of the generative service: a guard on the key and on
    the video list, one generation call over the newline-joined titles, and a
    parse whose failure yields the empty list. */
module Trends {
  import opened Wrappers
  import Strings
  import YouTube

  datatype HotKeyword = HotKeyword(term: string, growth: string, description: string, trend: seq<int>)

  /** The values a keyword request carries: the titles joined by newlines. The fixed instruction
      text is not modelled. */
  datatype KeywordPrompt = KeywordPrompt(titles: string)

  function Titles(videos: seq<YouTube.Video>): (ts: seq<string>)
    ensures |ts| == |videos|
    ensures forall k :: 0 <= k < |ts| ==> ts[k] == videos[k].title
  {
    seq(|videos|, k requires 0 <= k < |videos| => videos[k].title)
  }

  /** The request lists every title in input order: when no title contains a newline, splitting the
      joined text at newlines gives the titles back. */
  function KeywordPromptFor(videos: seq<YouTube.Video>): (p: KeywordPrompt)
    ensures |videos| > 0 && (forall k :: 0 <= k < |videos| ==> '\n' !in videos[k].title) ==>
      Strings.Split(p.titles, '\n') == Titles(videos)
  {
    var titles := Titles(videos);
    assert |videos| > 0 && (forall k :: 0 <= k < |videos| ==> '\n' !in videos[k].title) ==>
      Strings.Split(Strings.Join(titles, '\n'), '\n') == titles
    by {
      if |videos| > 0 && (forall k :: 0 <= k < |videos| ==> '\n' !in videos[k].title) {
        Strings.SplitJoin(titles, '\n');
      }
    }
    KeywordPrompt(Strings.Join(titles, '\n'))
  }

  /** The hot keywords. `generate` answers a request with the reply text, or None when the call
      fails; `parse` reads a reply as a keyword list, or None when parsing throws. Without a key or
      without videos the result is []; a failure anywhere is []; otherwise it is the parsed list. */
  function GetHotKeywords(
    apiKey: bool, videos: seq<YouTube.Video>,
    generate: KeywordPrompt -> Option<string>, parse: string -> Option<seq<HotKeyword>>): (r: seq<HotKeyword>)
    ensures !apiKey || |videos| == 0 ==> r == []
    ensures r != [] ==>
      && generate(KeywordPromptFor(videos)).Some?
      && parse(generate(KeywordPromptFor(videos)).value) == Some(r)
    ensures (apiKey && |videos| > 0 && generate(KeywordPromptFor(videos)).Some?
      && parse(generate(KeywordPromptFor(videos)).value).Some?) ==>
      r == parse(generate(KeywordPromptFor(videos)).value).value
  {
    if !apiKey || |videos| == 0 then []
    else
      match generate(KeywordPromptFor(videos))
      case None => []
      case Some(text) =>
        match parse(text)
        case None => []
        case Some(data) => data
  }

  /** A parsed list is returned as it is: no deduplication, no re-ranking, no check of its length or
      of the trend series, here a list with one keyword twice and an empty trend. */
  lemma KeywordsAreNotValidated(videos: seq<YouTube.Video>)
    requires |videos| > 0
    ensures
      var k := HotKeyword("x", "+0%", "", []);
      GetHotKeywords(true, videos, _ => Some("[]"), _ => Some([k, k])) == [k, k]
  {
  }

  /** A reply that does not parse yields [], never part of a list. */
  lemma ParseFailureGivesNothing(
    videos: seq<YouTube.Video>, generate: KeywordPrompt -> Option<string>, parse: string -> Option<seq<HotKeyword>>)
    requires generate(KeywordPromptFor(videos)).Some?
    requires parse(generate(KeywordPromptFor(videos)).value).None?
    ensures GetHotKeywords(true, videos, generate, parse) == []
  {
  }

  /** Without a key, or with no videos, the generation service is never consulted. */
  lemma GuardIgnoresService(
    apiKey: bool, videos: seq<YouTube.Video>,
    generate1: KeywordPrompt -> Option<string>, generate2: KeywordPrompt -> Option<string>,
    parse: string -> Option<seq<HotKeyword>>)
    requires !apiKey || |videos| == 0
    ensures GetHotKeywords(apiKey, videos, generate1, parse) == GetHotKeywords(apiKey, videos, generate2, parse) == []
  {
  }
}
