/** The single-call extractors of the fund pipeline: `gemini_text` (rate limit,
    model call, code-fence removal), the page blobs handed to it, and the
    founders-or-everyone scope rule of `extract_company_people`. The model is a
    parameter mapping a prompt's variable parts to the raw reply text. */
module LlmReply {
  import opened Wrappers
  import opened Seqs
  import opened Text
  import RateLimiter

  const Fence := "```"

  /** The reply text with surrounding whitespace removed and, if it starts with a
      code fence, the opening fence line and a closing fence line dropped. */
  function StripFences(reply: string): (r: string)
    ensures !StartsWith(Strip(reply), Fence) ==> r == Strip(reply)
  {
    var t := Strip(reply);
    if !StartsWith(t, Fence) then t
    else
      var lines := Split(t, '\n');
      var body := if StartsWith(lines[0], Fence) then lines[1..] else lines;
      var inner := if |body| > 0 && StartsWith(body[|body| - 1], Fence) then body[..|body| - 1] else body;
      Strip(JoinWith(inner, "\n"))
  }

  /** The result never has whitespace at either end. */
  lemma StripFencesIsStripped(reply: string)
    ensures IsStripped(StripFences(reply))
  {
    var t := Strip(reply);
    StripShape(reply);
    if StartsWith(t, Fence) {
      var lines := Split(t, '\n');
      var body := if StartsWith(lines[0], Fence) then lines[1..] else lines;
      var inner := if |body| > 0 && StartsWith(body[|body| - 1], Fence) then body[..|body| - 1] else body;
      StripShape(JoinWith(inner, "\n"));
    }
  }

  /** A fenced block `` ```lang `` / body / `` ``` `` comes back as the stripped body. */
  lemma {:induction false} FencedBlockRoundTrip(lang: string, body: string)
    requires '\n' !in lang
    ensures StripFences(Fence + lang + "\n" + body + "\n" + Fence) == Strip(body)
  {
    var s := Fence + lang + "\n" + body + "\n" + Fence;
    assert IsStripped(s) by {
      assert s[0] == '`' && s[|s| - 1] == '`';
    }
    StripOfStripped(s);
    assert StartsWith(s, Fence) by {
      assert s[..3] == Fence;
    }
    FencedLines(lang, body);
    var lines := Split(s, '\n');
    assert StartsWith(lines[0], Fence) by {
      assert (Fence + lang)[..3] == Fence;
    }
    var rest := lines[1..];
    assert rest == Split(body, '\n') + [Fence];
    assert StartsWith(rest[|rest| - 1], Fence);
    assert rest[..|rest| - 1] == Split(body, '\n');
    JoinSplit(body, '\n');
  }

  /** A reply cut off before its closing fence (`` ```json `` then `[1]`, say) loses
      only the opening fence line: the rest comes back whole. */
  lemma {:induction false} UnclosedFenceKeepsBody(lang: string, body: string)
    requires '\n' !in lang
    requires |body| > 0 && !IsSpace(body[|body| - 1])
    requires !StartsWith(Split(body, '\n')[|Split(body, '\n')| - 1], Fence)
    ensures StripFences(Fence + lang + "\n" + body) == Strip(body)
  {
    var a := Fence + lang;
    var s := a + ['\n'] + body;
    assert Fence + lang + "\n" + body == s;
    assert IsStripped(s) by {
      assert s[0] == '`' && s[|s| - 1] == body[|body| - 1];
    }
    StripOfStripped(s);
    assert StartsWith(s, Fence) by {
      assert s[..3] == Fence;
    }
    SplitConcat(a, body, '\n');
    SplitNoSeparator(a, '\n');
    var lines := Split(s, '\n');
    assert lines == [a] + Split(body, '\n');
    assert StartsWith(lines[0], Fence) by {
      assert a[..3] == Fence;
    }
    assert lines[1..] == Split(body, '\n');
    JoinSplit(body, '\n');
  }

  /** The lines of a fenced block: the opening fence line, the body's lines,
      the closing fence. */
  lemma FencedLines(lang: string, body: string)
    requires '\n' !in lang
    ensures Split(Fence + lang + "\n" + body + "\n" + Fence, '\n') == [Fence + lang] + Split(body, '\n') + [Fence]
  {
    var a := Fence + lang;
    var b := body + "\n" + Fence;
    assert Fence + lang + "\n" + body + "\n" + Fence == a + ['\n'] + b;
    SplitConcat(a, b, '\n');
    assert b == body + ['\n'] + Fence;
    SplitConcat(body, Fence, '\n');
    SplitNoSeparator(a, '\n');
    SplitNoSeparator(Fence, '\n');
  }

  /** `gemini_text(agent, prompt)` with the limiter state made explicit: the call
      waits for the limiter (at the default rate), then returns the cleaned
      reply together with the limiter's new queue and the unused clock
      readings; `None` when the readings run out first. */
  function GeminiText(q: seq<real>, readings: seq<real>, reply: string): (r: Option<(seq<real>, seq<real>, string)>)
    ensures r.Some? <==> RateLimiter.Allow(q, readings, RateLimiter.DefaultRpm).Some?
    ensures r.Some? ==> |r.value.0| <= RateLimiter.DefaultRpm && |r.value.1| < |readings|
    ensures r.Some? ==> r.value.2 == StripFences(reply)
  {
    match RateLimiter.Allow(q, readings, RateLimiter.DefaultRpm)
    case None => None
    case Some((q', rest)) => Some((q', rest, StripFences(reply)))
  }

  // ---------------------------------------------------------------------------
  // Prompts

  const PageBreak := "\n\n=== PAGE BREAK ===\n\n"

  /** Characters of joined page text a prompt may carry. */
  const MaxBlobChars: nat := 900000

  /** The page texts joined with page-break markers and cut to the budget. */
  function Blob(pages: seq<string>): (r: string)
    ensures |r| == Min(|JoinWith(pages, PageBreak)|, MaxBlobChars)
    ensures IsPrefix(r, JoinWith(pages, PageBreak))
  {
    Take(JoinWith(pages, PageBreak), MaxBlobChars)
  }

  /** The first page always leads the blob, cut only if it alone exceeds the budget. */
  lemma BlobStartsWithFirstPage(pages: seq<string>)
    requires |pages| > 0
    ensures StartsWith(Blob(pages), Take(pages[0], MaxBlobChars))
  {
    var j := JoinWith(pages, PageBreak);
    assert IsPrefix(pages[0], j);
    var b := Blob(pages);
    var t := Take(pages[0], MaxBlobChars);
    assert |t| <= |b|;
    assert b[..|t|] == j[..|t|] == t;
  }

  const FoundersScope := "founders/co-founders"
  const EveryoneScope := "all employees (leadership prioritized)"
  const EarlyStages: seq<string> := ["seed", "pre-seed", "early"]

  /** Who to extract at a company: founders for early-stage companies (in any
      letter case), everyone otherwise. */
  function Scope(stage: string): (r: string)
    ensures r == FoundersScope || r == EveryoneScope
  {
    if Lower(stage) in EarlyStages then FoundersScope else EveryoneScope
  }

  /** The rule looks only at the lower-cased stage: "Seed", "PRE-SEED" and
      "Early" all mean founders, and any other stage means everyone. */
  lemma ScopeIgnoresCase(stage: string)
    ensures Scope(stage) == Scope(Lower(stage))
    ensures Scope(stage) == FoundersScope <==> Lower(stage) == "seed" || Lower(stage) == "pre-seed" || Lower(stage) == "early"
  {
    assert Lower(Lower(stage)) == Lower(stage);
  }

  /** The variable parts of the company-people prompt. */
  datatype PeopleRequest = PeopleRequest(scope: string, focus: string, content: string)

  /** `extract_company_people(agent, pages, stage, signals)`. */
  function ExtractCompanyPeople(q: seq<real>, readings: seq<real>, ask: PeopleRequest -> string,
                                pages: seq<string>, stage: string, signals: string): (r: Option<(seq<real>, seq<real>, string)>)
    ensures r.Some? ==> |r.value.0| <= RateLimiter.DefaultRpm
    ensures r.Some? ==> r.value.2 == StripFences(ask(PeopleRequest(Scope(stage), signals, Blob(pages))))
  {
    GeminiText(q, readings, ask(PeopleRequest(Scope(stage), signals, Blob(pages))))
  }

  /** `extract_vcs_and_companies(agent, team_pages, portfolio_pages)`: two
      rate-limited calls in turn, people first, sharing the limiter. */
  function ExtractVcsAndCompanies(q: seq<real>, readings: seq<real>,
                                  askPeople: string -> string, askCompanies: string -> string,
                                  teamPages: seq<string>, portfolioPages: seq<string>)
    : (r: Option<(seq<real>, seq<real>, string, string)>)
    ensures r.Some? ==> |r.value.0| <= RateLimiter.DefaultRpm && |r.value.1| <= |readings| - 2
    ensures r.Some? ==> r.value.2 == StripFences(askPeople(Blob(teamPages)))
    ensures r.Some? ==> r.value.3 == StripFences(askCompanies(Blob(portfolioPages)))
  {
    match GeminiText(q, readings, askPeople(Blob(teamPages)))
    case None => None
    case Some((q1, rest1, people)) =>
      match GeminiText(q1, rest1, askCompanies(Blob(portfolioPages)))
      case None => None
      case Some((q2, rest2, companies)) => Some((q2, rest2, people, companies))
  }
}
