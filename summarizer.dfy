/**
 * `SimpleTextSummarizer`: holds the summarization pipeline, or `None` when
 * loading it failed, and runs the guard chain of `summarize` in front of
 * one call to the model.
 */
module Summarizer {
  import opened Wrappers
  import opened Whitespace

  /** The model the summarizer asks for when none is named. */
  const SummarizerModel := "sshleifer/distilbart-cnn-12-6"

  /** Returned (as an ordinary string) when no pipeline is loaded. */
  const NotLoadedMessage := "Summarization model not loaded. Cannot summarize."

  /** Returned (as an ordinary string) when there is nothing to summarize. */
  const EmptyInputMessage := "Input text is empty. Nothing to summarize."

  const DefaultMaxLength := 150
  const DefaultMinLength := 50

  /** The arguments of one call to the pipeline. */
  datatype Request = Request(text: string, maxLength: int, minLength: int, doSample: bool)

  /** What one call to the pipeline gives: the `summary_text` of each
      candidate it returns, in order, or an exception. */
  datatype Generation = Generated(summaryTexts: seq<string>) | Raised

  /** `summary_list[0]['summary_text']` with the exception handler around
      it: the first candidate's text, or `None` when the call raised or
      returned no candidate. */
  function FirstSummary(g: Generation): Option<string> {
    if g.Generated? && |g.summaryTexts| > 0 then Some(g.summaryTexts[0]) else None
  }

  /** `not text or len(text.strip()) == 0`, with `None` for a missing text. */
  predicate IsEmptyText(text: Option<string>) {
    text.None? || text.value == "" || |Strip(text.value)| == 0
  }

  /** Blank is exactly "missing, or whitespace only": the emptiness guard
      lets through every text with one non-whitespace character, and no
      other. */
  lemma IsEmptyTextIffBlank(text: Option<string>)
    ensures IsEmptyText(text) <==> text.None? || AllWhitespace(text.value)
  {
    if text.Some? {
      StripEmptyIffBlank(text.value);
    }
  }

  /**
   * A loaded summarization pipeline, seen from outside: `answer(n, r)` is
   * what it gives on its `n`-th call (counting from 0) with arguments `r`,
   * so the model may answer the same request differently on different
   * calls; `requests` lists the calls it has received.
   */
  class Pipeline {
    const answer: (nat, Request) -> Generation
    var requests: seq<Request>

    constructor (answer: (nat, Request) -> Generation)
      ensures this.answer == answer && requests == []
    {
      this.answer := answer;
      requests := [];
    }

    /** One call `summarizer_pipeline(text, max_length=…, min_length=…,
        do_sample=…)`. */
    method Call(request: Request) returns (g: Generation)
      modifies this
      ensures requests == old(requests) + [request]
      ensures g == answer(|old(requests)|, request)
    {
      g := answer(|requests|, request);
      requests := requests + [request];
    }
  }

  class SimpleTextSummarizer {
    var summarizerPipeline: Pipeline?

    /** `__init__`: `loaded` is the outcome of loading the named model,
        `null` when loading raised. The constructor itself never fails. */
    constructor (loaded: Pipeline?)
      ensures summarizerPipeline == loaded
    {
      summarizerPipeline := loaded;
    }

    /** `summarize`: the not-loaded check, then the emptiness check, then
        one deterministic-mode call to the model with the caller's bounds. */
    method Summarize(text: Option<string>, maxLength: int := DefaultMaxLength, minLength: int := DefaultMinLength)
      returns (r: Option<string>)
      modifies summarizerPipeline
      ensures summarizerPipeline == old(summarizerPipeline)
      ensures summarizerPipeline == null ==> r == Some(NotLoadedMessage)
      ensures summarizerPipeline != null && (text.None? || AllWhitespace(text.value)) ==>
        r == Some(EmptyInputMessage) && summarizerPipeline.requests == old(summarizerPipeline.requests)
      ensures summarizerPipeline != null && text.Some? && !AllWhitespace(text.value) ==>
        var request := Request(text.value, maxLength, minLength, false);
        && summarizerPipeline.requests == old(summarizerPipeline.requests) + [request]
        && r == FirstSummary(summarizerPipeline.answer(|old(summarizerPipeline.requests)|, request))
    {
      if summarizerPipeline == null {
        return Some(NotLoadedMessage);
      }
      IsEmptyTextIffBlank(text);
      if IsEmptyText(text) {
        return Some(EmptyInputMessage);
      }
      var summaryList := summarizerPipeline.Call(Request(text.value, maxLength, minLength, false));
      return FirstSummary(summaryList);
    }
  }
}
