/**
 The Gemini provider adapter: research page generation and report
 summarisation. The client exists only when an API key is configured; the
 generation request itself is an input, as for the OpenAI adapter.
 */
module GeminiService {
  import opened Js
  import opened Text
  import OpenAIService

  type Completion = OpenAIService.Completion

  const NoAnswer := "No answer provided"
  const GenerationError := "Failed to generate research page"
  const SummaryError := "Failed to summarize combined report"

  /** `(answers && answers[i]) ? answers[i] : 'No answer provided'`. */
  function Answer(answers: Option<seq<string>>, i: nat): string {
    if answers.Some? && i < |answers.value| && answers.value[i] != "" then answers.value[i] else NoAnswer
  }

  /** The Q/A context, tolerant of null question and answer lists. */
  function QaContext(questions: Option<seq<string>>, answers: Option<seq<string>>): string {
    var qs := questions.GetOr([]);
    Join(seq(|qs|, i requires 0 <= i < |qs| =>
      "Q" + NatToString(i + 1) + ": " + qs[i] + "\nA" + NatToString(i + 1) + ": " + Answer(answers, i)), "\n\n")
  }

  /** A null question list gives the empty context. */
  lemma QaContextNullQuestions(answers: Option<seq<string>>)
    ensures QaContext(None, answers) == ""
  {
  }

  /**
   Wherever the OpenAI builder does not throw, the two builders produce the
   same context; a null answer list reads like an empty one.
   */
  lemma QaContextAgrees(questions: Option<seq<string>>, answers: Option<seq<string>>)
    ensures OpenAIService.QaContext(questions, answers).Some? ==>
      OpenAIService.QaContext(questions, answers) == Some(QaContext(questions, answers))
    ensures QaContext(questions, answers) == QaContext(questions, Some(answers.GetOr([])))
  {
    if questions.Some? {
      var qs := questions.value;
      var ours := seq(|qs|, i requires 0 <= i < |qs| =>
        "Q" + NatToString(i + 1) + ": " + qs[i] + "\nA" + NatToString(i + 1) + ": " + Answer(answers, i));
      assert forall i :: 0 <= i < |qs| ==>
        OpenAIService.QaBlocks(qs, answers.GetOr([]))[i] == ours[i];
      assert OpenAIService.QaBlocks(qs, answers.GetOr([])) == ours;
      var ours' := seq(|qs|, i requires 0 <= i < |qs| =>
        "Q" + NatToString(i + 1) + ": " + qs[i] + "\nA" + NatToString(i + 1) + ": " + Answer(Some(answers.GetOr([])), i));
      assert ours == ours';
    }
  }

  datatype GeminiResult = GeminiPage(researchPage: string) | GeminiFailed(error: string)

  /**
   `generateResearchPage`: never throws; fails when no API key is
   configured or the request fails. A successful page may be empty.
   */
  function GenerateResearchPage(configured: bool, completion: Completion): (r: GeminiResult)
    ensures r.GeminiPage? <==> configured && completion.Completed?
    ensures r.GeminiPage? ==> r.researchPage == completion.text
    ensures r.GeminiFailed? ==> r.error == "Failed to generate research page"
  {
    if !configured || completion.CallFailed? then GeminiFailed(GenerationError)
    else GeminiPage(completion.text)
  }

  datatype SummaryResult = SummaryReady(summary: string) | SummaryFailed(error: string)

  /** `summarizeCombinedReport`: the trimmed reply, or a failure value. */
  function SummarizeCombinedReport(configured: bool, completion: Completion): (r: SummaryResult)
    ensures r.SummaryReady? <==> configured && completion.Completed?
    ensures r.SummaryReady? ==> r.summary == Trim(completion.text)
    ensures r.SummaryReady? ==> r.summary == [] || (!IsJsSpace(r.summary[0]) && !IsJsSpace(r.summary[|r.summary| - 1]))
    ensures r.SummaryFailed? ==> r.error == "Failed to summarize combined report"
  {
    if !configured || completion.CallFailed? then SummaryFailed(SummaryError)
    else
      TrimEnds(completion.text);
      SummaryReady(Trim(completion.text))
  }
}
