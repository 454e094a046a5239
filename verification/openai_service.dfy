/**
 The OpenAI provider adapter: title-and-questions generation and research
 page generation. The chat-completion request itself is an input (its text,
 or the error it threw), as is the JSON the title request parsed to; the
 adapter's own logic is the context it builds, the trimming, and the
 conversion of every error into a failure value.
 */
module OpenAIService {
  import opened Js
  import opened Text

  /** What a completion request produced: its message text, or an error it threw. */
  datatype Completion = Completed(text: string) | CallFailed

  /** The title request's reply after `JSON.parse`, or an error from the call or the parse. */
  datatype TitleCompletion = Parsed(title: string, questions: seq<string>) | NotParsed

  datatype TitleResult = TitleResult(success: bool, title: string, questions: seq<string>, error: Option<string>)

  const FallbackTitle := "Research Topic..."
  const NoAnswer := "No answer provided"

  /**
   `generateTitleAndQuestions`: never throws. A parsed reply is passed
   through; any failure gives the placeholder title and no questions.
   */
  function GenerateTitleAndQuestions(completion: TitleCompletion): (r: TitleResult)
    ensures r.success <==> completion.Parsed?
    ensures r.success ==> r.title == completion.title && r.questions == completion.questions && r.error == None
    ensures !r.success ==>
      r.title == "Research Topic..." && r.questions == [] && r.error == Some("Failed to generate title and questions")
  {
    match completion
    case Parsed(title, questions) => TitleResult(true, title, questions, None)
    case NotParsed => TitleResult(false, FallbackTitle, [], Some("Failed to generate title and questions"))
  }

  /** `answers[index] || 'No answer provided'`: a missing or empty answer gets the placeholder. */
  function AnswerAt(answers: seq<string>, i: nat): string {
    if i < |answers| && answers[i] != "" then answers[i] else NoAnswer
  }

  /** "Q{i+1}: question", the first line of block i. */
  function QuestionLine(i: nat, question: string): string {
    "Q" + NatToString(i + 1) + ": " + question
  }

  /** "A{i+1}: answer", the second line of block i. */
  function AnswerLine(i: nat, answer: string): string {
    "A" + NatToString(i + 1) + ": " + answer
  }

  /** One question with its answer: "Q{i+1}: q\nA{i+1}: a". */
  function QaBlock(i: nat, question: string, answer: string): string {
    QuestionLine(i, question) + "\n" + AnswerLine(i, answer)
  }

  lemma NumeralHasNoNewline(n: nat)
    ensures '\n' !in NatToString(n)
  {
  }

  /** A block whose question and answer have no line break reads back as exactly its two lines. */
  lemma QaBlockLines(i: nat, question: string, answer: string)
    requires '\n' !in question && '\n' !in answer
    ensures Split(QaBlock(i, question, answer), '\n') == [QuestionLine(i, question), AnswerLine(i, answer)]
  {
    NumeralHasNoNewline(i + 1);
    var q, a := QuestionLine(i, question), AnswerLine(i, answer);
    assert '\n' !in q && '\n' !in a;
    assert QaBlock(i, question, answer) == q + ['\n'] + a;
    SplitAround(q, a, '\n');
    SplitWithoutSeparator(q, '\n');
    SplitWithoutSeparator(a, '\n');
  }

  function QaBlocks(questions: seq<string>, answers: seq<string>): (r: seq<string>)
    ensures |r| == |questions|
  {
    seq(|questions|, i requires 0 <= i < |questions| => QaBlock(i, questions[i], AnswerAt(answers, i)))
  }

  /**
   The Q/A context of `generateResearchPage`, or None where building it
   throws a TypeError: `clarifyingQuestions.map` on a null list, or
   `answers[index]` on a null answer list when there is a question.
   */
  function QaContext(questions: Option<seq<string>>, answers: Option<seq<string>>): (r: Option<string>)
    ensures r.None? <==> questions.None? || (answers.None? && |questions.value| > 0)
  {
    if questions.None? || (answers.None? && |questions.value| > 0) then None
    else Some(Join(QaBlocks(questions.value, answers.GetOr([])), "\n\n"))
  }

  /** The context has one block per question, in order, separated by a blank line. */
  lemma QaContextBlocks(questions: seq<string>, answers: seq<string>)
    ensures QaContext(Some(questions), Some(answers)) == Some(Join(QaBlocks(questions, answers), "\n\n"))
    ensures forall i :: 0 <= i < |questions| ==>
      QaBlocks(questions, answers)[i] == QaBlock(i, questions[i], AnswerAt(answers, i))
  {
  }

  /**
   The lines of the context, defined line by line: block i contributes its
   question line and its answer line, and an empty line separates
   neighbouring blocks.
   */
  function QaLines(questions: seq<string>, answers: seq<string>): (r: seq<string>)
    ensures |questions| == 0 ==> r == []
    ensures |questions| > 0 ==> |r| == 3 * |questions| - 1
    ensures forall i :: 0 <= i < |questions| ==>
      && r[3 * i] == QuestionLine(i, questions[i])
      && r[3 * i + 1] == AnswerLine(i, AnswerAt(answers, i))
      && (i + 1 < |questions| ==> r[3 * i + 2] == "")
    decreases |questions|
  {
    if |questions| == 0 then []
    else
      var k := |questions| - 1;
      var pair := [QuestionLine(k, questions[k]), AnswerLine(k, AnswerAt(answers, k))];
      if k == 0 then pair
      else
        var prev := QaLines(questions[..k], answers);
        assert forall i :: 0 <= i < k ==> questions[..k][i] == questions[i];
        prev + ["", pair[0], pair[1]]
  }

  lemma QaBlocksSnoc(questions: seq<string>, answers: seq<string>)
    requires |questions| > 0
    ensures var k := |questions| - 1;
      QaBlocks(questions, answers) == QaBlocks(questions[..k], answers) + [QaBlock(k, questions[k], AnswerAt(answers, k))]
  {
    var k := |questions| - 1;
    var r := QaBlocks(questions[..k], answers) + [QaBlock(k, questions[k], AnswerAt(answers, k))];
    forall i | 0 <= i < |questions| ensures QaBlocks(questions, answers)[i] == r[i] {
      if i < k {
        assert questions[..k][i] == questions[i];
      }
    }
  }

  lemma JoinBlankThenPair(q: string, a: string)
    ensures Join(["", q, a], "\n") == "\n" + (q + "\n" + a)
  {
    var tail := ["", q, a];
    assert tail[1..] == [q, a];
    assert [q, a][1..] == [a];
    assert Join([a], "\n") == a;
    assert Join([q, a], "\n") == q + "\n" + a;
    assert Join(tail, "\n") == "" + "\n" + Join([q, a], "\n");
  }

  lemma BlankLineIsTwoBreaks(front: string, x: string)
    ensures front + "\n\n" + x == front + "\n" + ("\n" + x)
  {
  }

  lemma JoinLastBlock(blocks: seq<string>, lines: seq<string>, q: string, a: string)
    requires |blocks| >= 1 && |lines| >= 1
    requires Join(blocks, "\n\n") == Join(lines, "\n")
    ensures Join(blocks + [q + "\n" + a], "\n\n") == Join(lines + ["", q, a], "\n")
  {
    var x := q + "\n" + a;
    var front := Join(lines, "\n");
    assert Join(blocks + [x], "\n\n") == front + "\n\n" + x by {
      JoinAppend(blocks, [x], "\n\n");
    }
    assert Join(lines + ["", q, a], "\n") == front + "\n" + ("\n" + x) by {
      JoinAppend(lines, ["", q, a], "\n");
      JoinBlankThenPair(q, a);
    }
    BlankLineIsTwoBreaks(front, x);
  }

  /** Joining the blocks with blank lines is joining the lines with line breaks. */
  lemma {:induction false} QaBlocksAreLines(questions: seq<string>, answers: seq<string>)
    requires |questions| > 0
    ensures Join(QaBlocks(questions, answers), "\n\n") == Join(QaLines(questions, answers), "\n")
    decreases |questions|
  {
    var k := |questions| - 1;
    var q, a := QuestionLine(k, questions[k]), AnswerLine(k, AnswerAt(answers, k));
    if k > 0 {
      QaBlocksSnoc(questions, answers);
      QaBlocksAreLines(questions[..k], answers);
      JoinLastBlock(QaBlocks(questions[..k], answers), QaLines(questions[..k], answers), q, a);
    }
  }

  /** No line of the context contains a line break when no question or answer does. */
  lemma {:induction false} QaLinesSingleLine(questions: seq<string>, answers: seq<string>)
    requires forall i :: 0 <= i < |questions| ==> '\n' !in questions[i]
    requires forall i :: 0 <= i < |answers| ==> '\n' !in answers[i]
    ensures forall j :: 0 <= j < |QaLines(questions, answers)| ==> '\n' !in QaLines(questions, answers)[j]
    decreases |questions|
  {
    if |questions| > 0 {
      var k := |questions| - 1;
      NumeralHasNoNewline(k + 1);
      assert '\n' !in NoAnswer;
      assert '\n' !in QuestionLine(k, questions[k]);
      assert '\n' !in AnswerLine(k, AnswerAt(answers, k));
      if k > 0 {
        QaLinesSingleLine(questions[..k], answers);
      }
    }
  }

  /**
   Reading the context back line by line: when no question or answer
   holds a line break, its lines are exactly `QaLines` — line 3i is
   "Q{i+1}: " and question i, line 3i+1 is "A{i+1}: " and answer i or
   "No answer provided", and an empty line separates the blocks.
   */
  lemma QaContextLines(questions: seq<string>, answers: seq<string>)
    requires forall i :: 0 <= i < |questions| ==> '\n' !in questions[i]
    requires forall i :: 0 <= i < |answers| ==> '\n' !in answers[i]
    ensures QaContext(Some(questions), Some(answers)).Some?
    ensures Split(QaContext(Some(questions), Some(answers)).value, '\n') ==
      if |questions| == 0 then [""] else QaLines(questions, answers)
  {
    if |questions| > 0 {
      QaBlocksAreLines(questions, answers);
      QaLinesSingleLine(questions, answers);
      SplitJoin(QaLines(questions, answers), '\n');
    }
  }

  /** No questions give the empty context, whatever the answers. */
  lemma QaContextNoQuestions(answers: Option<seq<string>>)
    ensures QaContext(Some([]), answers) == Some("")
  {
  }

  /** Answers beyond the question count do not affect the context. */
  lemma QaContextIgnoresExtraAnswers(questions: seq<string>, answers: seq<string>)
    requires |answers| >= |questions|
    ensures QaContext(Some(questions), Some(answers)) == QaContext(Some(questions), Some(answers[..|questions|]))
  {
    assert QaBlocks(questions, answers) == QaBlocks(questions, answers[..|questions|]);
  }

  /** A missing answer renders exactly like an empty one. */
  lemma QaContextMissingAnswer(questions: seq<string>, answers: seq<string>)
    requires |answers| < |questions|
    ensures QaContext(Some(questions), Some(answers)) == QaContext(Some(questions), Some(answers + [""]))
  {
    assert QaBlocks(questions, answers) == QaBlocks(questions, answers + [""]);
  }

  datatype PageResult =
    | PageReady(researchPage: string, originalTopic: string, clarifyingQuestions: seq<string>, answers: Option<seq<string>>)
    | PageFailed(error: string)

  /**
   `generateResearchPage`: never throws. It succeeds exactly when the
   context can be built and the request completed; the page is the trimmed
   reply and the inputs are echoed back unchanged.
   */
  function GenerateResearchPage(
    originalTopic: string, questions: Option<seq<string>>, answers: Option<seq<string>>, completion: Completion): (r: PageResult)
    ensures r.PageReady? <==> QaContext(questions, answers).Some? && completion.Completed?
    ensures r.PageReady? ==> r.researchPage == Trim(completion.text)
    ensures r.PageReady? ==>
      r.originalTopic == originalTopic && questions == Some(r.clarifyingQuestions) && r.answers == answers
    ensures r.PageFailed? ==> r.error == "Failed to generate research page"
    ensures r.PageReady? ==> r.researchPage == [] || (!IsJsSpace(r.researchPage[0]) && !IsJsSpace(r.researchPage[|r.researchPage| - 1]))
  {
    if QaContext(questions, answers).None? || completion.CallFailed? then
      PageFailed("Failed to generate research page")
    else
      TrimEnds(completion.text);
      PageReady(Trim(completion.text), originalTopic, questions.value, answers)
  }
}
