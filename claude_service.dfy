/**
 * The service that turns Claude's replies into concepts, quiz questions and
 * generated content. The call to the client's `SendMessageWithSystem` is a
 * parameter `ask` from the prompt to the reply text or the client's error;
 * the prompt is described by what it is built from, not by its wording.
 * `parse` is the JSON library, as in the client.
 */
module ClaudeService {

  import opened Wrappers
  import opened Strings
  import opened JsonValue
  import opened Decimal
  import opened Models
  import opened ClaudeClient

  /** The configured range of concepts asked for. */
  datatype Service = Service(conceptsMin: int, conceptsMax: int)

  /** The four prompt families of `getContentPrompts`. */
  datatype PromptKind = LinkedInPost | TwitterThread | BlogPost | EmailNewsletter

  /** What a prompt is built from. */
  datatype Prompt =
    | ConceptPrompt(conceptsMin: int, conceptsMax: int, transcript: string)
    | QuizPrompt(title: string, description: string)
    | ContentPrompt(kind: PromptKind, conceptsText: string)

  /** The errors of the service; the first, third and fifth wrap the client's error. */
  datatype ServiceError =
    | ExtractFailed(cause: ClaudeError)
    | ConceptJsonInvalid
    | QuizFailed(cause: ClaudeError)
    | QuizJsonInvalid
    | ContentFailed(cause: ClaudeError)

  // ---------------------------------------------------------------------------
  // The shapes decoded from a reply
  // ---------------------------------------------------------------------------

  datatype ConceptItem = ConceptItem(title: string, description: string)

  datatype QuizItem = QuizItem(
    question: string,
    optionA: string,
    optionB: string,
    optionC: string,
    optionD: string,
    correctAnswer: string,
    explanation: string)

  datatype ContentItem = ContentItem(title: string, body: string)

  function ConceptItemOf(j: Json): Option<ConceptItem> {
    var title := AsString(Field(j, "title"));
    var description := AsString(Field(j, "description"));
    if IsStruct(j) && title.Some? && description.Some? then Some(ConceptItem(title.value, description.value)) else None
  }

  function QuizItemOf(j: Json): Option<QuizItem> {
    var question := AsString(Field(j, "question"));
    var a := AsString(Field(j, "option_a"));
    var b := AsString(Field(j, "option_b"));
    var c := AsString(Field(j, "option_c"));
    var d := AsString(Field(j, "option_d"));
    var correct := AsString(Field(j, "correct_answer"));
    var explanation := AsString(Field(j, "explanation"));
    if IsStruct(j) && question.Some? && a.Some? && b.Some? && c.Some? && d.Some? && correct.Some? && explanation.Some?
    then Some(QuizItem(question.value, a.value, b.value, c.value, d.value, correct.value, explanation.value))
    else None
  }

  function ContentItemOf(j: Json): Option<ContentItem> {
    var title := AsString(Field(j, "title"));
    var body := AsString(Field(j, "body"));
    if IsStruct(j) && title.Some? && body.Some? then Some(ContentItem(title.value, body.value)) else None
  }

  /** `ParseJSONResponse` into a slice of concept records. */
  function ParsedConcepts(reply: string, parse: string -> Option<Json>): Result<seq<ConceptItem>, ClaudeError> {
    ParseJSONResponse(reply, (s: string) => if parse(s).Some? then AsList(parse(s).value, ConceptItemOf) else None)
  }

  /** `ParseJSONResponse` into a slice of quiz records. */
  function ParsedQuiz(reply: string, parse: string -> Option<Json>): Result<seq<QuizItem>, ClaudeError> {
    ParseJSONResponse(reply, (s: string) => if parse(s).Some? then AsList(parse(s).value, QuizItemOf) else None)
  }

  /** `ParseJSONResponse` into a title and a body. */
  function ParsedContent(reply: string, parse: string -> Option<Json>): Result<ContentItem, ClaudeError> {
    ParseJSONResponse(reply, (s: string) => if parse(s).Some? then ContentItemOf(parse(s).value) else None)
  }

  // ---------------------------------------------------------------------------
  // Concepts
  // ---------------------------------------------------------------------------

  /** The concepts made from decoded records: same titles and descriptions, linked to the source. */
  predicate ConceptsFrom(concepts: seq<Concept>, items: seq<ConceptItem>, sourceContentId: int) {
    |concepts| == |items| && ConceptsMatch(concepts, items, sourceContentId)
  }

  /** Each concept so far matches the record at its position. */
  predicate ConceptsMatch(concepts: seq<Concept>, items: seq<ConceptItem>, sourceContentId: int) {
    && |concepts| <= |items|
    && forall i :: 0 <= i < |concepts| ==>
         && concepts[i].title == items[i].title
         && concepts[i].description == items[i].description
         && concepts[i].sourceContentId == Some(sourceContentId)
  }

  /**
   * `ExtractConcepts`: one concept per decoded record, in order, each linked
   * to `sourceContentId`; a client error or an undecodable reply is an error.
   */
  method ExtractConcepts(svc: Service, transcript: string, sourceContentId: int,
                         ask: Prompt -> Result<string, ClaudeError>, parse: string -> Option<Json>)
    returns (r: Result<seq<Concept>, ServiceError>)
    ensures var reply := ask(ConceptPrompt(svc.conceptsMin, svc.conceptsMax, transcript));
      && (reply.Failure? ==> r == Failure(ExtractFailed(reply.error)))
      && (reply.Success? && ParsedConcepts(reply.value, parse).Failure? ==> r == Failure(ConceptJsonInvalid))
      && (reply.Success? && ParsedConcepts(reply.value, parse).Success? ==>
            r.Success? && ConceptsFrom(r.value, ParsedConcepts(reply.value, parse).value, sourceContentId))
  {
    var reply := ask(ConceptPrompt(svc.conceptsMin, svc.conceptsMax, transcript));
    if reply.Failure? {
      return Failure(ExtractFailed(reply.error));
    }
    var parsed := ParsedConcepts(reply.value, parse);
    if parsed.Failure? {
      return Failure(ConceptJsonInvalid);
    }
    var concepts := ConceptsOf(parsed.value, sourceContentId);
    r := Success(concepts);
  }

  /** The conversion loop of `ExtractConcepts`. */
  method ConceptsOf(items: seq<ConceptItem>, sourceContentId: int) returns (concepts: seq<Concept>)
    ensures ConceptsFrom(concepts, items, sourceContentId)
  {
    concepts := [];
    for i := 0 to |items|
      invariant |concepts| == i && ConceptsMatch(concepts, items, sourceContentId)
    {
      concepts := concepts + [Concept(0, items[i].title, items[i].description, Some(sourceContentId), 0, 0)];
    }
  }

  // ---------------------------------------------------------------------------
  // Quiz questions
  // ---------------------------------------------------------------------------

  /** The questions made from decoded records: linked to the concept, answer letter upper-cased. */
  predicate QuestionsFrom(questions: seq<QuizQuestion>, items: seq<QuizItem>, conceptId: int) {
    |questions| == |items| && QuestionsMatch(questions, items, conceptId)
  }

  /** Each question so far matches the record at its position. */
  predicate QuestionsMatch(questions: seq<QuizQuestion>, items: seq<QuizItem>, conceptId: int) {
    && |questions| <= |items|
    && forall i :: 0 <= i < |questions| ==>
         && questions[i].conceptId == conceptId
         && questions[i].question == items[i].question
         && questions[i].optionA == items[i].optionA
         && questions[i].optionB == items[i].optionB
         && questions[i].optionC == items[i].optionC
         && questions[i].optionD == items[i].optionD
         && questions[i].correctAnswer == ToUpper(items[i].correctAnswer)
         && questions[i].explanation == items[i].explanation
  }

  /** Questions made from records carry no lower-case answer letter. */
  lemma AnswersUpperCase(questions: seq<QuizQuestion>, items: seq<QuizItem>, conceptId: int, i: int)
    requires QuestionsFrom(questions, items, conceptId) && 0 <= i < |questions|
    ensures forall k :: 0 <= k < |questions[i].correctAnswer| ==> !IsLowerAscii(questions[i].correctAnswer[k])
    ensures |questions[i].correctAnswer| == |items[i].correctAnswer|
  {
    assert questions[i].correctAnswer == ToUpper(items[i].correctAnswer);
  }

  /**
   * `GenerateQuiz`: one question per decoded record, in order, each with the
   * concept's id and its correct answer upper-cased.
   */
  method GenerateQuiz(concept: Concept, ask: Prompt -> Result<string, ClaudeError>, parse: string -> Option<Json>)
    returns (r: Result<seq<QuizQuestion>, ServiceError>)
    ensures var reply := ask(QuizPrompt(concept.title, concept.description));
      && (reply.Failure? ==> r == Failure(QuizFailed(reply.error)))
      && (reply.Success? && ParsedQuiz(reply.value, parse).Failure? ==> r == Failure(QuizJsonInvalid))
      && (reply.Success? && ParsedQuiz(reply.value, parse).Success? ==>
            r.Success? && QuestionsFrom(r.value, ParsedQuiz(reply.value, parse).value, concept.id))
  {
    var reply := ask(QuizPrompt(concept.title, concept.description));
    if reply.Failure? {
      return Failure(QuizFailed(reply.error));
    }
    var parsed := ParsedQuiz(reply.value, parse);
    if parsed.Failure? {
      return Failure(QuizJsonInvalid);
    }
    var questions := QuestionsOf(parsed.value, concept.id);
    r := Success(questions);
  }

  /** The conversion loop of `GenerateQuiz`. */
  method QuestionsOf(items: seq<QuizItem>, conceptId: int) returns (questions: seq<QuizQuestion>)
    ensures QuestionsFrom(questions, items, conceptId)
  {
    questions := [];
    for i := 0 to |items|
      invariant |questions| == i && QuestionsMatch(questions, items, conceptId)
    {
      var q := items[i];
      questions := questions + [QuizQuestion(0, conceptId, q.question, q.optionA, q.optionB, q.optionC, q.optionD,
                                             ToUpper(q.correctAnswer), q.explanation, 0)];
    }
  }

  // ---------------------------------------------------------------------------
  // Generated content
  // ---------------------------------------------------------------------------

  /** One line of the concept summary: `"<n>. <title>: <description>\n"`. */
  function NumberedLine(n: int, c: Concept): string {
    IntToString(n) + ". " + c.title + ": " + c.description + "\n"
  }

  /** The summary of the first `n` concepts, numbered from 1. */
  function SummaryUpTo(concepts: seq<Concept>, n: nat): string
    requires n <= |concepts|
  {
    if n == 0 then "" else SummaryUpTo(concepts, n - 1) + NumberedLine(n, concepts[n - 1])
  }

  function Summary(concepts: seq<Concept>): string {
    SummaryUpTo(concepts, |concepts|)
  }

  /** The summary loop of `GenerateContent`. */
  method ConceptsText(concepts: seq<Concept>) returns (text: string)
    ensures text == Summary(concepts)
  {
    text := "";
    for i := 0 to |concepts|
      invariant text == SummaryUpTo(concepts, i)
    {
      text := text + NumberedLine(i + 1, concepts[i]);
    }
  }

  /** Every concept appears in the summary, numbered by its position from 1. */
  lemma {:induction false} SummaryListsEveryConcept(concepts: seq<Concept>, n: nat, i: nat)
    requires i < n <= |concepts|
    ensures Contains(SummaryUpTo(concepts, n), NumberedLine(i + 1, concepts[i]))
    decreases n
  {
    if n == i + 1 {
      assert SummaryUpTo(concepts, n) == SummaryUpTo(concepts, i) + NumberedLine(i + 1, concepts[i]) + "";
      ContainsInfix(SummaryUpTo(concepts, i), NumberedLine(i + 1, concepts[i]), "");
    } else {
      SummaryListsEveryConcept(concepts, n - 1, i);
      ContainsExtend(SummaryUpTo(concepts, n - 1), NumberedLine(n, concepts[n - 1]), NumberedLine(i + 1, concepts[i]));
    }
  }

  /** `getContentPrompts`' dispatch: LinkedIn, Twitter and blog by name, the newsletter for anything else. */
  function PromptKindFor(platform: string): (k: PromptKind)
    ensures k == LinkedInPost <==> platform == "linkedin"
    ensures k == TwitterThread <==> platform == "twitter"
    ensures k == BlogPost <==> platform == "blog"
    ensures k == EmailNewsletter <==> platform != "linkedin" && platform != "twitter" && platform != "blog"
  {
    if platform == "linkedin" then LinkedInPost
    else if platform == "twitter" then TwitterThread
    else if platform == "blog" then BlogPost
    else EmailNewsletter
  }

  /** `generateTitleFromConcepts`. */
  function TitleFromConcepts(concepts: seq<Concept>): (t: string)
    ensures concepts == [] ==> t == "Generated Content"
    ensures concepts != [] ==> HasPrefix(t, concepts[0].title)
    ensures |concepts| == 1 ==> t == concepts[0].title
    ensures |concepts| >= 2 ==> t == concepts[0].title + " and More"
  {
    if |concepts| == 0 then "Generated Content"
    else if |concepts| == 1 then concepts[0].title
    else concepts[0].title + " and More"
  }

  /** The ids of `concepts`, in order. */
  predicate IdsOf(ids: seq<int>, concepts: seq<Concept>) {
    |ids| == |concepts| && forall i :: 0 <= i < |concepts| ==> ids[i] == concepts[i].id
  }

  /**
   * `GenerateContent`: a draft for `platform` linked to the concepts' ids in
   * order. A reply that does not decode becomes the body, under a title made
   * from the concepts; only a client error fails.
   */
  method GenerateContent(platform: string, concepts: seq<Concept>,
                         ask: Prompt -> Result<string, ClaudeError>, parse: string -> Option<Json>)
    returns (r: Result<GeneratedContent, ServiceError>)
    ensures var reply := ask(ContentPrompt(PromptKindFor(platform), Summary(concepts)));
      && (reply.Failure? ==> r == Failure(ContentFailed(reply.error)))
      && (reply.Success? ==> r.Success?)
      && (reply.Success? && ParsedContent(reply.value, parse).Success? ==>
            r.value.title == ParsedContent(reply.value, parse).value.title
            && r.value.body == ParsedContent(reply.value, parse).value.body)
      && (reply.Success? && ParsedContent(reply.value, parse).Failure? ==>
            r.value.title == TitleFromConcepts(concepts) && r.value.body == reply.value)
    ensures r.Success? ==>
      && r.value.platform == platform
      && r.value.status == "draft"
      && r.value.conceptIds.Some? && IdsOf(r.value.conceptIds.value, concepts)
  {
    var text := ConceptsText(concepts);
    var reply := ask(ContentPrompt(PromptKindFor(platform), text));
    if reply.Failure? {
      return Failure(ContentFailed(reply.error));
    }
    var title, body;
    var parsed := ParsedContent(reply.value, parse);
    if parsed.Success? {
      title, body := parsed.value.title, parsed.value.body;
    } else {
      body := reply.value;
      title := TitleFromConcepts(concepts);
    }
    var ids := ConceptIds(concepts);
    r := Success(GeneratedContent(0, platform, title, body, Some(ids), "draft", None, 0, 0));
  }

  /** The id-collecting loop of `GenerateContent`, over an array of the concepts' length. */
  method ConceptIds(concepts: seq<Concept>) returns (ids: seq<int>)
    ensures IdsOf(ids, concepts)
  {
    var a := new int[|concepts|];
    for i := 0 to |concepts|
      invariant forall k :: 0 <= k < i ==> a[k] == concepts[k].id
    {
      a[i] := concepts[i].id;
    }
    ids := a[..];
  }
}
