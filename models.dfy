/**
 * The records the services and the repositories pass around. Instants
 * (`time.Time`) are integers; a Go pointer that may be nil is an `Option`.
 */
module Models {

  import opened Wrappers

  /** `IntArray`: `None` is the nil slice, which the database stores as NULL. */
  type IntArray = Option<seq<int>>

  datatype Concept = Concept(
    id: int,
    title: string,
    description: string,
    sourceContentId: Option<int>,
    createdAt: int,
    updatedAt: int)

  datatype QuizQuestion = QuizQuestion(
    id: int,
    conceptId: int,
    question: string,
    optionA: string,
    optionB: string,
    optionC: string,
    optionD: string,
    correctAnswer: string,
    explanation: string,
    createdAt: int)

  datatype SourceContent = SourceContent(
    id: int,
    kind: string,
    url: string,
    title: string,
    transcript: string,
    processedAt: int,
    createdAt: int)

  datatype GeneratedContent = GeneratedContent(
    id: int,
    platform: string,
    title: string,
    body: string,
    conceptIds: IntArray,
    status: string,
    publishedAt: Option<int>,
    createdAt: int,
    updatedAt: int)
}
