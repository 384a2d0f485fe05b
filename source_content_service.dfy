/**
 * The pipeline that processes a YouTube URL: look the URL up, fetch the
 * video, save the source, extract concepts, generate quizzes and content for
 * three platforms, and save each batch, degrading to empty collections when a
 * later step fails.
 *
 * The video client and the Claude service are oracles: the outcome of
 * `GetVideoInfo` is a parameter, and the three service calls are functions
 * from their arguments to their outcomes. The repositories are the methods
 * of `Store.Database`, whose faults come in one `Faults` record. Each call
 * made to the video client or the Claude service is recorded, in order.
 */
module SourceContentService {

  import opened Wrappers
  import opened Models
  import opened Ordering
  import opened Store
  import YT = YoutubeClient
  import CS = ClaudeService

  /** `ProcessResult`; its source is never nil. */
  datatype ProcessResult = ProcessResult(
    source: SourceContent,
    concepts: seq<Concept>,
    quizzes: seq<QuizQuestion>,
    generated: seq<GeneratedContent>)

  datatype ProcessError =
    | DuplicateCheckFailed(dbError: DbError)
    | VideoFailed(videoError: YT.VideoError)
    | TranscriptMissing
    | SaveSourceFailed(dbError: DbError)
    | SourceLookupFailed(dbError: DbError)

  /** A call to the video client or to the Claude service. */
  datatype Call = FetchVideo | ExtractConcepts | GenerateQuiz(conceptId: int) | GenerateContent(platform: string)

  /** Where each repository call of one run fails, if it does. */
  datatype Faults = Faults(
    lookup: bool,
    saveSource: bool,
    saveConcepts: Fault,
    saveQuizzes: Fault,
    saveContents: Fault,
    readConcepts: bool,
    readQuizzes: bool,
    readContents: bool)

  /** The platforms content is generated for, in order. */
  const Platforms: seq<string> := ["linkedin", "twitter", "blog"]

  // ---------------------------------------------------------------------------
  // The steps after the concepts are saved
  // ---------------------------------------------------------------------------

  /** Every question generated for `concepts`, in order; a concept whose generation fails adds none. */
  function QuizzesFor(concepts: seq<Concept>, quiz: Concept -> Result<seq<QuizQuestion>, CS.ServiceError>): seq<QuizQuestion> {
    if concepts == [] then []
    else
      var last := concepts[|concepts| - 1];
      QuizzesFor(concepts[..|concepts| - 1], quiz) + (if quiz(last).Success? then quiz(last).value else [])
  }

  /** The content generated for each of `platforms` from all of `concepts`; a failed platform adds none. */
  function ContentsFor(platforms: seq<string>, concepts: seq<Concept>,
                       content: (string, seq<Concept>) -> Result<GeneratedContent, CS.ServiceError>): seq<GeneratedContent> {
    if platforms == [] then []
    else
      var last := platforms[|platforms| - 1];
      ContentsFor(platforms[..|platforms| - 1], concepts, content) +
      (if content(last, concepts).Success? then [content(last, concepts).value] else [])
  }

  function QuizCalls(concepts: seq<Concept>): (calls: seq<Call>)
    ensures |calls| == |concepts| && forall i :: 0 <= i < |concepts| ==> calls[i] == GenerateQuiz(concepts[i].id)
  {
    seq(|concepts|, i requires 0 <= i < |concepts| => GenerateQuiz(concepts[i].id))
  }

  function ContentCalls(platforms: seq<string>): (calls: seq<Call>)
    ensures |calls| == |platforms| && forall i :: 0 <= i < |platforms| ==> calls[i] == GenerateContent(platforms[i])
  {
    seq(|platforms|, i requires 0 <= i < |platforms| => GenerateContent(platforms[i]))
  }

  /** What a save leaves in the result: nothing when there was nothing to save or the save failed. */
  function QuizOutcome(all: seq<QuizQuestion>, fault: Fault, firstId: int, now: int): seq<QuizQuestion> {
    if all == [] || Breaks(fault, |all|) then [] else StoredQuestions(all, firstId, now)
  }

  function ContentOutcome(all: seq<GeneratedContent>, fault: Fault, firstId: int, now: int): seq<GeneratedContent> {
    if all == [] || Breaks(fault, |all|) then [] else StoredContents(all, firstId, now)
  }

  /** The quiz loop of step 5. */
  method CollectQuizzes(concepts: seq<Concept>, quiz: Concept -> Result<seq<QuizQuestion>, CS.ServiceError>)
    returns (all: seq<QuizQuestion>, calls: seq<Call>)
    ensures all == QuizzesFor(concepts, quiz) && calls == QuizCalls(concepts)
  {
    all, calls := [], [];
    for i := 0 to |concepts|
      invariant all == QuizzesFor(concepts[..i], quiz) && calls == QuizCalls(concepts[..i])
    {
      assert concepts[..i + 1][..i] == concepts[..i];
      calls := calls + [GenerateQuiz(concepts[i].id)];
      var generated := quiz(concepts[i]);
      if generated.Failure? {
        continue;
      }
      all := all + generated.value;
    }
    assert concepts[..|concepts|] == concepts;
  }

  /** The content loop of step 6. */
  method CollectContents(platforms: seq<string>, concepts: seq<Concept>,
                         content: (string, seq<Concept>) -> Result<GeneratedContent, CS.ServiceError>)
    returns (all: seq<GeneratedContent>, calls: seq<Call>)
    ensures all == ContentsFor(platforms, concepts, content) && calls == ContentCalls(platforms)
  {
    all, calls := [], [];
    for i := 0 to |platforms|
      invariant all == ContentsFor(platforms[..i], concepts, content) && calls == ContentCalls(platforms[..i])
    {
      assert platforms[..i + 1][..i] == platforms[..i];
      calls := calls + [GenerateContent(platforms[i])];
      var generated := content(platforms[i], concepts);
      if generated.Failure? {
        continue;
      }
      all := all + [generated.value];
    }
    assert platforms[..|platforms|] == platforms;
  }

  /** Steps 5 to 7: quizzes, then content, each saved only when there is some; the concepts are kept. */
  method Derive(db: Database, saved: seq<Concept>,
                quiz: Concept -> Result<seq<QuizQuestion>, CS.ServiceError>,
                content: (string, seq<Concept>) -> Result<GeneratedContent, CS.ServiceError>,
                faults: Faults, now: int)
    returns (quizzes: seq<QuizQuestion>, generated: seq<GeneratedContent>, calls: seq<Call>)
    requires db.Valid()
    modifies db
    ensures db.Valid()
    ensures quizzes == QuizOutcome(QuizzesFor(saved, quiz), faults.saveQuizzes, old(db.nextQuizId), now)
    ensures generated == ContentOutcome(ContentsFor(Platforms, saved, content), faults.saveContents, old(db.nextContentId), now)
    ensures calls == QuizCalls(saved) + ContentCalls(Platforms)
    ensures db.quizzes == old(db.quizzes) + quizzes && db.contents == old(db.contents) + generated
    ensures db.sources == old(db.sources) && db.concepts == old(db.concepts)
    ensures db.nextSourceId == old(db.nextSourceId) && db.nextConceptId == old(db.nextConceptId)
  {
    var allQuizzes, quizCalls := CollectQuizzes(saved, quiz);
    quizzes := [];
    if |allQuizzes| > 0 {
      var savedQuizzes := db.CreateQuizBatch(allQuizzes, now, faults.saveQuizzes);
      if savedQuizzes.Success? {
        quizzes := savedQuizzes.value;
      }
    }
    var contents, contentCalls := CollectContents(Platforms, saved, content);
    generated := [];
    if |contents| > 0 {
      var savedContents := db.CreateGeneratedContentBatch(contents, now, faults.saveContents);
      if savedContents.Success? {
        generated := savedContents.value;
      }
    }
    calls := quizCalls + contentCalls;
  }

  // ---------------------------------------------------------------------------
  // An already processed source
  // ---------------------------------------------------------------------------

  /** A source's concepts as the pipeline reads them back: none when the read fails. */
  function RelatedConcepts(source: SourceContent, concepts: seq<Concept>, fault: bool): seq<Concept> {
    if fault then [] else SortBy(OfSource(concepts, source.id), NewestFirst)
  }

  function RelatedQuizzes(source: SourceContent, quizzes: seq<QuizQuestion>, concepts: seq<Concept>, fault: bool): seq<QuizQuestion> {
    if fault then [] else SortBy(QuestionsOfSource(quizzes, concepts, source.id), OldestFirst)
  }

  /** Content is looked up only for some concepts, and none is kept when the read fails. */
  function RelatedContents(found: seq<Concept>, contents: seq<GeneratedContent>, fault: bool): seq<GeneratedContent> {
    if found == [] || fault then [] else Matching(SortBy(contents, NewestContentFirst), Ids(found, ConceptId))
  }

  /** `getExistingProcessResult` on the tables: a failed read gives an empty list. */
  function Related(source: SourceContent, concepts: seq<Concept>, quizzes: seq<QuizQuestion>,
                   contents: seq<GeneratedContent>, faults: Faults): ProcessResult
  {
    var found := RelatedConcepts(source, concepts, faults.readConcepts);
    ProcessResult(source, found, RelatedQuizzes(source, quizzes, concepts, faults.readQuizzes),
                  RelatedContents(found, contents, faults.readContents))
  }

  /** The content lookup of `getExistingProcessResult`, with the id array it builds. */
  method ReadRelatedContents(db: Database, found: seq<Concept>, fault: bool) returns (generated: seq<GeneratedContent>)
    ensures generated == RelatedContents(found, db.contents, fault)
  {
    generated := [];
    if |found| > 0 {
      var ids := CS.ConceptIds(found);
      assert ids == Ids(found, ConceptId);
      var content := db.GetGeneratedContentByConceptIDs(ids, fault);
      if content.Success? {
        generated := content.value;
      }
    }
  }

  /** `getExistingProcessResult`: never fails, and changes nothing. */
  method GetExistingProcessResult(db: Database, source: SourceContent, faults: Faults) returns (r: ProcessResult)
    ensures r == Related(source, db.concepts, db.quizzes, db.contents, faults)
  {
    var concepts: seq<Concept> := [];
    var readConcepts := db.GetConceptsBySourceContentID(source.id, faults.readConcepts);
    if readConcepts.Success? {
      concepts := readConcepts.value;
    }
    var quizzes: seq<QuizQuestion> := [];
    var readQuizzes := db.GetQuizzesBySourceContentID(source.id, faults.readQuizzes);
    if readQuizzes.Success? {
      quizzes := readQuizzes.value;
    }
    var generated := ReadRelatedContents(db, concepts, faults.readContents);
    r := ProcessResult(source, concepts, quizzes, generated);
  }

  /** `GetSourceContentWithRelated`: the source by id, then what relates to it. */
  method GetSourceContentWithRelated(db: Database, id: int, unavailable: bool, faults: Faults)
    returns (r: Result<ProcessResult, ProcessError>)
    ensures unavailable ==> r == Failure(SourceLookupFailed(QueryFailed))
    ensures !unavailable && FindId(db.sources, SourceId, id).None? ==> r == Failure(SourceLookupFailed(NotFound("source content")))
    ensures !unavailable && FindId(db.sources, SourceId, id).Some? ==>
      r == Success(Related(db.sources[FindId(db.sources, SourceId, id).value], db.concepts, db.quizzes, db.contents, faults))
    ensures r.Success? ==>
      && r.value.source in db.sources && r.value.source.id == id
      && r.value == Related(r.value.source, db.concepts, db.quizzes, db.contents, faults)
  {
    var source := db.GetSourceContentByID(id, unavailable);
    if source.Failure? {
      return Failure(SourceLookupFailed(source.error));
    }
    var related := GetExistingProcessResult(db, source.value, faults);
    r := Success(related);
  }

  // ---------------------------------------------------------------------------
  // The pipeline
  // ---------------------------------------------------------------------------

  /** The row step 3 saves for a new video. */
  function NewSource(id: int, url: string, info: YT.VideoInfo, now: int): SourceContent
    requires info.transcript.Some?
  {
    SourceContent(id, "youtube", url, info.metadata.title, info.transcript.value.text, now, now)
  }

  /**
   * `ProcessYouTubeURL`. A failed duplicate check, a failed video fetch, a
   * missing transcript and a failed source save are errors; every later
   * failure still returns the saved source, with what could be saved.
   */
  method ProcessYouTubeURL(db: Database, url: string, video: Result<YT.VideoInfo, YT.VideoError>,
                           extract: (string, int) -> Result<seq<Concept>, CS.ServiceError>,
                           quiz: Concept -> Result<seq<QuizQuestion>, CS.ServiceError>,
                           content: (string, seq<Concept>) -> Result<GeneratedContent, CS.ServiceError>,
                           faults: Faults, now: int)
    returns (r: Result<ProcessResult, ProcessError>, calls: seq<Call>)
    requires db.Valid()
    modifies db
    ensures db.Valid()
    // the duplicate check
    ensures faults.lookup ==> r == Failure(DuplicateCheckFailed(QueryFailed)) && calls == [] && unchanged(db)
    ensures !faults.lookup && SourceWithUrl(old(db.sources), url).Some? ==>
              && r == Success(Related(SourceWithUrl(old(db.sources), url).value,
                                      old(db.concepts), old(db.quizzes), old(db.contents), faults))
              && calls == [] && unchanged(db)
    // the fatal steps for a new URL
    ensures !faults.lookup && SourceWithUrl(old(db.sources), url).None? ==> |calls| >= 1 && calls[0] == FetchVideo
    ensures video.Failure? && !faults.lookup && SourceWithUrl(old(db.sources), url).None? ==>
              r == Failure(VideoFailed(video.error)) && unchanged(db)
    ensures video.Success? && video.value.transcript.None? && !faults.lookup && SourceWithUrl(old(db.sources), url).None? ==>
              r == Failure(TranscriptMissing) && unchanged(db)
    ensures r.Failure? ==> unchanged(db) && |calls| <= 1
    // a saved source is always in the result
    ensures r.Success? && SourceWithUrl(old(db.sources), url).None? ==>
              && video.Success? && video.value.transcript.Some? && !faults.saveSource
              && r.value.source == NewSource(old(db.nextSourceId), url, video.value, now)
              && db.sources == old(db.sources) + [r.value.source]
    ensures video.Success? && video.value.transcript.Some? && !faults.lookup && SourceWithUrl(old(db.sources), url).None? ==>
              (r.Failure? <==> faults.saveSource) && (faults.saveSource ==> r == Failure(SaveSourceFailed(QueryFailed)))
    // what follows the saved source
    ensures r.Success? && SourceWithUrl(old(db.sources), url).None? ==>
              && calls == [FetchVideo] + calls[1..]
              && Continued(old(db.Derived()), db.Derived(), video.value.transcript.value.text, r.value.source.id,
                           extract, quiz, content, faults, now, r.value, calls[1..])
  {
    calls := [];
    var existing := db.GetSourceContentByURL(url, faults.lookup);
    if existing.Failure? {
      return Failure(DuplicateCheckFailed(existing.error)), calls;
    }
    if existing.value.Some? {
      var related := GetExistingProcessResult(db, existing.value.value, faults);
      return Success(related), calls;
    }
    calls := [FetchVideo];
    if video.Failure? {
      return Failure(VideoFailed(video.error)), calls;
    }
    if video.value.transcript.None? {
      return Failure(TranscriptMissing), calls;
    }
    var info := video.value;
    var source := db.CreateSourceContent("youtube", url, info.metadata.title, info.transcript.value.text, now, faults.saveSource);
    if source.Failure? {
      return Failure(SaveSourceFailed(source.error)), calls;
    }
    var result, more := Continue(db, source.value, info.transcript.value.text, extract, quiz, content, faults, now);
    r := Success(result);
    calls := calls + more;
    assert calls[1..] == more;
  }

  /**
   * What steps 4 to 7 leave, from the tables `before` to the tables `after`:
   * a failed extraction or a failed concept save leaves nothing but the
   * source; otherwise the saved concepts, and the quizzes and content that
   * could be generated and saved.
   */
  predicate Continued(before: Artifacts, after: Artifacts, transcript: string, sourceId: int,
                      extract: (string, int) -> Result<seq<Concept>, CS.ServiceError>,
                      quiz: Concept -> Result<seq<QuizQuestion>, CS.ServiceError>,
                      content: (string, seq<Concept>) -> Result<GeneratedContent, CS.ServiceError>,
                      faults: Faults, now: int, result: ProcessResult, calls: seq<Call>)
  {
    var extracted := extract(transcript, sourceId);
    if extracted.Failure? || (extracted.value != [] && Breaks(faults.saveConcepts, |extracted.value|)) then
      && result.concepts == [] && result.quizzes == [] && result.generated == []
      && calls == [ExtractConcepts]
      && after.concepts == before.concepts && after.quizzes == before.quizzes && after.contents == before.contents
    else
      var saved := StoredConcepts(extracted.value, before.nextConceptId, now);
      && result.concepts == saved
      && result.quizzes == QuizOutcome(QuizzesFor(saved, quiz), faults.saveQuizzes, before.nextQuizId, now)
      && result.generated == ContentOutcome(ContentsFor(Platforms, saved, content), faults.saveContents, before.nextContentId, now)
      && calls == [ExtractConcepts] + QuizCalls(saved) + ContentCalls(Platforms)
      && after.concepts == before.concepts + saved
      && after.quizzes == before.quizzes + result.quizzes
      && after.contents == before.contents + result.generated
  }

  /** Steps 4 to 7, after the source is saved. */
  method Continue(db: Database, source: SourceContent, transcript: string,
                  extract: (string, int) -> Result<seq<Concept>, CS.ServiceError>,
                  quiz: Concept -> Result<seq<QuizQuestion>, CS.ServiceError>,
                  content: (string, seq<Concept>) -> Result<GeneratedContent, CS.ServiceError>,
                  faults: Faults, now: int)
    returns (result: ProcessResult, calls: seq<Call>)
    requires db.Valid()
    modifies db
    ensures db.Valid()
    ensures result.source == source
    ensures db.sources == old(db.sources) && db.nextSourceId == old(db.nextSourceId)
    ensures Continued(old(db.Derived()), db.Derived(), transcript, source.id, extract, quiz, content, faults, now, result, calls)
  {
    var extracted := extract(transcript, source.id);
    if extracted.Failure? {
      return ProcessResult(source, [], [], []), [ExtractConcepts];
    }
    var saved := db.CreateConceptsBatch(extracted.value, now, faults.saveConcepts);
    if saved.Failure? {
      return ProcessResult(source, [], [], []), [ExtractConcepts];
    }
    assert saved.value == StoredConcepts(extracted.value, old(db.nextConceptId), now);
    var quizzes, generated;
    quizzes, generated, calls := Derive(db, saved.value, quiz, content, faults, now);
    result := ProcessResult(source, saved.value, quizzes, generated);
    calls := [ExtractConcepts] + calls;
  }

  // ---------------------------------------------------------------------------
  // What the steps promise
  // ---------------------------------------------------------------------------

  lemma {:induction false} QuizzesForAppend(a: seq<Concept>, b: seq<Concept>,
                                            quiz: Concept -> Result<seq<QuizQuestion>, CS.ServiceError>)
    ensures QuizzesFor(a + b, quiz) == QuizzesFor(a, quiz) + QuizzesFor(b, quiz)
    decreases |b|
  {
    if b == [] {
      assert a + b == a;
    } else {
      var init := b[..|b| - 1];
      QuizzesForAppend(a, init, quiz);
      assert (a + b)[..|a + b| - 1] == a + init;
    }
  }

  /** A concept whose quiz generation fails is skipped; the other concepts' questions stay, in order. */
  lemma QuizzesForSkipsFailure(before: seq<Concept>, c: Concept, after: seq<Concept>,
                               quiz: Concept -> Result<seq<QuizQuestion>, CS.ServiceError>)
    requires quiz(c).Failure?
    ensures QuizzesFor(before + [c] + after, quiz) == QuizzesFor(before, quiz) + QuizzesFor(after, quiz)
  {
    QuizzesForAppend(before + [c], after, quiz);
    assert (before + [c])[..|before|] == before;
  }

  /** Every collected question was generated for one of the concepts. */
  lemma {:induction false} QuizzesForOrigin(concepts: seq<Concept>, quiz: Concept -> Result<seq<QuizQuestion>, CS.ServiceError>,
                                            q: QuizQuestion)
    requires q in QuizzesFor(concepts, quiz)
    ensures exists c :: c in concepts && quiz(c).Success? && q in quiz(c).value
    decreases |concepts|
  {
    var init, last := concepts[..|concepts| - 1], concepts[|concepts| - 1];
    if q in QuizzesFor(init, quiz) {
      QuizzesForOrigin(init, quiz, q);
      var c :| c in init && quiz(c).Success? && q in quiz(c).value;
      assert c in concepts;
    } else {
      assert last in concepts;
    }
  }

  /** The content of one platform: its draft, or nothing when generation fails. */
  function Draft(platform: string, concepts: seq<Concept>,
                 content: (string, seq<Concept>) -> Result<GeneratedContent, CS.ServiceError>): (r: seq<GeneratedContent>)
    ensures |r| <= 1
  {
    if content(platform, concepts).Success? then [content(platform, concepts).value] else []
  }

  /** Content is asked for LinkedIn, Twitter and the blog, in that order, each from all the concepts. */
  lemma ContentsForPlatforms(concepts: seq<Concept>, content: (string, seq<Concept>) -> Result<GeneratedContent, CS.ServiceError>)
    ensures ContentsFor(Platforms, concepts, content) ==
              Draft("linkedin", concepts, content) + Draft("twitter", concepts, content) + Draft("blog", concepts, content)
    ensures |ContentsFor(Platforms, concepts, content)| <= 3
  {
    var one, two := ["linkedin"], ["linkedin", "twitter"];
    assert one[..0] == [];
    assert ContentsFor(one, concepts, content) == Draft("linkedin", concepts, content);
    assert two[..1] == one;
    assert ContentsFor(two, concepts, content) == Draft("linkedin", concepts, content) + Draft("twitter", concepts, content);
    assert Platforms[..2] == two;
  }

  /** A rebuilt result holds only the source's own concepts, questions and content, and content only with concepts. */
  lemma RelatedBelongs(source: SourceContent, concepts: seq<Concept>, quizzes: seq<QuizQuestion>,
                       contents: seq<GeneratedContent>, faults: Faults)
    ensures var r := Related(source, concepts, quizzes, contents, faults);
      && r.source == source
      && (forall c :: c in r.concepts ==> c in concepts && c.sourceContentId == Some(source.id))
      && (forall q :: q in r.quizzes ==> q in quizzes && BelongsTo(q, concepts, source.id))
      && (forall g :: g in r.generated ==> g in contents && SharesId(g, Ids(r.concepts, ConceptId)))
      && (r.concepts == [] ==> r.generated == [])
  {
    var r := Related(source, concepts, quizzes, contents, faults);
    ConceptsOfSourceResult(concepts, source.id);
    QuestionsOfSourceResult(quizzes, concepts, source.id);
    ContentByConceptIdsResult(contents, Ids(r.concepts, ConceptId));
  }
}
