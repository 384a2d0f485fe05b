/**
 * The database behind the repositories: one table per record type, each a
 * sequence of rows in insertion order, with the next value of its `SERIAL`
 * id. The repository functions that the pipeline and the handlers call are
 * methods of `Database`. Whatever can go wrong in the database itself (a
 * lost connection, a failing insert, a failing commit) enters as a
 * parameter: `unavailable` for a single statement, a `Fault` for a batch.
 * Timestamps that the database fills in with `NOW()` are the parameter `now`.
 */
module Store {

  import opened Wrappers
  import opened Models
  import opened Ordering
  import opened UpdateQueries

  datatype DbError =
    | NotFound(entity: string)   // "<entity> not found"
    | QueryFailed                // the statement could not be run or was rejected
    | BeginFailed
    | InsertFailed
    | CommitFailed

  /** Where a batch insert's transaction breaks, if it does. */
  datatype Fault = NoFault | BeginFault | InsertFault(at: nat) | CommitFault

  /** Whether `fault` breaks a batch of `n` rows: an insert fault only counts inside the batch. */
  predicate Breaks(fault: Fault, n: nat) {
    fault.BeginFault? || fault.CommitFault? || (fault.InsertFault? && fault.at < n)
  }

  function BatchError(fault: Fault): DbError {
    match fault
    case BeginFault => BeginFailed
    case InsertFault(_) => InsertFailed
    case _ => CommitFailed
  }

  // ---------------------------------------------------------------------------
  // Ids
  // ---------------------------------------------------------------------------

  function Ids<T>(rows: seq<T>, id: T -> int): (ids: seq<int>)
    ensures |ids| == |rows| && forall i :: 0 <= i < |rows| ==> ids[i] == id(rows[i])
  {
    seq(|rows|, i requires 0 <= i < |rows| => id(rows[i]))
  }

  /** Ids as a `SERIAL` column hands them out: positive, increasing, below the next value. */
  predicate Ascending(ids: seq<int>, next: int) {
    (forall i, j :: 0 <= i < j < |ids| ==> ids[i] < ids[j]) &&
    (forall i :: 0 <= i < |ids| ==> 1 <= ids[i] < next) &&
    next >= 1
  }

  function SourceId(s: SourceContent): int { s.id }
  function ConceptId(c: Concept): int { c.id }
  function QuizId(q: QuizQuestion): int { q.id }
  function ContentId(g: GeneratedContent): int { g.id }

  /** Rows numbered from the next id keep the ids ascending. */
  lemma AppendFresh<T>(rows: seq<T>, id: T -> int, next: int, added: seq<T>)
    requires Ascending(Ids(rows, id), next)
    requires forall k :: 0 <= k < |added| ==> id(added[k]) == next + k
    ensures Ascending(Ids(rows + added, id), next + |added|)
  {
    var all := Ids(rows + added, id);
    forall i | 0 <= i < |all| ensures 1 <= all[i] < next + |added| {
      if i >= |rows| { assert (rows + added)[i] == added[i - |rows|]; }
      else { assert (rows + added)[i] == rows[i]; }
    }
    forall i, j | 0 <= i < j < |all| ensures all[i] < all[j] {
      if j < |rows| {
        assert (rows + added)[i] == rows[i] && (rows + added)[j] == rows[j];
      } else if i < |rows| {
        assert (rows + added)[i] == rows[i] && (rows + added)[j] == added[j - |rows|];
      } else {
        assert (rows + added)[i] == added[i - |rows|] && (rows + added)[j] == added[j - |rows|];
      }
    }
  }

  /** Removing one row keeps the ids ascending, and no row with its id is left. */
  lemma RemoveAt<T>(rows: seq<T>, id: T -> int, next: int, k: nat)
    requires k < |rows| && Ascending(Ids(rows, id), next)
    ensures Ascending(Ids(rows[..k] + rows[k + 1..], id), next)
    ensures forall r :: r in rows[..k] + rows[k + 1..] ==> id(r) != id(rows[k])
  {
    var rest := rows[..k] + rows[k + 1..];
    var ids := Ids(rows, id);
    forall i | 0 <= i < |rest| ensures rest[i] == rows[if i < k then i else i + 1] { }
    forall r | r in rest ensures id(r) != id(rows[k]) {
      var i :| 0 <= i < |rest| && rest[i] == r;
      if i < k { assert ids[i] < ids[k]; } else { assert ids[k] < ids[i + 1]; }
    }
    var restIds := Ids(rest, id);
    forall i, j | 0 <= i < j < |rest| ensures restIds[i] < restIds[j] {
      assert ids[if i < k then i else i + 1] < ids[if j < k then j else j + 1];
    }
  }

  /** Replacing a row by one with the same id keeps the ids. */
  lemma ReplaceAt<T>(rows: seq<T>, id: T -> int, k: nat, row: T)
    requires k < |rows| && id(row) == id(rows[k])
    ensures Ids(rows[k := row], id) == Ids(rows, id)
  {
  }

  /** The first row whose id is `target`. */
  function FindId<T>(rows: seq<T>, id: T -> int, target: int): (r: Option<nat>)
    ensures r.Some? ==> r.value < |rows| && id(rows[r.value]) == target
    ensures r.None? ==> forall i :: 0 <= i < |rows| ==> id(rows[i]) != target
  {
    if rows == [] then None
    else if id(rows[0]) == target then Some(0)
    else match FindId(rows[1..], id, target)
      case None => None
      case Some(i) => Some(i + 1)
  }

  // ---------------------------------------------------------------------------
  // Rows as the database returns them
  // ---------------------------------------------------------------------------

  /** An inserted concept: the given title, description and source, a fresh id, both stamps `now`. */
  function StoredConcept(c: Concept, id: int, now: int): Concept {
    Concept(id, c.title, c.description, c.sourceContentId, now, now)
  }

  function StoredConcepts(items: seq<Concept>, firstId: int, now: int): (r: seq<Concept>)
    ensures |r| == |items| && forall i :: 0 <= i < |items| ==> r[i] == StoredConcept(items[i], firstId + i, now)
  {
    seq(|items|, i requires 0 <= i < |items| => StoredConcept(items[i], firstId + i, now))
  }

  /** An inserted question: every field given but the id and the creation stamp. */
  function StoredQuestion(q: QuizQuestion, id: int, now: int): QuizQuestion {
    q.(id := id, createdAt := now)
  }

  function StoredQuestions(items: seq<QuizQuestion>, firstId: int, now: int): (r: seq<QuizQuestion>)
    ensures |r| == |items| && forall i :: 0 <= i < |items| ==> r[i] == StoredQuestion(items[i], firstId + i, now)
  {
    seq(|items|, i requires 0 <= i < |items| => StoredQuestion(items[i], firstId + i, now))
  }

  /**
   * An inserted piece of content: platform, title, body, concept ids and
   * status as given (the ids column round-trips by `IntArrays.ScanValueRoundTrip`),
   * no publication time, both stamps `now`.
   */
  function StoredContent(g: GeneratedContent, id: int, now: int): GeneratedContent {
    GeneratedContent(id, g.platform, g.title, g.body, g.conceptIds, g.status, None, now, now)
  }

  function StoredContents(items: seq<GeneratedContent>, firstId: int, now: int): (r: seq<GeneratedContent>)
    ensures |r| == |items| && forall i :: 0 <= i < |items| ==> r[i] == StoredContent(items[i], firstId + i, now)
  {
    seq(|items|, i requires 0 <= i < |items| => StoredContent(items[i], firstId + i, now))
  }

  // ---------------------------------------------------------------------------
  // Queries
  // ---------------------------------------------------------------------------

  function NewestFirst(c: Concept): int { -c.createdAt }
  function OldestFirst(q: QuizQuestion): int { q.createdAt }
  function NewestContentFirst(g: GeneratedContent): int { -g.createdAt }

  /** `WHERE source_content_id = $1` on concepts. */
  function OfSource(rows: seq<Concept>, sourceId: int): (r: seq<Concept>)
    ensures forall c :: c in r <==> c in rows && c.sourceContentId == Some(sourceId)
  {
    if rows == [] then []
    else (if rows[0].sourceContentId == Some(sourceId) then [rows[0]] else []) + OfSource(rows[1..], sourceId)
  }

  /** The join condition of `GetQuizzesBySourceContentID`: the question's concept comes from `sourceId`. */
  predicate BelongsTo(q: QuizQuestion, concepts: seq<Concept>, sourceId: int) {
    exists c :: c in concepts && c.id == q.conceptId && c.sourceContentId == Some(sourceId)
  }

  /**
   * `quiz_questions INNER JOIN concepts ... WHERE c.source_content_id = $1`.
   * Concept ids are unique (`Database.Valid`), so each question joins at most once.
   */
  function QuestionsOfSource(quizzes: seq<QuizQuestion>, concepts: seq<Concept>, sourceId: int): (r: seq<QuizQuestion>)
    ensures forall q :: q in r <==> q in quizzes && BelongsTo(q, concepts, sourceId)
  {
    if quizzes == [] then []
    else
      (if BelongsTo(quizzes[0], concepts, sourceId) then [quizzes[0]] else []) +
      QuestionsOfSource(quizzes[1..], concepts, sourceId)
  }

  /** The ids stored in a row's `concept_ids`: a NULL column holds none. */
  function IdsIn(a: IntArray): seq<int> {
    if a.Some? then a.value else []
  }

  /** How many entries of `targets` the row's concept ids contain: how often the filter emits the row. */
  function Hits(row: GeneratedContent, targets: seq<int>): (n: nat)
    ensures n <= |targets|
    ensures n == 0 <==> forall t :: t in targets ==> t !in IdsIn(row.conceptIds)
  {
    if targets == [] then 0
    else
      var last := targets[|targets| - 1];
      assert targets == targets[..|targets| - 1] + [last];
      Hits(row, targets[..|targets| - 1]) + (if last in IdsIn(row.conceptIds) then 1 else 0)
  }

  function Repeat<T>(x: T, n: nat): (r: seq<T>)
    ensures |r| == n && forall i :: 0 <= i < n ==> r[i] == x
  {
    seq(n, _ => x)
  }

  /** The in-memory filter of `GetGeneratedContentByConceptIDs`: each row, as often as it has hits. */
  function Matching(rows: seq<GeneratedContent>, targets: seq<int>): seq<GeneratedContent> {
    if rows == [] then []
    else Matching(rows[..|rows| - 1], targets) + Repeat(rows[|rows| - 1], Hits(rows[|rows| - 1], targets))
  }

  /** The first stored source with the URL: what a lookup by URL finds. */
  function SourceWithUrl(sources: seq<SourceContent>, url: string): (r: Option<SourceContent>)
    ensures r.Some? ==> r.value in sources && r.value.url == url
    ensures r.None? <==> forall s :: s in sources ==> s.url != url
  {
    if sources == [] then None
    else if sources[0].url == url then Some(sources[0])
    else SourceWithUrl(sources[1..], url)
  }

  lemma {:induction false} SourceWithUrlAt(sources: seq<SourceContent>, url: string, i: nat)
    requires i < |sources| && sources[i].url == url
    requires forall k :: 0 <= k < i ==> sources[k].url != url
    ensures SourceWithUrl(sources, url) == Some(sources[i])
    decreases i
  {
    if i > 0 {
      SourceWithUrlAt(sources[1..], url, i - 1);
    }
  }

  /** The tables the pipeline derives from a source, with their next ids. */
  datatype Artifacts = Artifacts(
    concepts: seq<Concept>,
    quizzes: seq<QuizQuestion>,
    contents: seq<GeneratedContent>,
    nextConceptId: int,
    nextQuizId: int,
    nextContentId: int)

  // ---------------------------------------------------------------------------
  // The database
  // ---------------------------------------------------------------------------

  class Database {
    var sources: seq<SourceContent>
    var concepts: seq<Concept>
    var quizzes: seq<QuizQuestion>
    var contents: seq<GeneratedContent>
    var nextSourceId: int
    var nextConceptId: int
    var nextQuizId: int
    var nextContentId: int

    ghost predicate Valid()
      reads this
    {
      Ascending(Ids(sources, SourceId), nextSourceId) &&
      Ascending(Ids(concepts, ConceptId), nextConceptId) &&
      Ascending(Ids(quizzes, QuizId), nextQuizId) &&
      Ascending(Ids(contents, ContentId), nextContentId)
    }

    function Derived(): Artifacts
      reads this
    {
      Artifacts(concepts, quizzes, contents, nextConceptId, nextQuizId, nextContentId)
    }

    /** An empty database whose sequences start at 1. */
    constructor ()
      ensures Valid()
      ensures sources == [] && concepts == [] && quizzes == [] && contents == []
      ensures nextSourceId == 1 && nextConceptId == 1 && nextQuizId == 1 && nextContentId == 1
    {
      sources, concepts, quizzes, contents := [], [], [], [];
      nextSourceId, nextConceptId, nextQuizId, nextContentId := 1, 1, 1, 1;
    }

    // -------------------------------------------------------------------------
    // source_contents
    // -------------------------------------------------------------------------

    method CreateSourceContent(kind: string, url: string, title: string, transcript: string, now: int, unavailable: bool)
      returns (r: Result<SourceContent, DbError>)
      requires Valid()
      modifies this
      ensures Valid()
      ensures unavailable ==> r == Failure(QueryFailed) && unchanged(this)
      ensures !unavailable ==> r == Success(SourceContent(old(nextSourceId), kind, url, title, transcript, now, now))
      ensures !unavailable ==> sources == old(sources) + [r.value] && nextSourceId == old(nextSourceId) + 1
      ensures concepts == old(concepts) && quizzes == old(quizzes) && contents == old(contents)
      ensures nextConceptId == old(nextConceptId) && nextQuizId == old(nextQuizId) && nextContentId == old(nextContentId)
    {
      if unavailable {
        return Failure(QueryFailed);
      }
      var row := SourceContent(nextSourceId, kind, url, title, transcript, now, now);
      AppendFresh(sources, SourceId, nextSourceId, [row]);
      sources := sources + [row];
      nextSourceId := nextSourceId + 1;
      r := Success(row);
    }

    /** Duplicate detection: a URL nobody stored is not an error. */
    method GetSourceContentByURL(url: string, unavailable: bool) returns (r: Result<Option<SourceContent>, DbError>)
      ensures unavailable ==> r == Failure(QueryFailed)
      ensures !unavailable ==> r == Success(SourceWithUrl(sources, url))
    {
      if unavailable {
        return Failure(QueryFailed);
      }
      var i := 0;
      while i < |sources|
        invariant 0 <= i <= |sources|
        invariant forall k :: 0 <= k < i ==> sources[k].url != url
      {
        if sources[i].url == url {
          SourceWithUrlAt(sources, url, i);
          return Success(Some(sources[i]));
        }
        i := i + 1;
      }
      r := Success(None);
    }

    method GetSourceContentByID(id: int, unavailable: bool) returns (r: Result<SourceContent, DbError>)
      ensures unavailable ==> r == Failure(QueryFailed)
      ensures !unavailable && FindId(sources, SourceId, id).None? ==> r == Failure(NotFound("source content"))
      ensures !unavailable && FindId(sources, SourceId, id).Some? ==> r == Success(sources[FindId(sources, SourceId, id).value])
      ensures r.Success? ==> r.value in sources && r.value.id == id
    {
      if unavailable {
        return Failure(QueryFailed);
      }
      match FindId(sources, SourceId, id)
      case None => r := Failure(NotFound("source content"));
      case Some(k) => r := Success(sources[k]);
    }

    // -------------------------------------------------------------------------
    // concepts
    // -------------------------------------------------------------------------

    method GetConceptByID(id: int, unavailable: bool) returns (r: Result<Concept, DbError>)
      ensures unavailable ==> r == Failure(QueryFailed)
      ensures !unavailable ==> (r == Failure(NotFound("concept")) <==> forall c :: c in concepts ==> c.id != id)
      ensures !unavailable && FindId(concepts, ConceptId, id).Some? ==> r == Success(concepts[FindId(concepts, ConceptId, id).value])
      ensures r.Success? ==> r.value in concepts && r.value.id == id
    {
      if unavailable {
        return Failure(QueryFailed);
      }
      match FindId(concepts, ConceptId, id)
      case None => r := Failure(NotFound("concept"));
      case Some(k) => r := Success(concepts[k]);
    }

    /**
     * `UpdateConcept`: the statement `BuildConceptUpdate` produces. With no
     * field set it is malformed and the database rejects it; otherwise the
     * row with the id gets the set fields, or the concept is not found.
     */
    method UpdateConcept(id: int, title: Option<string>, description: Option<string>, unavailable: bool)
      returns (r: Result<Concept, DbError>)
      requires Valid()
      modifies this
      ensures Valid()
      ensures unavailable || (title.None? && description.None?) ==> r == Failure(QueryFailed) && unchanged(this)
      ensures !unavailable && (title.Some? || description.Some?) && FindId(old(concepts), ConceptId, id).None? ==>
                r == Failure(NotFound("concept")) && unchanged(this)
      ensures !unavailable && (title.Some? || description.Some?) && FindId(old(concepts), ConceptId, id).Some? ==> r.Success?
      ensures r.Failure? ==> unchanged(this)
      ensures r.Success? ==> var k := FindId(old(concepts), ConceptId, id).value;
                r.value == old(concepts)[k].(title := if title.Some? then title.value else old(concepts)[k].title,
                                             description := if description.Some? then description.value else old(concepts)[k].description)
                && concepts == old(concepts)[k := r.value]
      ensures sources == old(sources) && quizzes == old(quizzes) && contents == old(contents)
      ensures nextSourceId == old(nextSourceId) && nextConceptId == old(nextConceptId)
      ensures nextQuizId == old(nextQuizId) && nextContentId == old(nextContentId)
    {
      var query, args := BuildConceptUpdate(id, title, description);
      if unavailable || (title.None? && description.None?) {
        return Failure(QueryFailed);
      }
      match FindId(concepts, ConceptId, id)
      case None =>
        r := Failure(NotFound("concept"));
      case Some(k) =>
        var row := concepts[k];
        if title.Some? { row := row.(title := title.value); }
        if description.Some? { row := row.(description := description.value); }
        ReplaceAt(concepts, ConceptId, k, row);
        concepts := concepts[k := row];
        r := Success(row);
    }

    method DeleteConcept(id: int, unavailable: bool) returns (r: Result<(), DbError>)
      requires Valid()
      modifies this
      ensures Valid()
      ensures unavailable ==> r == Failure(QueryFailed) && unchanged(this)
      ensures !unavailable ==> (r == Failure(NotFound("concept")) <==> forall c :: c in old(concepts) ==> c.id != id)
      ensures r.Failure? ==> unchanged(this)
      ensures r.Success? ==> var k := FindId(old(concepts), ConceptId, id).value;
                concepts == old(concepts)[..k] + old(concepts)[k + 1..]
      ensures forall c :: c in concepts ==> c.id != id || unavailable
      ensures sources == old(sources) && quizzes == old(quizzes) && contents == old(contents)
      ensures nextSourceId == old(nextSourceId) && nextConceptId == old(nextConceptId)
      ensures nextQuizId == old(nextQuizId) && nextContentId == old(nextContentId)
    {
      if unavailable {
        return Failure(QueryFailed);
      }
      match FindId(concepts, ConceptId, id)
      case None =>
        r := Failure(NotFound("concept"));
      case Some(k) =>
        RemoveAt(concepts, ConceptId, nextConceptId, k);
        concepts := concepts[..k] + concepts[k + 1..];
        r := Success(());
    }

    /** `CreateConceptsBatch`: nothing for no input; otherwise all rows in one transaction or none. */
    method CreateConceptsBatch(items: seq<Concept>, now: int, fault: Fault) returns (r: Result<seq<Concept>, DbError>)
      requires Valid()
      modifies this
      ensures Valid()
      ensures items == [] ==> r == Success([]) && unchanged(this)
      ensures items != [] && Breaks(fault, |items|) ==> r == Failure(BatchError(fault)) && unchanged(this)
      ensures items != [] && !Breaks(fault, |items|) ==> r == Success(StoredConcepts(items, old(nextConceptId), now))
      ensures r.Success? ==> concepts == old(concepts) + r.value && nextConceptId == old(nextConceptId) + |items|
      ensures sources == old(sources) && quizzes == old(quizzes) && contents == old(contents)
      ensures nextSourceId == old(nextSourceId) && nextQuizId == old(nextQuizId) && nextContentId == old(nextContentId)
    {
      if |items| == 0 {
        return Success([]);
      }
      if fault.BeginFault? {
        return Failure(BeginFailed);
      }
      var created: seq<Concept> := [];
      var i := 0;
      while i < |items|
        invariant 0 <= i <= |items|
        invariant created == StoredConcepts(items[..i], nextConceptId, now)
        invariant !(fault.InsertFault? && fault.at < i)
      {
        if fault == InsertFault(i) {
          return Failure(InsertFailed);
        }
        created := created + [StoredConcept(items[i], nextConceptId + i, now)];
        i := i + 1;
      }
      if fault.CommitFault? {
        return Failure(CommitFailed);
      }
      assert items[..i] == items;
      AppendFresh(concepts, ConceptId, nextConceptId, created);
      concepts := concepts + created;
      nextConceptId := nextConceptId + |created|;
      r := Success(created);
    }

    method GetConceptsBySourceContentID(sourceId: int, unavailable: bool) returns (r: Result<seq<Concept>, DbError>)
      ensures unavailable ==> r == Failure(QueryFailed)
      ensures !unavailable ==> r == Success(SortBy(OfSource(concepts, sourceId), NewestFirst))
    {
      if unavailable {
        return Failure(QueryFailed);
      }
      var rows := SortBy(OfSource(concepts, sourceId), NewestFirst);
      var read := ReadRows(rows);
      r := Success(read);
    }

    // -------------------------------------------------------------------------
    // quiz_questions
    // -------------------------------------------------------------------------

    /** `CreateQuizBatch`: nothing for no input; otherwise all rows in one transaction or none. */
    method CreateQuizBatch(items: seq<QuizQuestion>, now: int, fault: Fault) returns (r: Result<seq<QuizQuestion>, DbError>)
      requires Valid()
      modifies this
      ensures Valid()
      ensures items == [] ==> r == Success([]) && unchanged(this)
      ensures items != [] && Breaks(fault, |items|) ==> r == Failure(BatchError(fault)) && unchanged(this)
      ensures items != [] && !Breaks(fault, |items|) ==> r == Success(StoredQuestions(items, old(nextQuizId), now))
      ensures r.Success? ==> quizzes == old(quizzes) + r.value && nextQuizId == old(nextQuizId) + |items|
      ensures sources == old(sources) && concepts == old(concepts) && contents == old(contents)
      ensures nextSourceId == old(nextSourceId) && nextConceptId == old(nextConceptId) && nextContentId == old(nextContentId)
    {
      if |items| == 0 {
        return Success([]);
      }
      if fault.BeginFault? {
        return Failure(BeginFailed);
      }
      var created: seq<QuizQuestion> := [];
      var i := 0;
      while i < |items|
        invariant 0 <= i <= |items|
        invariant created == StoredQuestions(items[..i], nextQuizId, now)
        invariant !(fault.InsertFault? && fault.at < i)
      {
        if fault == InsertFault(i) {
          return Failure(InsertFailed);
        }
        created := created + [StoredQuestion(items[i], nextQuizId + i, now)];
        i := i + 1;
      }
      if fault.CommitFault? {
        return Failure(CommitFailed);
      }
      assert items[..i] == items;
      AppendFresh(quizzes, QuizId, nextQuizId, created);
      quizzes := quizzes + created;
      nextQuizId := nextQuizId + |created|;
      r := Success(created);
    }

    method GetQuizzesBySourceContentID(sourceId: int, unavailable: bool) returns (r: Result<seq<QuizQuestion>, DbError>)
      ensures unavailable ==> r == Failure(QueryFailed)
      ensures !unavailable ==> r == Success(SortBy(QuestionsOfSource(quizzes, concepts, sourceId), OldestFirst))
    {
      if unavailable {
        return Failure(QueryFailed);
      }
      var rows := SortBy(QuestionsOfSource(quizzes, concepts, sourceId), OldestFirst);
      var read := ReadRows(rows);
      r := Success(read);
    }

    method DeleteQuizQuestion(id: int, unavailable: bool) returns (r: Result<(), DbError>)
      requires Valid()
      modifies this
      ensures Valid()
      ensures unavailable ==> r == Failure(QueryFailed) && unchanged(this)
      ensures !unavailable ==> (r == Failure(NotFound("quiz question")) <==> forall q :: q in old(quizzes) ==> q.id != id)
      ensures r.Failure? ==> unchanged(this)
      ensures r.Success? ==> var k := FindId(old(quizzes), QuizId, id).value;
                quizzes == old(quizzes)[..k] + old(quizzes)[k + 1..]
      ensures forall q :: q in quizzes ==> q.id != id || unavailable
      ensures sources == old(sources) && concepts == old(concepts) && contents == old(contents)
      ensures nextSourceId == old(nextSourceId) && nextConceptId == old(nextConceptId)
      ensures nextQuizId == old(nextQuizId) && nextContentId == old(nextContentId)
    {
      if unavailable {
        return Failure(QueryFailed);
      }
      match FindId(quizzes, QuizId, id)
      case None =>
        r := Failure(NotFound("quiz question"));
      case Some(k) =>
        RemoveAt(quizzes, QuizId, nextQuizId, k);
        quizzes := quizzes[..k] + quizzes[k + 1..];
        r := Success(());
    }

    // -------------------------------------------------------------------------
    // generated_contents
    // -------------------------------------------------------------------------

    /** `CreateGeneratedContentBatch`: nothing for no input; otherwise all rows in one transaction or none. */
    method CreateGeneratedContentBatch(items: seq<GeneratedContent>, now: int, fault: Fault)
      returns (r: Result<seq<GeneratedContent>, DbError>)
      requires Valid()
      modifies this
      ensures Valid()
      ensures items == [] ==> r == Success([]) && unchanged(this)
      ensures items != [] && Breaks(fault, |items|) ==> r == Failure(BatchError(fault)) && unchanged(this)
      ensures items != [] && !Breaks(fault, |items|) ==> r == Success(StoredContents(items, old(nextContentId), now))
      ensures r.Success? ==> contents == old(contents) + r.value && nextContentId == old(nextContentId) + |items|
      ensures sources == old(sources) && concepts == old(concepts) && quizzes == old(quizzes)
      ensures nextSourceId == old(nextSourceId) && nextConceptId == old(nextConceptId) && nextQuizId == old(nextQuizId)
    {
      if |items| == 0 {
        return Success([]);
      }
      if fault.BeginFault? {
        return Failure(BeginFailed);
      }
      var created: seq<GeneratedContent> := [];
      var i := 0;
      while i < |items|
        invariant 0 <= i <= |items|
        invariant created == StoredContents(items[..i], nextContentId, now)
        invariant !(fault.InsertFault? && fault.at < i)
      {
        if fault == InsertFault(i) {
          return Failure(InsertFailed);
        }
        created := created + [StoredContent(items[i], nextContentId + i, now)];
        i := i + 1;
      }
      if fault.CommitFault? {
        return Failure(CommitFailed);
      }
      assert items[..i] == items;
      AppendFresh(contents, ContentId, nextContentId, created);
      contents := contents + created;
      nextContentId := nextContentId + |created|;
      r := Success(created);
    }

    /** All rows newest first, then the in-memory any-intersection filter. */
    method GetGeneratedContentByConceptIDs(targets: seq<int>, unavailable: bool)
      returns (r: Result<seq<GeneratedContent>, DbError>)
      ensures unavailable ==> r == Failure(QueryFailed)
      ensures !unavailable ==> r == Success(Matching(SortBy(contents, NewestContentFirst), targets))
    {
      if unavailable {
        return Failure(QueryFailed);
      }
      var rows := SortBy(contents, NewestContentFirst);
      var found := FilterByConceptIds(rows, targets);
      r := Success(found);
    }
  }

  // ---------------------------------------------------------------------------
  // The loops over returned rows
  // ---------------------------------------------------------------------------

  /** The `for rows.Next()` loop: every row scanned and appended, in order. */
  method ReadRows<T>(rows: seq<T>) returns (out: seq<T>)
    ensures out == rows
  {
    out := [];
    var i := 0;
    while i < |rows|
      invariant 0 <= i <= |rows| && out == rows[..i]
    {
      out := out + [rows[i]];
      i := i + 1;
    }
  }

  /** The innermost loop: does the row list `target` among its concept ids? */
  method ContainsId(ids: seq<int>, target: int) returns (found: bool)
    ensures found <==> target in ids
  {
    found := false;
    var j := 0;
    while j < |ids|
      invariant 0 <= j <= |ids|
      invariant target !in ids[..j]
    {
      if ids[j] == target {
        found := true;
        break;
      }
      j := j + 1;
    }
  }

  /** One row against every target: appended once per target it contains. */
  method AppendHits(out: seq<GeneratedContent>, row: GeneratedContent, targets: seq<int>)
    returns (out': seq<GeneratedContent>)
    ensures out' == out + Repeat(row, Hits(row, targets))
  {
    out' := out;
    var t := 0;
    while t < |targets|
      invariant 0 <= t <= |targets|
      invariant out' == out + Repeat(row, Hits(row, targets[..t]))
    {
      var found := ContainsId(IdsIn(row.conceptIds), targets[t]);
      assert targets[..t + 1][..t] == targets[..t];
      if found {
        out' := out' + [row];
      }
      t := t + 1;
    }
    assert targets[..t] == targets;
  }

  /** The nested filter of `GetGeneratedContentByConceptIDs`. */
  method FilterByConceptIds(rows: seq<GeneratedContent>, targets: seq<int>) returns (out: seq<GeneratedContent>)
    ensures out == Matching(rows, targets)
  {
    out := [];
    var i := 0;
    while i < |rows|
      invariant 0 <= i <= |rows|
      invariant out == Matching(rows[..i], targets)
    {
      out := AppendHits(out, rows[i], targets);
      assert rows[..i + 1][..i] == rows[..i];
      i := i + 1;
    }
    assert rows[..i] == rows;
  }

  // ---------------------------------------------------------------------------
  // What the queries return
  // ---------------------------------------------------------------------------

  /** A source's concepts: exactly those with its id, each as often as stored, newest first. */
  lemma ConceptsOfSourceResult(concepts: seq<Concept>, sourceId: int)
    ensures var r := SortBy(OfSource(concepts, sourceId), NewestFirst);
      SortedBy(r, NewestFirst) &&
      multiset(r) == multiset(OfSource(concepts, sourceId)) &&
      forall c :: c in r <==> c in concepts && c.sourceContentId == Some(sourceId)
  {
    var s := OfSource(concepts, sourceId);
    var r := SortBy(s, NewestFirst);
    SortBySorted(s, NewestFirst);
    forall c ensures c in r <==> c in s {
      assert c in r <==> c in multiset(r);
    }
  }

  /** A source's questions: exactly those whose concept has the source's id, oldest first. */
  lemma QuestionsOfSourceResult(quizzes: seq<QuizQuestion>, concepts: seq<Concept>, sourceId: int)
    ensures var r := SortBy(QuestionsOfSource(quizzes, concepts, sourceId), OldestFirst);
      SortedBy(r, OldestFirst) &&
      multiset(r) == multiset(QuestionsOfSource(quizzes, concepts, sourceId)) &&
      forall q :: q in r <==> q in quizzes && BelongsTo(q, concepts, sourceId)
  {
    var s := QuestionsOfSource(quizzes, concepts, sourceId);
    var r := SortBy(s, OldestFirst);
    SortBySorted(s, OldestFirst);
    forall q ensures q in r <==> q in s {
      assert q in r <==> q in multiset(r);
    }
  }

  /** Whether the row's concept ids share an id with `targets`. */
  predicate SharesId(row: GeneratedContent, targets: seq<int>) {
    exists t :: t in targets && t in IdsIn(row.conceptIds)
  }

  /** The filter keeps exactly the rows that share an id with the query. */
  lemma {:induction false} MatchingMembers(rows: seq<GeneratedContent>, targets: seq<int>)
    ensures forall g :: g in Matching(rows, targets) <==> g in rows && SharesId(g, targets)
    decreases |rows|
  {
    if rows != [] {
      var init, last := rows[..|rows| - 1], rows[|rows| - 1];
      MatchingMembers(init, targets);
      assert rows == init + [last];
      var n := Hits(last, targets);
      assert n > 0 <==> SharesId(last, targets);
      if n > 0 { assert Repeat(last, n)[0] == last; }
      forall g ensures g in Matching(rows, targets) <==> g in rows && SharesId(g, targets) {
        assert g in Repeat(last, n) <==> n > 0 && g == last;
      }
    }
  }

  /** An empty query matches nothing. */
  lemma {:induction false} MatchingNoTargets(rows: seq<GeneratedContent>)
    ensures Matching(rows, []) == []
    decreases |rows|
  {
    if rows != [] {
      MatchingNoTargets(rows[..|rows| - 1]);
    }
  }

  /** A row listing a concept id that the query names twice comes back twice. */
  lemma MatchingDuplicates(row: GeneratedContent, id: int)
    requires id in IdsIn(row.conceptIds)
    ensures Matching([row], [id, id]) == [row, row]
  {
    assert [id, id][..1] == [id];
    assert [row][..0] == [];
  }

  /** The filter keeps the order of the rows it is given. */
  lemma {:induction false} MatchingKeepsOrder(rows: seq<GeneratedContent>, targets: seq<int>, key: GeneratedContent -> int)
    requires SortedBy(rows, key)
    ensures SortedBy(Matching(rows, targets), key)
    decreases |rows|
  {
    if rows != [] {
      var init, last := rows[..|rows| - 1], rows[|rows| - 1];
      assert SortedBy(init, key);
      MatchingKeepsOrder(init, targets, key);
      MatchingMembers(init, targets);
      var front, back := Matching(init, targets), Repeat(last, Hits(last, targets));
      forall i | 0 <= i < |front| ensures key(front[i]) <= key(last) {
        assert front[i] in init;
      }
      var all := front + back;
      forall i, j | 0 <= i < j < |all| ensures key(all[i]) <= key(all[j]) {
        if j < |front| { assert all[i] == front[i] && all[j] == front[j]; }
        else if i < |front| { assert all[i] == front[i] && all[j] == last; }
        else { assert all[i] == last && all[j] == last; }
      }
    }
  }

  /** Content for some concept ids: rows sharing an id, newest first. */
  lemma ContentByConceptIdsResult(contents: seq<GeneratedContent>, targets: seq<int>)
    ensures var r := Matching(SortBy(contents, NewestContentFirst), targets);
      SortedBy(r, NewestContentFirst) &&
      forall g :: g in r <==> g in contents && SharesId(g, targets)
  {
    var rows := SortBy(contents, NewestContentFirst);
    SortBySorted(contents, NewestContentFirst);
    MatchingKeepsOrder(rows, targets, NewestContentFirst);
    MatchingMembers(rows, targets);
    assert forall g :: g in rows <==> g in multiset(contents);
  }
}
