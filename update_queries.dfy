/**
 * The dynamic `UPDATE` statements of the concept and generated-content
 * repositories. Each optional field that is set contributes a
 * `column = $k, ` assignment and one argument; the row id is bound last.
 * `Placeholders` reads the `$k` numbers back out of the text, which is how
 * the contracts say that numbering and arguments line up.
 */
module UpdateQueries {

  import opened Wrappers
  import opened Strings
  import opened Decimal

  /** A value bound to a placeholder. */
  datatype Arg = TextArg(text: string) | IdArg(id: int)

  /** The numbers written after each `$` that is followed by digits, left to right. */
  function Placeholders(s: string): (r: seq<nat>)
    decreases |s|
  {
    if s == [] then []
    else if s[0] == '$' && DigitRun(s[1..]) > 0 then
      var k := DigitRun(s[1..]);
      [DigitsValue(s[1..][..k])] + Placeholders(s[1 + k..])
    else Placeholders(s[1..])
  }

  /** `$1, $2, ..., $n`. */
  function Numbered(n: nat): (r: seq<nat>)
    ensures |r| == n && forall i :: 0 <= i < n ==> r[i] == i + 1
  {
    seq(n, i => i + 1)
  }

  predicate NoDollar(s: string) {
    '$' !in s
  }

  /** Text that may stand before ` = $k`: no `$` of its own, and not a digit up front. */
  predicate ColumnName(column: string) {
    NoDollar(column) && column != [] && !IsDigit(column[0])
  }

  lemma FieldColumns()
    ensures ColumnName("title") && ColumnName("body") && ColumnName("status") && ColumnName("description")
  {
  }

  /** The argument a field contributes: its value when set, nothing otherwise. */
  function FieldArg(field: Option<string>): (args: seq<Arg>)
    ensures |args| == Present(field)
    ensures field.Some? ==> args == [TextArg(field.value)]
  {
    if field.Some? then [TextArg(field.value)] else []
  }

  function Present(field: Option<string>): nat {
    if field.Some? then 1 else 0
  }

  // ---------------------------------------------------------------------------
  // Reading placeholders back
  // ---------------------------------------------------------------------------

  lemma DigitRunAppend(x: string, b: string)
    requires b == [] || !IsDigit(b[0])
    ensures DigitRun(x + b) == DigitRun(x)
  {
    var k := DigitRun(x);
    assert (x + b)[..k] == x[..k];
    if k == |x| && b != [] {
      assert (x + b)[k] == b[0];
    } else if k < |x| {
      assert (x + b)[k] == x[k];
    }
    DigitRunUnique(x + b, k);
  }

  /** Text that does not start with a digit cannot extend a number, so placeholders add up. */
  lemma {:induction false} PlaceholdersAppend(a: string, b: string)
    requires b == [] || !IsDigit(b[0])
    ensures Placeholders(a + b) == Placeholders(a) + Placeholders(b)
    decreases |a|
  {
    if a == [] {
      assert a + b == b;
    } else {
      var s := a + b;
      assert s[0] == a[0];
      assert s[1..] == a[1..] + b;
      DigitRunAppend(a[1..], b);
      var k := DigitRun(a[1..]);
      if a[0] == '$' && k > 0 {
        assert s[1..][..k] == a[1..][..k];
        assert s[1 + k..] == a[1 + k..] + b;
        PlaceholdersAppend(a[1 + k..], b);
        PlaceholdersAtDollar(a, k);
        PlaceholdersAtDollar(s, k);
        ConsAppend(DigitsValue(a[1..][..k]), Placeholders(a[1 + k..]), Placeholders(b));
      } else {
        PlaceholdersAppend(a[1..], b);
        PlaceholdersAtOther(a);
        PlaceholdersAtOther(s);
      }
    }
  }

  /** One unfolding of `Placeholders` at a `$` followed by `k > 0` digits. */
  lemma PlaceholdersAtDollar(s: string, k: nat)
    requires s != [] && s[0] == '$' && k == DigitRun(s[1..]) && k > 0
    ensures Placeholders(s) == [DigitsValue(s[1..][..k])] + Placeholders(s[1 + k..])
  {
  }

  /** One unfolding of `Placeholders` at any other character. */
  lemma PlaceholdersAtOther(s: string)
    requires s != [] && !(s[0] == '$' && DigitRun(s[1..]) > 0)
    ensures Placeholders(s) == Placeholders(s[1..])
  {
  }

  lemma ConsAppend(v: nat, x: seq<nat>, y: seq<nat>)
    ensures [v] + (x + y) == ([v] + x) + y
  {
  }

  lemma {:induction false} NoDollarNoPlaceholders(s: string)
    requires NoDollar(s)
    ensures Placeholders(s) == []
    decreases |s|
  {
    if s != [] {
      NoDollarNoPlaceholders(s[1..]);
    }
  }

  /** `$n` followed by a non-digit reads as the single placeholder `n`. */
  lemma PlaceholderOf(n: nat, rest: string)
    requires NoDollar(rest) && (rest == [] || !IsDigit(rest[0]))
    ensures Placeholders("$" + NatToString(n) + rest) == [n]
  {
    var digits := NatToString(n);
    var s := "$" + digits + rest;
    var k := |digits|;
    assert s[1..] == digits + rest;
    DigitRunOfNatToString(n, rest);
    DigitsValueOfNatToString(n);
    assert DigitRun(s[1..]) == k > 0;
    assert s[1..][..k] == digits;
    assert s[1 + k..] == rest;
    NoDollarNoPlaceholders(rest);
    PlaceholdersAt(s, k, n);
  }

  /** A `$` and a run of `k` digits worth `n` at the front of `s`. */
  lemma PlaceholdersAt(s: string, k: nat, n: nat)
    requires s != [] && s[0] == '$' && k > 0 && DigitRun(s[1..]) == k
    requires DigitsValue(s[1..][..k]) == n && Placeholders(s[1 + k..]) == []
    ensures Placeholders(s) == [n]
  {
  }

  /** `column = $n` plus trailing text without `$` holds exactly the placeholder `n`. */
  lemma AssignmentPlaceholders(column: string, n: nat, rest: string)
    requires ColumnName(column)
    requires NoDollar(rest) && (rest == [] || !IsDigit(rest[0]))
    ensures Placeholders(Assignment(column, n) + rest) == [n]
  {
    var lit := column + " = ";
    AssignmentSplit(column, NatToString(n), rest);
    PlaceholdersAppend(lit, "$" + NatToString(n) + rest);
    NoDollarNoPlaceholders(lit);
    PlaceholderOf(n, rest);
  }

  lemma AssignmentSplit(column: string, digits: string, rest: string)
    ensures column + " = $" + digits + rest == (column + " = ") + ("$" + digits + rest)
  {
    assert " = $" == " = " + "$";
  }

  /** An occurrence that ends before the cut survives cutting the tail off. */
  lemma ContainsBeforeCut(q: string, sub: string, tail: string)
    requires Contains(q, sub + tail)
    ensures |tail| <= |q| && Contains(q[..|q| - |tail|], sub)
  {
    var k :| 0 <= k <= |q| - |sub + tail| && OccursAt(q, sub + tail, k);
    var cut := q[..|q| - |tail|];
    assert cut[k..k + |sub|] == q[k..k + |sub|] == (sub + tail)[..|sub|];
    assert OccursAt(cut, sub, k);
  }

  // ---------------------------------------------------------------------------
  // The builders
  // ---------------------------------------------------------------------------

  /** The text `column = $k`. */
  function Assignment(column: string, k: nat): string {
    column + " = $" + NatToString(k)
  }

  /** A text keeps what its prefix contains. */
  lemma ContainsInLonger(a: string, b: string, sub: string)
    requires HasPrefix(b, a) && Contains(a, sub)
    ensures Contains(b, sub)
  {
    assert b == a + b[|a|..];
    ContainsExtend(a, b[|a|..], sub);
  }

  /** One `if req.X != nil` step: append `column = $k, ` and the value. */
  method AddAssignment(query: string, args: seq<Arg>, column: string, value: Option<string>)
    returns (query': string, args': seq<Arg>)
    requires ColumnName(column)
    requires Placeholders(query) == Numbered(|args|)
    ensures args' == args + FieldArg(value)
    ensures value.None? ==> query' == query
    ensures value.Some? ==> Contains(query', Assignment(column, |args'|) + ", ")
    ensures value.Some? ==> HasSuffix(query', ", ") && |query'| > |query| + 2
    ensures HasPrefix(query', query)
    ensures Placeholders(query') == Numbered(|args'|)
  {
    query', args' := query, args;
    if value.Some? {
      var argCount := |args| + 1;
      var piece := Assignment(column, argCount) + ", ";
      AssignmentPlaceholders(column, argCount, ", ");
      PlaceholdersAppend(query, piece);
      query' := query + piece;
      args' := args + [TextArg(value.value)];
      assert Numbered(|args|) + [argCount] == Numbered(|args'|);
      assert query' == query + (Assignment(column, argCount) + ", ") + "";
      ContainsInfix(query, Assignment(column, argCount) + ", ", "");
    }
  }

  /**
   * The step that binds the row id: append `column = $k` for the next
   * placeholder `k`, then `rest`, and the id as the last argument.
   */
  method BindId(query: string, args: seq<Arg>, column: string, rest: string, id: int)
    returns (query': string, args': seq<Arg>)
    requires ColumnName(column)
    requires NoDollar(rest) && (rest == [] || !IsDigit(rest[0]))
    requires Placeholders(query) == Numbered(|args|)
    ensures args' == args + [IdArg(id)]
    ensures query' == query + Assignment(column, |args'|) + rest
    ensures Contains(query', Assignment(column, |args'|))
    ensures HasPrefix(query', query)
    ensures Placeholders(query') == Numbered(|args'|)
  {
    var argCount := |args| + 1;
    var piece := Assignment(column, argCount) + rest;
    AssignmentPlaceholders(column, argCount, rest);
    PlaceholdersAppend(query, piece);
    query' := query + piece;
    args' := args + [IdArg(id)];
    assert Numbered(|args|) + [argCount] == Numbered(|args'|);
    assert query' == query + Assignment(column, argCount) + rest;
    ContainsInfix(query, Assignment(column, argCount), rest);
  }

  // ---------------------------------------------------------------------------
  // UpdateGeneratedContent
  // ---------------------------------------------------------------------------

  const ContentUpdateHead := "UPDATE generated_contents SET "
  const ContentWhere := "updated_at = NOW() WHERE id"
  const ContentReturning := " RETURNING id, platform, title, body, " + "concept_ids, status, published_at, " + "created_at, updated_at"

  lemma NoDollarJoin(a: string, b: string)
    requires NoDollar(a) && NoDollar(b)
    ensures NoDollar(a + b)
  {
  }

  /** The fixed text of `UpdateGeneratedContent`'s statement holds no `$` of its own. */
  lemma ContentLiterals()
    ensures NoDollar(ContentUpdateHead)
    ensures ColumnName(ContentWhere)
    ensures NoDollar(ContentReturning) && ContentReturning != [] && !IsDigit(ContentReturning[0])
  {
    assert NoDollar(ContentUpdateHead);
    assert NoDollar(ContentWhere);
    ContentReturningParts();
    NoDollarJoin(" RETURNING id, platform, title, body, ", "concept_ids, status, published_at, ");
    NoDollarJoin(" RETURNING id, platform, title, body, " + "concept_ids, status, published_at, ", "created_at, updated_at");
  }

  /** The pieces `ContentReturning` is written in. */
  lemma ContentReturningParts()
    ensures NoDollar(" RETURNING id, platform, title, body, ")
    ensures NoDollar("concept_ids, status, published_at, ")
    ensures NoDollar("created_at, updated_at")
  {
  }

  /** The `title`, `body` and `status` steps of `UpdateGeneratedContent`, after `head`. */
  method AssignContentFields(head: string, title: Option<string>, body: Option<string>, status: Option<string>)
    returns (query: string, args: seq<Arg>)
    requires Placeholders(head) == []
    ensures args == FieldArg(title) + FieldArg(body) + FieldArg(status)
    ensures Placeholders(query) == Numbered(|args|)
    ensures HasPrefix(query, head)
    ensures title.Some? ==> Contains(query, Assignment("title", 1) + ", ")
    ensures body.Some? ==> Contains(query, Assignment("body", Present(title) + 1) + ", ")
    ensures status.Some? ==> Contains(query, Assignment("status", Present(title) + Present(body) + 1) + ", ")
  {
    query, args := head, [];
    assert Numbered(0) == [];
    FieldColumns();
    query, args := AddAssignment(query, args, "title", title);
    assert args == FieldArg(title);
    ghost var q1, n1 := query, |args|;
    query, args := AddAssignment(query, args, "body", body);
    ghost var q2, n2 := query, |args|;
    assert n2 == Present(title) + Present(body);
    query, args := AddAssignment(query, args, "status", status);
    assert |args| == n2 + Present(status);
    if title.Some? { ContainsInLonger(q1, query, Assignment("title", n1) + ", "); }
    if body.Some? { ContainsInLonger(q2, query, Assignment("body", n2) + ", "); }
  }

  /**
   * `UpdateGeneratedContent`'s statement: `$1..$n` numbered consecutively
   * over the set fields in the order title, body, status, the id bound
   * last, and `updated_at` set whatever else is.
   */
  method BuildContentUpdate(id: int, title: Option<string>, body: Option<string>, status: Option<string>)
    returns (query: string, args: seq<Arg>)
    ensures args == FieldArg(title) + FieldArg(body) + FieldArg(status) + [IdArg(id)]
    ensures |args| == Present(title) + Present(body) + Present(status) + 1
    ensures Placeholders(query) == Numbered(|args|)
    ensures HasPrefix(query, ContentUpdateHead)
    ensures title.Some? ==> Contains(query, Assignment("title", 1) + ", ")
    ensures body.Some? ==> Contains(query, Assignment("body", Present(title) + 1) + ", ")
    ensures status.Some? ==> Contains(query, Assignment("status", Present(title) + Present(body) + 1) + ", ")
    ensures Contains(query, Assignment(ContentWhere, |args|))
  {
    ContentLiterals();
    NoDollarNoPlaceholders(ContentUpdateHead);
    query, args := AssignContentFields(ContentUpdateHead, title, body, status);
    ghost var fields := query;
    query, args := BindId(query, args, ContentWhere, ContentReturning, id);
    ContentUpdateText(fields, query, title, body, status);
  }

  /** The assignments written before the id is bound stay in the statement. */
  lemma ContentUpdateText(fields: string, query: string, title: Option<string>, body: Option<string>, status: Option<string>)
    requires HasPrefix(query, fields)
    requires title.Some? ==> Contains(fields, Assignment("title", 1) + ", ")
    requires body.Some? ==> Contains(fields, Assignment("body", Present(title) + 1) + ", ")
    requires status.Some? ==> Contains(fields, Assignment("status", Present(title) + Present(body) + 1) + ", ")
    ensures title.Some? ==> Contains(query, Assignment("title", 1) + ", ")
    ensures body.Some? ==> Contains(query, Assignment("body", Present(title) + 1) + ", ")
    ensures status.Some? ==> Contains(query, Assignment("status", Present(title) + Present(body) + 1) + ", ")
  {
    if title.Some? { ContainsInLonger(fields, query, Assignment("title", 1) + ", "); }
    if body.Some? { ContainsInLonger(fields, query, Assignment("body", Present(title) + 1) + ", "); }
    if status.Some? { ContainsInLonger(fields, query, Assignment("status", Present(title) + Present(body) + 1) + ", "); }
  }

  // ---------------------------------------------------------------------------
  // UpdateConcept
  // ---------------------------------------------------------------------------

  const ConceptUpdateHead := "UPDATE concepts SET "
  const ConceptWhere := " WHERE id"
  const ConceptReturning := " RETURNING id, title, description, " + "source_content_id, created_at, updated_at"

  /** The fixed text of `UpdateConcept`'s statement holds no `$` of its own. */
  lemma ConceptLiterals()
    ensures NoDollar(ConceptUpdateHead) && ConceptUpdateHead[|ConceptUpdateHead| - 2..] == "T "
    ensures ColumnName(ConceptWhere)
    ensures NoDollar(ConceptReturning) && ConceptReturning != [] && !IsDigit(ConceptReturning[0])
  {
    assert NoDollar(ConceptUpdateHead);
    assert NoDollar(ConceptWhere);
    ConceptReturningParts();
    NoDollarJoin(" RETURNING id, title, description, ", "source_content_id, created_at, updated_at");
  }

  /** The pieces `ConceptReturning` is written in. */
  lemma ConceptReturningParts()
    ensures NoDollar(" RETURNING id, title, description, ")
    ensures NoDollar("source_content_id, created_at, updated_at")
  {
  }

  /** The `title` and `description` steps of `UpdateConcept`, after `head`. */
  method AssignConceptFields(head: string, title: Option<string>, description: Option<string>)
    returns (query: string, args: seq<Arg>)
    requires Placeholders(head) == []
    ensures args == FieldArg(title) + FieldArg(description)
    ensures Placeholders(query) == Numbered(|args|)
    ensures HasPrefix(query, head)
    ensures title.None? && description.None? ==> query == head
    ensures title.Some? || description.Some? ==> HasSuffix(query, ", ") && |query| > |head| + 2
    ensures title.Some? ==> Contains(query, Assignment("title", 1) + ", ")
    ensures description.Some? ==> Contains(query, Assignment("description", Present(title) + 1) + ", ")
  {
    query, args := head, [];
    assert Numbered(0) == [];
    FieldColumns();
    query, args := AddAssignment(query, args, "title", title);
    assert args == FieldArg(title);
    ghost var q1, n1 := query, |args|;
    query, args := AddAssignment(query, args, "description", description);
    if title.Some? { ContainsInLonger(q1, query, Assignment("title", n1) + ", "); }
  }

  /** Cutting two characters that hold no `$` and do not start with a digit keeps the placeholders. */
  lemma CutPlaceholders(q: string)
    requires |q| >= 2 && NoDollar(q[|q| - 2..]) && !IsDigit(q[|q| - 2])
    ensures Placeholders(q[..|q| - 2]) == Placeholders(q)
  {
    assert q == q[..|q| - 2] + q[|q| - 2..];
    PlaceholdersAppend(q[..|q| - 2], q[|q| - 2..]);
    NoDollarNoPlaceholders(q[|q| - 2..]);
  }

  /**
   * `UpdateConcept`'s statement: title then description numbered from `$1`,
   * the id bound last. With neither field set, cutting the last two
   * characters eats into `SET` and the statement is malformed.
   */
  method BuildConceptUpdate(id: int, title: Option<string>, description: Option<string>)
    returns (query: string, args: seq<Arg>)
    ensures args == FieldArg(title) + FieldArg(description) + [IdArg(id)]
    ensures |args| == Present(title) + Present(description) + 1
    ensures Placeholders(query) == Numbered(|args|)
    ensures title.Some? ==> Contains(query, Assignment("title", 1))
    ensures description.Some? ==> Contains(query, Assignment("description", Present(title) + 1))
    ensures Contains(query, Assignment(ConceptWhere, |args|))
    ensures title.None? && description.None? ==> HasPrefix(query, MalformedConceptUpdate)
    ensures title.Some? || description.Some? ==> HasPrefix(query, ConceptUpdateHead)
  {
    ConceptLiterals();
    NoDollarNoPlaceholders(ConceptUpdateHead);
    query, args := AssignConceptFields(ConceptUpdateHead, title, description);
    ghost var fields := query;
    // the trailing ", " of the last assignment, or "T " of "SET " when there is none
    CutPlaceholders(query);
    query := query[..|query| - 2];
    ghost var cut := query;
    query, args := BindId(query, args, ConceptWhere, ConceptReturning, id);
    ConceptUpdateText(fields, cut, query, |args|, title, description);
  }

  /** What the text of `BuildConceptUpdate` shows, from the text its steps produce. */
  lemma ConceptUpdateText(fields: string, cut: string, query: string, n: nat,
                          title: Option<string>, description: Option<string>)
    requires |fields| >= 2 && cut == fields[..|fields| - 2] && HasPrefix(query, cut)
    requires HasPrefix(fields, ConceptUpdateHead)
    requires title.None? && description.None? ==> fields == ConceptUpdateHead
    requires title.Some? || description.Some? ==> |fields| > |ConceptUpdateHead| + 2
    requires title.Some? ==> Contains(fields, Assignment("title", 1) + ", ")
    requires description.Some? ==> Contains(fields, Assignment("description", Present(title) + 1) + ", ")
    requires n == Present(title) + Present(description) + 1
    requires query == cut + Assignment(ConceptWhere, n) + ConceptReturning
    ensures title.Some? ==> Contains(query, Assignment("title", 1))
    ensures description.Some? ==> Contains(query, Assignment("description", Present(title) + 1))
    ensures title.None? && description.None? ==> HasPrefix(query, MalformedConceptUpdate)
    ensures title.Some? || description.Some? ==> HasPrefix(query, ConceptUpdateHead)
  {
    assert cut == fields[..|fields| - |", "|];
    if title.Some? {
      ContainsBeforeCut(fields, Assignment("title", 1), ", ");
      ContainsInLonger(cut, query, Assignment("title", 1));
    }
    if description.Some? {
      ContainsBeforeCut(fields, Assignment("description", Present(title) + 1), ", ");
      ContainsInLonger(cut, query, Assignment("description", Present(title) + 1));
    }
    if title.None? && description.None? {
      MalformedShape(cut, query);
    } else {
      assert cut[..|ConceptUpdateHead|] == fields[..|ConceptUpdateHead|];
    }
  }

  lemma MalformedShape(cut: string, query: string)
    requires cut == ConceptUpdateHead[..|ConceptUpdateHead| - 2]
    requires query == cut + Assignment(ConceptWhere, 1) + ConceptReturning
    ensures HasPrefix(query, MalformedConceptUpdate)
  {
    var start := ConceptUpdateHead[..|ConceptUpdateHead| - 2] + Assignment(ConceptWhere, 1);
    assert ConceptUpdateHead[..|ConceptUpdateHead| - 2] == "UPDATE concepts SE";
    assert NatToString(1) == "1";
    assert Assignment(ConceptWhere, 1) == " WHERE id = $1";
    assert start == MalformedConceptUpdate;
    assert query[..|start|] == start;
  }

  /** How `UpdateConcept`'s statement starts when no field is set. */
  const MalformedConceptUpdate := "UPDATE concepts SE WHERE id = $1"
}
