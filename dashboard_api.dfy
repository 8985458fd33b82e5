/**
 * The dashboard route: every stored submission, joined with the session it
 * answered, becomes one history item in the dashboard's format. The database query
 * is an input.
 */
module DashboardApi {
  import opened Wrappers
  import opened Records

  /** The joined session columns; `difficulty` and `problem_type` may be null. */
  datatype SessionRow = SessionRow(
    problemText: string,
    difficulty: Option<string>,
    problemType: Option<string>,
    correctAnswer: real,
    createdAt: string)

  /** One submission row; its joined session is null when the foreign row is missing. */
  datatype Submission = Submission(
    userAnswer: real,
    isCorrect: bool,
    feedbackText: string,
    session: Option<SessionRow>)

  /** What the query returned: its error, or its data, which may itself be null. */
  datatype QueryResult = QueryError | QueryData(rows: Option<seq<Submission>>)

  /** Why the route failed. */
  datatype DashboardError =
    | FetchFailed                    // the query reported an error
    | MissingSession(position: nat)  // reading a field of a null session throws a TypeError

  datatype DashboardReply = History(data: seq<HistoryItem>) | Failed(error: DashboardError)

  const FetchFailure := "Failed to fetch dashboard data"

  /** The error text of the reply; a TypeError carries the runtime's own message, not modelled. */
  function ErrorText(e: DashboardError): Option<string> {
    if e.FetchFailed? then Some(FetchFailure) else None
  }

  function Status(r: DashboardReply): int {
    if r.History? then 200 else 500
  }

  /** `value || fallback` on a nullable string column. */
  function OrDefault(value: Option<string>, fallback: string): (r: string)
    ensures value.Some? && value.value != "" ==> r == value.value
    ensures value.None? || value.value == "" ==> r == fallback
  {
    if value.Some? && value.value != "" then value.value else fallback
  }

  /**
   * One submission as a history row: the verdict, answer and feedback come from the
   * submission, the problem, correct answer and time from its session.
   */
  function TransformRow(s: Submission): (item: HistoryItem)
    requires s.session.Some?
    ensures item.isCorrect == s.isCorrect
    ensures item.userAnswer == Stored(s.userAnswer)
    ensures item.feedback == s.feedbackText
    ensures item.problem == s.session.value.problemText
    ensures item.correctAnswer == s.session.value.correctAnswer
    ensures item.timestamp == s.session.value.createdAt
    // a non-empty key is kept as it is
    ensures var d := s.session.value.difficulty; d.Some? && d.value != "" ==> item.difficulty == d.value
    ensures var t := s.session.value.problemType; t.Some? && t.value != "" ==> item.problemType == t.value
    // the practice page's syllabus fields are not stored
    ensures item.syllabusTopic.None? && item.learningObjective.None? && item.primaryLevel.None?
  {
    var session := s.session.value;
    HistoryItem(
      problem := session.problemText,
      userAnswer := Stored(s.userAnswer),
      correctAnswer := session.correctAnswer,
      isCorrect := s.isCorrect,
      feedback := s.feedbackText,
      difficulty := OrDefault(session.difficulty, "medium"),
      problemType := OrDefault(session.problemType, "mixed"),
      timestamp := session.createdAt,
      syllabusTopic := None,
      learningObjective := None,
      primaryLevel := None)
  }

  /**
   * A session with neither a difficulty nor an operation lands in the dashboard's
   * medium and mixed buckets.
   */
  lemma MissingKeysLandInDefaultBuckets(s: Submission)
    requires s.session.Some?
    requires s.session.value.difficulty.None? || s.session.value.difficulty.value == ""
    requires s.session.value.problemType.None? || s.session.value.problemType.value == ""
    ensures DifficultyKey(TransformRow(s).difficulty) == Some(Medium)
    ensures ProblemTypeKey(TransformRow(s).problemType) == Some(Mixed)
  {
  }

  /** The first submission whose session is null. */
  function FirstMissing(rows: seq<Submission>): (r: Option<nat>)
    ensures r.Some? ==> (r.value < |rows| && rows[r.value].session.None?
      && forall k :: 0 <= k < r.value ==> rows[k].session.Some?)
    ensures r.None? ==> forall k :: 0 <= k < |rows| ==> rows[k].session.Some?
  {
    if rows == [] then None
    else if rows[0].session.None? then Some(0)
    else
      var rest := FirstMissing(rows[1..]);
      assert forall k :: 1 <= k < |rows| ==> rows[k] == rows[1..][k - 1];
      if rest.Some? then Some(rest.value + 1) else None
  }

  /** The mapped rows, or the position at which the mapping threw. */
  datatype MapResult = Mapped(items: seq<HistoryItem>) | ThrewAt(position: nat)

  /** `submissions.map(...)`, which throws at the first null session. */
  function TransformAll(rows: seq<Submission>): (r: MapResult)
    ensures r.Mapped? <==> forall k :: 0 <= k < |rows| ==> rows[k].session.Some?
    ensures r.Mapped? ==> (|r.items| == |rows|
      && forall k :: 0 <= k < |rows| ==> rows[k].session.Some? && r.items[k] == TransformRow(rows[k]))
    ensures r.ThrewAt? ==> FirstMissing(rows) == Some(r.position)
  {
    if rows == [] then Mapped([])
    else if rows[0].session.None? then ThrewAt(0)
    else
      match TransformAll(rows[1..])
      case ThrewAt(p) =>
        assert forall k :: 1 <= k < |rows| ==> rows[k] == rows[1..][k - 1];
        ThrewAt(p + 1)
      case Mapped(items) =>
        assert forall k :: 1 <= k < |rows| ==> rows[k] == rows[1..][k - 1];
        Mapped([TransformRow(rows[0])] + items)
  }

  /** `GET`. */
  function HandleDashboard(q: QueryResult): (r: DashboardReply)
    // a query error gives the fixed message, a 500 and no data
    ensures q.QueryError? ==> r == Failed(FetchFailed) && ErrorText(r.error) == Some(FetchFailure) && Status(r) == 500
    // a null data set is an empty history
    ensures q.QueryData? && q.rows.None? ==> r == History([])
    // otherwise one item per submission, in the query's order, each that row's transform
    ensures q.QueryData? && q.rows.Some? && r.History? ==> (|r.data| == |q.rows.value|
      && forall k :: 0 <= k < |r.data| ==> q.rows.value[k].session.Some? && r.data[k] == TransformRow(q.rows.value[k]))
    // the only other failure is the first submission whose session is missing
    ensures q.QueryData? && q.rows.Some? && r.Failed? ==> r.error.MissingSession? && FirstMissing(q.rows.value) == Some(r.error.position)
    ensures q.QueryData? && q.rows.Some? ==> (r.History? <==> forall k :: 0 <= k < |q.rows.value| ==> q.rows.value[k].session.Some?)
  {
    match q
    case QueryError => Failed(FetchFailed)
    case QueryData(rows) =>
      if rows.None? then History([])
      else
        match TransformAll(rows.value)
        case Mapped(items) => History(items)
        case ThrewAt(p) => Failed(MissingSession(p))
  }
}
