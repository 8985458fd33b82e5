/**
 * The records that flow between the practice page, the API routes and the dashboard:
 * the problem shown to the pupil, one attempted problem of the history, and the
 * difficulty and operation keys that the dashboard breaks its statistics down by.
 */
module Records {
  import opened Wrappers

  /** The three difficulty keys of the dashboard's breakdown. */
  datatype Difficulty = Easy | Medium | Hard

  /** The five operation keys of the dashboard's breakdown. */
  datatype ProblemType = Addition | Subtraction | Multiplication | Division | Mixed

  function DifficultyName(d: Difficulty): string {
    match d
    case Easy => "easy"
    case Medium => "medium"
    case Hard => "hard"
  }

  function ProblemTypeName(t: ProblemType): string {
    match t
    case Addition => "addition"
    case Subtraction => "subtraction"
    case Multiplication => "multiplication"
    case Division => "division"
    case Mixed => "mixed"
  }

  /** The breakdown entry a difficulty string selects; any other string selects none. */
  function DifficultyKey(s: string): (r: Option<Difficulty>)
    ensures r.Some? ==> DifficultyName(r.value) == s
    ensures r.None? ==> forall d: Difficulty :: DifficultyName(d) != s
  {
    if s == "easy" then Some(Easy)
    else if s == "medium" then Some(Medium)
    else if s == "hard" then Some(Hard)
    else None
  }

  /** The breakdown entry an operation string selects; any other string selects none. */
  function ProblemTypeKey(s: string): (r: Option<ProblemType>)
    ensures r.Some? ==> ProblemTypeName(r.value) == s
    ensures r.None? ==> forall t: ProblemType :: ProblemTypeName(t) != s
  {
    if s == "addition" then Some(Addition)
    else if s == "subtraction" then Some(Subtraction)
    else if s == "multiplication" then Some(Multiplication)
    else if s == "division" then Some(Division)
    else if s == "mixed" then Some(Mixed)
    else None
  }

  /** Every key's own name selects that key. */
  lemma KeyNamesRoundTrip(d: Difficulty, t: ProblemType)
    ensures DifficultyKey(DifficultyName(d)) == Some(d)
    ensures ProblemTypeKey(ProblemTypeName(t)) == Some(t)
  {
  }

  /**
   * A problem as the practice page holds it. The fallback table fills every field;
   * the AI route fills only the text and the answer.
   */
  datatype MathProblem = MathProblem(
    problemText: string,
    finalAnswer: real,
    hint: Option<string>,
    stepExplanation: Option<string>,
    syllabusTopic: Option<string>,
    learningObjective: Option<string>,
    primaryLevel: Option<string>)

  /**
   * The answer a history item records: the practice page keeps the text the pupil
   * typed, the dashboard route returns the number stored in the database.
   */
  datatype Answer = Typed(text: string) | Stored(value: real)

  /** One attempted problem, the element type of every history list. */
  datatype HistoryItem = HistoryItem(
    problem: string,
    userAnswer: Answer,
    correctAnswer: real,
    isCorrect: bool,
    feedback: string,
    difficulty: string,
    problemType: string,
    timestamp: string,
    syllabusTopic: Option<string>,
    learningObjective: Option<string>,
    primaryLevel: Option<string>)

  function Reverse<T>(s: seq<T>): seq<T> {
    if s == [] then [] else Reverse(s[1..]) + [s[0]]
  }

  lemma {:induction false} ReverseAt<T>(s: seq<T>, j: nat)
    requires j < |s|
    ensures |Reverse(s)| == |s| && Reverse(s)[j] == s[|s| - 1 - j]
  {
    ReverseLength(s[1..]);
    if j < |s| - 1 {
      ReverseAt(s[1..], j);
    }
  }

  lemma {:induction false} ReverseLength<T>(s: seq<T>)
    ensures |Reverse(s)| == |s|
  {
    if s != [] {
      ReverseLength(s[1..]);
    }
  }

  /**
   * `list.slice(-k).reverse()`: the last k elements (all of them when there are
   * fewer), newest first. `slice(-0)` is the whole list, which this definition does not
   * describe, so k is positive (the callers pass 5 and 10).
   */
  function LatestFirst<T>(list: seq<T>, k: nat): (r: seq<T>)
    requires k > 0
    ensures |r| == if |list| < k then |list| else k
    ensures forall j :: 0 <= j < |r| ==> r[j] == list[|list| - 1 - j]
  {
    var start := if |list| < k then 0 else |list| - k;
    var r := Reverse(list[start..]);
    ReverseLength(list[start..]);
    assert forall j :: 0 <= j < |r| ==> r[j] == list[start..][|list| - start - 1 - j] by {
      forall j | 0 <= j < |r| {
        ReverseAt(list[start..], j);
      }
    }
    r
  }
}
