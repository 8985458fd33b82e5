/**
 * The practice page's state: the current problem and answer, the running score,
 * the attempts of this visit, and the history kept in the browser's storage for
 * the dashboard. Each response of the two routes is one atomic transition; the
 * delays and loading messages around them are not state that anything reads.
 */
module PracticePage {
  import opened Wrappers
  import opened Records
  import opened Percent
  import opened DashboardStats

  /** What a request to the problem route produced, as the page reads it. */
  datatype GenerateOutcome =
    | ProblemReady(problem: MathProblem, sessionId: string)
    | GenerateFailed   // an unsuccessful reply or a connection error: only an alert follows

  /** What a request to the submit route produced, as the page reads it. */
  datatype SubmitOutcome =
    | Checked(isCorrect: bool, feedback: string, hint: Option<string>, stepExplanation: Option<string>)
    | SubmitFailed     // an unsuccessful reply or a connection error: only an alert follows

  /** `value || ''` on an optional reply field. */
  function OrEmpty(value: Option<string>): string {
    if value.Some? then value.value else ""
  }

  /** `!sessionId || !userAnswer`: the submit guard that shows an alert instead. */
  function SubmitBlocked(sessionId: Option<string>, userAnswer: string): (blocked: bool)
    // no problem yet, or nothing typed, blocks the request
    ensures sessionId.None? || userAnswer == "" ==> blocked
    // a request goes out only with a non-empty session id and a non-empty answer
    ensures !blocked ==> sessionId.Some? && sessionId.value != "" && userAnswer != ""
  {
    sessionId.None? || sessionId.value == "" || userAnswer == ""
  }

  /**
   * The item one checked attempt adds to both histories: the problem's text, answer
   * and syllabus fields, the answer as typed, the verdict, and the page's selectors.
   */
  function AttemptItem(p: MathProblem, userAnswer: string, isCorrect: bool, feedback: string,
                       difficulty: string, problemType: string, now: string): (item: HistoryItem)
    ensures item.problem == p.problemText && item.correctAnswer == p.finalAnswer
    // the answer is kept as the typed text, not as the number sent to the route
    ensures item.userAnswer.Typed? && item.userAnswer.text == userAnswer
    ensures item.isCorrect == isCorrect && item.feedback == feedback && item.timestamp == now
    ensures item.difficulty == difficulty && item.problemType == problemType
    ensures && item.syllabusTopic == p.syllabusTopic && item.learningObjective == p.learningObjective
            && item.primaryLevel == p.primaryLevel
  {
    HistoryItem(
      problem := p.problemText,
      userAnswer := Typed(userAnswer),
      correctAnswer := p.finalAnswer,
      isCorrect := isCorrect,
      feedback := feedback,
      difficulty := difficulty,
      problemType := problemType,
      timestamp := now,
      syllabusTopic := p.syllabusTopic,
      learningObjective := p.learningObjective,
      primaryLevel := p.primaryLevel)
  }

  lemma CountCorrectAppend(h: seq<HistoryItem>, x: HistoryItem)
    ensures CountCorrect(h + [x]) == CountCorrect(h) + if x.isCorrect then 1 else 0
  {
    CountCorrectLast(h + [x]);
    assert (h + [x])[..|h|] == h;
  }

  /**
   * A score and total consistent with an attempt history: the history's correct
   * attempts are among the correct checks and its wrong ones among the wrong checks.
   */
  predicate Tallies(score: nat, total: nat, h: seq<HistoryItem>) {
    && score <= total
    && CountCorrect(h) <= score
    && |h| - CountCorrect(h) <= total - score
  }

  /** One more check keeps the tallies consistent, whether or not it is recorded. */
  lemma TalliesStep(score: nat, total: nat, h: seq<HistoryItem>, x: HistoryItem)
    requires Tallies(score, total, h)
    ensures Tallies(score + (if x.isCorrect then 1 else 0), total + 1, h + [x])
  {
    CountCorrectAppend(h, x);
  }

  /** A check with no current problem keeps the tallies consistent too. */
  lemma CheckWithoutProblem(score: nat, total: nat, h: seq<HistoryItem>, correct: bool)
    requires Tallies(score, total, h)
    ensures Tallies(score + (if correct then 1 else 0), total + 1, h)
  {
  }

  /** Consistent tallies bound the history by the total. */
  lemma TalliesBoundHistory(score: nat, total: nat, h: seq<HistoryItem>)
    requires Tallies(score, total, h)
    ensures |h| <= total
  {
  }

  class Practice {
    var problem: Option<MathProblem>
    var userAnswer: string
    var feedback: string
    var sessionId: Option<string>
    var isCorrect: Option<bool>
    var difficulty: string
    var problemType: string
    var score: nat
    var totalProblems: nat
    var problemHistory: seq<HistoryItem>
    var showHint: bool
    var hint: string
    var stepExplanation: string
    /** The `mathProblemHistory` entry of the browser's storage. */
    var storedHistory: seq<HistoryItem>
    /** What the storage held when the page was opened. */
    ghost var initialStored: seq<HistoryItem>

    /**
     * The score counts correct checks and the total all checks; every attempt in
     * the history was one of those checks, and the storage holds what it held at
     * the start followed by exactly this visit's attempts.
     */
    ghost predicate Valid()
      reads this
    {
      && Tallies(score, totalProblems, problemHistory)
      && storedHistory == initialStored + problemHistory
    }

    /** The page as first rendered, over whatever the storage already holds. */
    constructor (stored: seq<HistoryItem>)
      ensures Valid()
      ensures problem == None && userAnswer == "" && feedback == "" && sessionId == None && isCorrect == None
      ensures difficulty == "medium" && problemType == "mixed"
      ensures score == 0 && totalProblems == 0 && problemHistory == []
      ensures !showHint && hint == "" && stepExplanation == ""
      ensures storedHistory == stored && initialStored == stored
    {
      problem := None;
      userAnswer := "";
      feedback := "";
      sessionId := None;
      isCorrect := None;
      difficulty := "medium";
      problemType := "mixed";
      score := 0;
      totalProblems := 0;
      problemHistory := [];
      showHint := false;
      hint := "";
      stepExplanation := "";
      storedHistory := stored;
      initialStored := stored;
    }

    /** The difficulty selector. */
    method SetDifficulty(d: string)
      requires Valid()
      modifies this
      ensures Valid()
      ensures difficulty == d
      ensures problem == old(problem) && userAnswer == old(userAnswer) && feedback == old(feedback)
      ensures sessionId == old(sessionId) && isCorrect == old(isCorrect) && problemType == old(problemType)
      ensures score == old(score) && totalProblems == old(totalProblems) && problemHistory == old(problemHistory)
      ensures showHint == old(showHint) && hint == old(hint) && stepExplanation == old(stepExplanation)
      ensures storedHistory == old(storedHistory) && initialStored == old(initialStored)
    {
      difficulty := d;
    }

    /** The operation selector. */
    method SetProblemType(t: string)
      requires Valid()
      modifies this
      ensures Valid()
      ensures problemType == t
      ensures problem == old(problem) && userAnswer == old(userAnswer) && feedback == old(feedback)
      ensures sessionId == old(sessionId) && isCorrect == old(isCorrect) && difficulty == old(difficulty)
      ensures score == old(score) && totalProblems == old(totalProblems) && problemHistory == old(problemHistory)
      ensures showHint == old(showHint) && hint == old(hint) && stepExplanation == old(stepExplanation)
      ensures storedHistory == old(storedHistory) && initialStored == old(initialStored)
    {
      problemType := t;
    }

    /** The answer field. */
    method SetUserAnswer(s: string)
      requires Valid()
      modifies this
      ensures Valid()
      ensures userAnswer == s
      ensures problem == old(problem) && feedback == old(feedback) && difficulty == old(difficulty)
      ensures sessionId == old(sessionId) && isCorrect == old(isCorrect) && problemType == old(problemType)
      ensures score == old(score) && totalProblems == old(totalProblems) && problemHistory == old(problemHistory)
      ensures showHint == old(showHint) && hint == old(hint) && stepExplanation == old(stepExplanation)
      ensures storedHistory == old(storedHistory) && initialStored == old(initialStored)
    {
      userAnswer := s;
    }

    /** The "show hint" button, offered only while a hint is present and hidden. */
    method RevealHint()
      requires Valid()
      requires hint != "" && !showHint
      modifies this
      ensures Valid()
      ensures showHint
      ensures problem == old(problem) && userAnswer == old(userAnswer) && feedback == old(feedback)
      ensures sessionId == old(sessionId) && isCorrect == old(isCorrect) && difficulty == old(difficulty)
      ensures problemType == old(problemType) && hint == old(hint) && stepExplanation == old(stepExplanation)
      ensures score == old(score) && totalProblems == old(totalProblems) && problemHistory == old(problemHistory)
      ensures storedHistory == old(storedHistory) && initialStored == old(initialStored)
    {
      showHint := true;
    }

    /**
     * `generateProblem`: the previous attempt's feedback, correctness, answer,
     * problem, hint and explanation are cleared first; a ready problem then becomes
     * current with its session id. A failure leaves the old session id in place.
     * The score and both histories are never touched.
     */
    method GenerateProblem(outcome: GenerateOutcome)
      requires Valid()
      modifies this
      ensures Valid()
      ensures feedback == "" && isCorrect == None && userAnswer == ""
      ensures !showHint && hint == "" && stepExplanation == ""
      ensures outcome.ProblemReady? ==> problem == Some(outcome.problem) && sessionId == Some(outcome.sessionId)
      ensures outcome.GenerateFailed? ==> problem == None && sessionId == old(sessionId)
      ensures difficulty == old(difficulty) && problemType == old(problemType)
      ensures score == old(score) && totalProblems == old(totalProblems) && problemHistory == old(problemHistory)
      ensures storedHistory == old(storedHistory) && initialStored == old(initialStored)
    {
      ClearAttempt();
      match outcome {
        case ProblemReady(p, id) =>
          problem := Some(p);
          sessionId := Some(id);
        case GenerateFailed =>
      }
    }

    /** The resets `generateProblem` makes before it sends its request. */
    method ClearAttempt()
      requires Valid()
      modifies this
      ensures Valid()
      ensures feedback == "" && isCorrect == None && userAnswer == "" && problem == None
      ensures !showHint && hint == "" && stepExplanation == ""
      ensures sessionId == old(sessionId) && difficulty == old(difficulty) && problemType == old(problemType)
      ensures score == old(score) && totalProblems == old(totalProblems) && problemHistory == old(problemHistory)
      ensures storedHistory == old(storedHistory) && initialStored == old(initialStored)
    {
      feedback := "";
      isCorrect := None;
      userAnswer := "";
      problem := None;
      showHint := false;
      hint := "";
      stepExplanation := "";
    }

    /**
     * `submitAnswer`. A blocked submit changes nothing. A checked answer records
     * its verdict, feedback, hint and explanation, counts towards the total and,
     * when correct, the score; if a problem is current, the attempt is appended to
     * this visit's history and to the stored history alike. A failed request
     * changes nothing.
     */
    method SubmitAnswer(outcome: SubmitOutcome, now: string) returns (sent: bool)
      requires Valid()
      modifies this
      ensures Valid()
      ensures sent <==> !SubmitBlocked(old(sessionId), old(userAnswer))
      ensures !sent || outcome.SubmitFailed? ==>
                && problem == old(problem) && userAnswer == old(userAnswer) && feedback == old(feedback)
                && isCorrect == old(isCorrect) && hint == old(hint) && stepExplanation == old(stepExplanation)
                && score == old(score) && totalProblems == old(totalProblems) && problemHistory == old(problemHistory)
                && storedHistory == old(storedHistory)
      ensures sent && outcome.Checked? ==>
                && isCorrect == Some(outcome.isCorrect) && feedback == outcome.feedback
                && hint == OrEmpty(outcome.hint) && stepExplanation == OrEmpty(outcome.stepExplanation)
                && score == old(score) + (if outcome.isCorrect then 1 else 0)
                && totalProblems == old(totalProblems) + 1
                && problem == old(problem) && userAnswer == old(userAnswer)
      ensures sent && outcome.Checked? && old(problem).Some? ==>
                var item := AttemptItem(old(problem).value, old(userAnswer), outcome.isCorrect, outcome.feedback,
                                        old(difficulty), old(problemType), now);
                && problemHistory == old(problemHistory) + [item]
                && storedHistory == old(storedHistory) + [item]
      ensures sent && outcome.Checked? && old(problem).None? ==>
                problemHistory == old(problemHistory) && storedHistory == old(storedHistory)
      ensures sessionId == old(sessionId) && difficulty == old(difficulty) && problemType == old(problemType)
      ensures showHint == old(showHint) && initialStored == old(initialStored)
    {
      if SubmitBlocked(sessionId, userAnswer) {
        return false;
      }
      sent := true;
      if outcome.Checked? {
        RecordCheck(outcome.isCorrect, outcome.feedback, outcome.hint, outcome.stepExplanation, now);
      }
    }

    /** The successful branch of `submitAnswer`, the one that changes state. */
    method RecordCheck(correct: bool, text: string, h: Option<string>, steps: Option<string>, now: string)
      requires Valid()
      modifies this
      ensures Valid()
      ensures isCorrect == Some(correct) && feedback == text
      ensures hint == OrEmpty(h) && stepExplanation == OrEmpty(steps)
      ensures score == old(score) + (if correct then 1 else 0)
      ensures totalProblems == old(totalProblems) + 1
      ensures old(problem).Some? ==>
                var item := AttemptItem(old(problem).value, old(userAnswer), correct, text,
                                        old(difficulty), old(problemType), now);
                && problemHistory == old(problemHistory) + [item]
                && storedHistory == old(storedHistory) + [item]
      ensures old(problem).None? ==> problemHistory == old(problemHistory) && storedHistory == old(storedHistory)
      ensures problem == old(problem) && userAnswer == old(userAnswer)
      ensures sessionId == old(sessionId) && difficulty == old(difficulty) && problemType == old(problemType)
      ensures showHint == old(showHint) && initialStored == old(initialStored)
    {
      ShowVerdict(correct, text, h, steps);
      CountAttempt(correct, text, now);
    }

    /** The verdict, feedback, hint and explanation of a checked answer. */
    method ShowVerdict(correct: bool, text: string, h: Option<string>, steps: Option<string>)
      requires Valid()
      modifies this
      ensures Valid()
      ensures isCorrect == Some(correct) && feedback == text
      ensures hint == OrEmpty(h) && stepExplanation == OrEmpty(steps)
      ensures score == old(score) && totalProblems == old(totalProblems)
      ensures problemHistory == old(problemHistory) && storedHistory == old(storedHistory)
      ensures problem == old(problem) && userAnswer == old(userAnswer)
      ensures sessionId == old(sessionId) && difficulty == old(difficulty) && problemType == old(problemType)
      ensures showHint == old(showHint) && initialStored == old(initialStored)
    {
      isCorrect := Some(correct);
      feedback := text;
      hint := OrEmpty(h);
      stepExplanation := OrEmpty(steps);
    }

    /**
     * The score, the total and, when a problem is current, the attempt appended to
     * both histories.
     */
    method CountAttempt(correct: bool, text: string, now: string)
      requires Valid()
      modifies this
      ensures Valid()
      ensures score == old(score) + (if correct then 1 else 0)
      ensures totalProblems == old(totalProblems) + 1
      ensures old(problem).Some? ==>
                var item := AttemptItem(old(problem).value, old(userAnswer), correct, text,
                                        old(difficulty), old(problemType), now);
                && problemHistory == old(problemHistory) + [item]
                && storedHistory == old(storedHistory) + [item]
      ensures old(problem).None? ==> problemHistory == old(problemHistory) && storedHistory == old(storedHistory)
      ensures isCorrect == old(isCorrect) && feedback == old(feedback)
      ensures hint == old(hint) && stepExplanation == old(stepExplanation)
      ensures problem == old(problem) && userAnswer == old(userAnswer)
      ensures sessionId == old(sessionId) && difficulty == old(difficulty) && problemType == old(problemType)
      ensures showHint == old(showHint) && initialStored == old(initialStored)
    {
      if problem.Some? {
        var item := AttemptItem(problem.value, userAnswer, correct, text, difficulty, problemType, now);
        TalliesStep(score, totalProblems, problemHistory, item);
        assert storedHistory + [item] == initialStored + (problemHistory + [item]);
        problemHistory := problemHistory + [item];
        storedHistory := storedHistory + [item];
      } else {
        CheckWithoutProblem(score, totalProblems, problemHistory, correct);
      }
      score := score + if correct then 1 else 0;
      totalProblems := totalProblems + 1;
    }

    /** The accuracy tile: `Math.round(score / totalProblems * 100)`, or 0 before any check. */
    function DisplayedAccuracy(): (r: nat)
      requires Valid()
      reads this
      ensures r <= 100
      ensures totalProblems == 0 ==> r == 0
      ensures totalProblems > 0 && score == totalProblems ==> r == 100
      ensures score == 0 ==> r == 0
      // the rounded percentage of checked answers that were correct
      ensures r == Accuracy(score, totalProblems)
    {
      AccuracyAtMost100(score, totalProblems);
      if totalProblems == 0 then Accuracy(score, totalProblems)
      else AccuracyExtremes(totalProblems); Accuracy(score, totalProblems)
    }

    /** The history panel: the last five attempts, newest first. */
    function RecentAttempts(): (r: seq<HistoryItem>)
      reads this
      ensures |r| == if |problemHistory| < 5 then |problemHistory| else 5
      ensures forall j :: 0 <= j < |r| ==> r[j] == problemHistory[|problemHistory| - 1 - j]
    {
      LatestFirst(problemHistory, 5)
    }
  }
}
