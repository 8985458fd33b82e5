/**
 * The fallback problem route: a fixed two-level table of word problems, looked up
 * by difficulty and then by operation, with `||` fallbacks that make the lookup total.
 */
module SimpleProblems {
  import opened Wrappers
  import opened Records

  // ---------------------------------------------------------------------------
  // The table. Each explanation is written as text pieces around the arithmetic
  // it states, so that the arithmetic can be checked against the answer.

  const EasyAddition := MathProblem(
    "Sarah has 5 apples. She buys 3 more apples. How many apples does she have in total?",
    8.0,
    Some("Start with Sarah's original apples and add the new ones."),
    Some("Step 1: Sarah starts with 5 apples\nStep 2: She buys 3 more apples\nStep 3: "
         + "5 + 3 = 8" + " apples\nFinal Answer: Sarah has 8 apples in total."),
    Some("Number and Algebra - Addition within 20"),
    Some("Students should be able to solve simple addition word problems"),
    Some("Primary 1"))

  const EasySubtraction := MathProblem(
    "Tom has 12 stickers. He gives away 4 stickers to his friend. How many stickers does Tom have left?",
    8.0,
    Some("Start with Tom's original stickers and subtract what he gives away."),
    Some("Step 1: Tom starts with 12 stickers\nStep 2: He gives away 4 stickers\nStep 3: "
         + "12 - 4 = 8" + " stickers\nFinal Answer: Tom has 8 stickers left."),
    Some("Number and Algebra - Subtraction within 20"),
    Some("Students should be able to solve simple subtraction word problems"),
    Some("Primary 1"))

  const MediumAddition := MathProblem(
    "A bakery sold 45 cakes in the morning and 38 cakes in the afternoon. How many cakes did they sell in total?",
    83.0,
    Some("Add the cakes sold in the morning and afternoon."),
    Some("Step 1: Morning sales: 45 cakes\nStep 2: Afternoon sales: 38 cakes\nStep 3: "
         + "45 + 38 = 83" + " cakes\nFinal Answer: The bakery sold 83 cakes in total."),
    Some("Number and Algebra - Addition within 100"),
    Some("Students should be able to solve addition problems with regrouping"),
    Some("Primary 2"))

  const MediumSubtraction := MathProblem(
    "A library has 156 books. They lent out 67 books to students. How many books are left in the library?",
    89.0,
    Some("Subtract the lent books from the total books."),
    Some("Step 1: Total books: 156\nStep 2: Books lent out: 67\nStep 3: "
         + "156 - 67 = 89" + " books\nFinal Answer: There are 89 books left in the library."),
    Some("Number and Algebra - Subtraction within 200"),
    Some("Students should be able to solve subtraction problems with regrouping"),
    Some("Primary 3"))

  const HardMixed := MathProblem(
    "Emma has 250 marbles. She gives 45 marbles to her brother and buys 78 more marbles. Then she loses 23 marbles. How many marbles does Emma have now?",
    260.0,
    Some("Start with Emma's original marbles, subtract what she gives away, add what she buys, then subtract what she loses."),
    Some(HardMixedExplanation),
    Some("Number and Algebra - Multi-step operations with whole numbers"),
    Some("Students should be able to solve complex multi-step word problems"),
    Some("Primary 5"))

  const HardMixedOpening := "Step 1: Emma starts with 250 marbles\nStep 2: She gives away 45 marbles: "
  const HardMixedExplanation := HardMixedOpening
    + "250 - 45 = 205" + " marbles\nStep 3: She buys 78 more marbles: "
    + "205 + 78 = 283" + " marbles\nStep 4: She loses 23 marbles: "
    + "283 - 23 = 260" + " marbles\nFinal Answer: Emma has 260 marbles now."

  /** The `problems` table, keyed by difficulty and then by operation. */
  const Problems: map<string, map<string, MathProblem>> := map[
    "easy" := map["addition" := EasyAddition, "subtraction" := EasySubtraction],
    "medium" := map["addition" := MediumAddition, "subtraction" := MediumSubtraction],
    "hard" := map["mixed" := HardMixed]]

  /**
   * The table's layout: easy and medium have an addition and a subtraction entry,
   * hard only a mixed one, and the five answers are 8, 8, 83, 89 and 260.
   */
  lemma TableShape()
    ensures Problems.Keys == {"easy", "medium", "hard"}
    ensures Problems["easy"].Keys == {"addition", "subtraction"}
    ensures Problems["medium"].Keys == {"addition", "subtraction"}
    ensures Problems["hard"].Keys == {"mixed"}
    ensures Problems["easy"]["addition"].finalAnswer == 8.0 && Problems["easy"]["subtraction"].finalAnswer == 8.0
    ensures Problems["medium"]["addition"].finalAnswer == 83.0
    ensures Problems["medium"]["subtraction"].finalAnswer == 89.0
    ensures Problems["hard"]["mixed"].finalAnswer == 260.0
  {
  }

  /** Every problem the table holds. */
  ghost predicate InTable(p: MathProblem) {
    exists d, t :: d in Problems && t in Problems[d] && Problems[d][t] == p
  }

  // ---------------------------------------------------------------------------
  // The lookup

  /** `problems[difficulty] || problems.medium` */
  function DifficultyTable(difficulty: string): (table: map<string, MathProblem>)
    ensures difficulty in Problems ==> table == Problems[difficulty]
    ensures difficulty !in Problems ==> table == Problems["medium"]
  {
    if difficulty in Problems then Problems[difficulty] else Problems["medium"]
  }

  /**
   * `difficultyProblems[problemType] || difficultyProblems.addition || difficultyProblems.mixed`:
   * the entry itself when the operation is in the selected table, otherwise that
   * table's addition entry, otherwise its mixed entry. Every table has one of the two,
   * so the lookup always yields a problem of the table.
   */
  function SelectProblem(difficulty: string, problemType: string): (p: MathProblem)
    ensures InTable(p)
    ensures problemType in DifficultyTable(difficulty) ==> p == DifficultyTable(difficulty)[problemType]
    ensures (problemType !in DifficultyTable(difficulty) && "addition" in DifficultyTable(difficulty))
              ==> p == DifficultyTable(difficulty)["addition"]
  {
    var table := DifficultyTable(difficulty);
    var d := if difficulty in Problems then difficulty else "medium";
    var p :=
      if problemType in table then table[problemType]
      else if "addition" in table then table["addition"]
      else table["mixed"];
    assert Problems[d] == table;
    p
  }

  /** An unknown difficulty behaves exactly like `medium`. */
  lemma UnknownDifficultyIsMedium(difficulty: string, problemType: string)
    requires difficulty !in Problems
    ensures SelectProblem(difficulty, problemType) == SelectProblem("medium", problemType)
  {
  }

  /** `hard` has only its mixed entry, so every operation yields it. */
  lemma HardIsAlwaysMixed(problemType: string)
    ensures SelectProblem("hard", problemType) == HardMixed
  {
  }

  /** Easy and medium answer every operation other than their own two with the addition entry. */
  lemma OtherOperationsFallBackToAddition(difficulty: string, problemType: string)
    requires difficulty == "easy" || difficulty == "medium"
    requires problemType != "addition" && problemType != "subtraction"
    ensures SelectProblem(difficulty, problemType) == Problems[difficulty]["addition"]
  {
  }

  // ---------------------------------------------------------------------------
  // The route

  /** The request body: its two optional fields, or a body that is not valid JSON. */
  datatype RequestBody = Body(difficulty: Option<string>, problemType: Option<string>)
                       | MalformedBody(message: string)

  datatype SimpleReply = Served(problem: MathProblem, sessionId: nat) | Failed(error: string)

  function Status(r: SimpleReply): int {
    if r.Served? then 200 else 500
  }

  /**
   * `POST`: destructure the body with defaults `medium` and `mixed`, look the
   * problem up, and answer with it and a random session id (an input here).
   * A body that does not parse is answered with status 500 and the parser's message.
   */
  function HandleRequest(body: RequestBody, sessionId: nat): (r: SimpleReply)
    requires sessionId < 1000000
    ensures body.MalformedBody? ==> r == Failed(body.message) && Status(r) == 500
    ensures body.Body? ==> r.Served? && Status(r) == 200 && InTable(r.problem) && r.sessionId == sessionId
    // the problem served is the lookup of the defaulted difficulty and operation
    ensures body.Body? ==> r.problem == SelectProblem(body.difficulty.GetOr("medium"), body.problemType.GetOr("mixed"))
  {
    match body
    case MalformedBody(message) => Failed(message)
    case Body(difficulty, problemType) =>
      Served(SelectProblem(difficulty.GetOr("medium"), problemType.GetOr("mixed")), sessionId)
  }

  /** A missing difficulty means `medium`, a missing operation means `mixed`. */
  lemma MissingFieldsDefault(difficulty: Option<string>, problemType: Option<string>, sessionId: nat)
    requires sessionId < 1000000
    ensures HandleRequest(Body(None, problemType), sessionId)
              == HandleRequest(Body(Some("medium"), problemType), sessionId)
    ensures HandleRequest(Body(difficulty, None), sessionId)
              == HandleRequest(Body(difficulty, Some("mixed")), sessionId)
  {
  }

  /** An empty body asks for a medium mixed problem, which the table answers with medium addition. */
  lemma EmptyBodyServesMediumAddition(sessionId: nat)
    requires sessionId < 1000000
    ensures HandleRequest(Body(None, None), sessionId) == Served(MediumAddition, sessionId)
  {
  }

  // ---------------------------------------------------------------------------
  // The arithmetic in the explanations

  datatype Operator = Plus | Minus

  /** One line of working: `left op right = result`. */
  datatype Step = Step(left: nat, op: Operator, right: nat, result: nat)

  predicate StepHolds(s: Step) {
    match s.op
    case Plus => s.left + s.right == s.result
    case Minus => s.left - s.right == s.result
  }

  function DigitChar(d: nat): char
    requires d < 10
  {
    (48 + d) as char
  }

  /** The decimal digits of n. */
  function NatText(n: nat): string
    decreases n
  {
    if n < 10 then [DigitChar(n)] else NatText(n / 10) + [DigitChar(n % 10)]
  }

  function StepText(s: Step): string {
    NatText(s.left) + (match s.op case Plus => " + " case Minus => " - ")
      + NatText(s.right) + " = " + NatText(s.result)
  }

  predicate OccursAt(needle: string, hay: string, k: nat) {
    k + |needle| <= |hay| && hay[k..k + |needle|] == needle
  }

  ghost predicate Occurs(needle: string, hay: string) {
    exists k: nat :: OccursAt(needle, hay, k)
  }

  /**
   * The steps explain p: each is written in p's explanation and is arithmetically
   * true, each starts from the previous result, and the last result is p's answer.
   */
  ghost predicate WorkedOut(p: MathProblem, steps: seq<Step>) {
    && p.stepExplanation.Some?
    && |steps| > 0
    && (forall i :: 0 <= i < |steps| ==> StepHolds(steps[i]) && Occurs(StepText(steps[i]), p.stepExplanation.value))
    && (forall i :: 0 < i < |steps| ==> steps[i].left == steps[i - 1].result)
    && steps[|steps| - 1].result as real == p.finalAnswer
  }

  lemma OccursBetween(before: string, needle: string, after: string)
    ensures Occurs(needle, before + needle + after)
  {
    var hay := before + needle + after;
    assert hay[|before|..|before| + |needle|] == needle;
    assert OccursAt(needle, hay, |before|);
  }

  lemma EasyAdditionIsWorkedOut()
    ensures WorkedOut(EasyAddition, [Step(5, Plus, 3, 8)])
  {
    assert StepText(Step(5, Plus, 3, 8)) == "5 + 3 = 8";
    OccursBetween("Step 1: Sarah starts with 5 apples\nStep 2: She buys 3 more apples\nStep 3: ",
                  "5 + 3 = 8", " apples\nFinal Answer: Sarah has 8 apples in total.");
  }

  lemma EasySubtractionIsWorkedOut()
    ensures WorkedOut(EasySubtraction, [Step(12, Minus, 4, 8)])
  {
    assert StepText(Step(12, Minus, 4, 8)) == "12 - 4 = 8";
    OccursBetween("Step 1: Tom starts with 12 stickers\nStep 2: He gives away 4 stickers\nStep 3: ",
                  "12 - 4 = 8", " stickers\nFinal Answer: Tom has 8 stickers left.");
  }

  lemma MediumAdditionIsWorkedOut()
    ensures WorkedOut(MediumAddition, [Step(45, Plus, 38, 83)])
  {
    assert StepText(Step(45, Plus, 38, 83)) == "45 + 38 = 83";
    OccursBetween("Step 1: Morning sales: 45 cakes\nStep 2: Afternoon sales: 38 cakes\nStep 3: ",
                  "45 + 38 = 83", " cakes\nFinal Answer: The bakery sold 83 cakes in total.");
  }

  lemma MediumSubtractionIsWorkedOut()
    ensures WorkedOut(MediumSubtraction, [Step(156, Minus, 67, 89)])
  {
    assert StepText(Step(156, Minus, 67, 89)) == "156 - 67 = 89";
    OccursBetween("Step 1: Total books: 156\nStep 2: Books lent out: 67\nStep 3: ",
                  "156 - 67 = 89", " books\nFinal Answer: There are 89 books left in the library.");
  }

  lemma OccursInThree(a: string, x1: string, b: string, x2: string, c: string, x3: string, e: string)
    ensures var hay := a + x1 + b + x2 + c + x3 + e;
      Occurs(x1, hay) && Occurs(x2, hay) && Occurs(x3, hay)
  {
    var hay := a + x1 + b + x2 + c + x3 + e;
    assert hay == a + x1 + (b + x2 + c + x3 + e);
    OccursBetween(a, x1, b + x2 + c + x3 + e);
    assert hay == (a + x1 + b) + x2 + (c + x3 + e);
    OccursBetween(a + x1 + b, x2, c + x3 + e);
    assert hay == (a + x1 + b + x2 + c) + x3 + e;
    OccursBetween(a + x1 + b + x2 + c, x3, e);
  }

  lemma HardMixedFirstStepText()
    ensures StepText(Step(250, Minus, 45, 205)) == "250 - 45 = 205"
  {
  }

  lemma HardMixedSecondStepText()
    ensures StepText(Step(205, Plus, 78, 283)) == "205 + 78 = 283"
  {
  }

  lemma HardMixedThirdStepText()
    ensures StepText(Step(283, Minus, 23, 260)) == "283 - 23 = 260"
  {
  }

  /** The three lines of working are written in the hard entry's explanation. */
  lemma HardMixedStepsOccur()
    ensures Occurs("250 - 45 = 205", HardMixedExplanation)
    ensures Occurs("205 + 78 = 283", HardMixedExplanation)
    ensures Occurs("283 - 23 = 260", HardMixedExplanation)
  {
    OccursInThree(HardMixedOpening,
                  "250 - 45 = 205", " marbles\nStep 3: She buys 78 more marbles: ",
                  "205 + 78 = 283", " marbles\nStep 4: She loses 23 marbles: ",
                  "283 - 23 = 260", " marbles\nFinal Answer: Emma has 260 marbles now.");
  }

  lemma HardMixedIsWorkedOut()
    ensures WorkedOut(HardMixed, [Step(250, Minus, 45, 205), Step(205, Plus, 78, 283), Step(283, Minus, 23, 260)])
  {
    var steps := [Step(250, Minus, 45, 205), Step(205, Plus, 78, 283), Step(283, Minus, 23, 260)];
    HardMixedStepsOccur();
    HardMixedFirstStepText();
    HardMixedSecondStepText();
    HardMixedThirdStepText();
    forall i | 0 <= i < |steps|
      ensures StepHolds(steps[i]) && Occurs(StepText(steps[i]), HardMixedExplanation)
    {
    }
  }

  /** Every entry of the table states working whose arithmetic ends in its final answer. */
  lemma EveryAnswerMatchesItsExplanation(d: string, t: string)
    requires d in Problems && t in Problems[d]
    ensures exists steps :: WorkedOut(Problems[d][t], steps)
  {
    if d == "hard" {
      HardMixedIsWorkedOut();
    } else {
      TableEntryIsWorkedOut(Problems[d][t]);
    }
  }

  lemma TableEntryIsWorkedOut(p: MathProblem)
    requires p in {EasyAddition, EasySubtraction, MediumAddition, MediumSubtraction}
    ensures exists steps :: WorkedOut(p, steps)
  {
    EasyAdditionIsWorkedOut();
    EasySubtractionIsWorkedOut();
    MediumAdditionIsWorkedOut();
    MediumSubtractionIsWorkedOut();
  }
}
