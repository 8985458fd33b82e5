/**
 * The dashboard's statistics aggregator: it folds an ordered list of attempts
 * (oldest first, the last element taken as the newest) into totals, an accuracy,
 * per-difficulty and per-operation breakdowns, a best streak, a current streak and
 * the ten newest attempts.
 */
module DashboardStats {
  import opened Wrappers
  import opened Records
  import opened Percent

  /** One entry of a breakdown. */
  datatype Bucket = Bucket(total: nat, correct: nat)

  datatype Stats = Stats(
    totalProblems: nat,
    correctAnswers: nat,
    accuracy: nat,
    difficultyBreakdown: map<Difficulty, Bucket>,
    problemTypeBreakdown: map<ProblemType, Bucket>,
    recentProblems: seq<HistoryItem>,
    streak: nat,
    bestStreak: nat)

  const EmptyDifficultyBreakdown: map<Difficulty, Bucket> :=
    map[Easy := Bucket(0, 0), Medium := Bucket(0, 0), Hard := Bucket(0, 0)]

  const EmptyProblemTypeBreakdown: map<ProblemType, Bucket> :=
    map[Addition := Bucket(0, 0), Subtraction := Bucket(0, 0), Multiplication := Bucket(0, 0),
        Division := Bucket(0, 0), Mixed := Bucket(0, 0)]

  /** What the dashboard shows before any history has been aggregated. */
  const InitialStats: Stats :=
    Stats(0, 0, 0, EmptyDifficultyBreakdown, EmptyProblemTypeBreakdown, [], 0, 0)

  lemma EmptyBreakdownsCoverAllKeys()
    ensures forall d: Difficulty :: d in EmptyDifficultyBreakdown && EmptyDifficultyBreakdown[d] == Bucket(0, 0)
    ensures forall t: ProblemType :: t in EmptyProblemTypeBreakdown && EmptyProblemTypeBreakdown[t] == Bucket(0, 0)
  {
    forall d: Difficulty
      ensures d in EmptyDifficultyBreakdown && EmptyDifficultyBreakdown[d] == Bucket(0, 0)
    {
      match d
      case Easy =>
      case Medium =>
      case Hard =>
    }
    forall t: ProblemType
      ensures t in EmptyProblemTypeBreakdown && EmptyProblemTypeBreakdown[t] == Bucket(0, 0)
    {
      match t
      case Addition =>
      case Subtraction =>
      case Multiplication =>
      case Division =>
      case Mixed =>
    }
  }

  // ---------------------------------------------------------------------------
  // Specification functions

  predicate AllCorrect(h: seq<HistoryItem>) {
    forall i :: 0 <= i < |h| ==> h[i].isCorrect
  }

  /** `history.filter(item => item.isCorrect).length` */
  function CountCorrect(h: seq<HistoryItem>): (r: nat)
    ensures r <= |h|
    ensures r == |h| <==> AllCorrect(h)
  {
    if h == [] then 0
    else
      assert AllCorrect(h) <==> h[0].isCorrect && AllCorrect(h[1..]) by {
        if h[0].isCorrect && AllCorrect(h[1..]) {
          forall i | 0 <= i < |h| ensures h[i].isCorrect {
            if i > 0 { assert h[i] == h[1..][i - 1]; }
          }
        }
      }
      (if h[0].isCorrect then 1 else 0) + CountCorrect(h[1..])
  }

  /** The items of h whose difficulty selects breakdown entry d, tallied. */
  function DifficultyBucket(h: seq<HistoryItem>, d: Difficulty): Bucket {
    if h == [] then Bucket(0, 0)
    else
      var b := DifficultyBucket(h[..|h| - 1], d);
      var x := h[|h| - 1];
      if DifficultyKey(x.difficulty) == Some(d)
      then Bucket(b.total + 1, b.correct + if x.isCorrect then 1 else 0)
      else b
  }

  /** The items of h whose operation selects breakdown entry t, tallied. */
  function ProblemTypeBucket(h: seq<HistoryItem>, t: ProblemType): Bucket {
    if h == [] then Bucket(0, 0)
    else
      var b := ProblemTypeBucket(h[..|h| - 1], t);
      var x := h[|h| - 1];
      if ProblemTypeKey(x.problemType) == Some(t)
      then Bucket(b.total + 1, b.correct + if x.isCorrect then 1 else 0)
      else b
  }

  /** The number of items whose difficulty is none of the breakdown's keys. */
  function UnknownDifficulties(h: seq<HistoryItem>): nat {
    if h == [] then 0
    else UnknownDifficulties(h[..|h| - 1]) + if DifficultyKey(h[|h| - 1].difficulty).None? then 1 else 0
  }

  /** The number of items whose operation is none of the breakdown's keys. */
  function UnknownProblemTypes(h: seq<HistoryItem>): nat {
    if h == [] then 0
    else UnknownProblemTypes(h[..|h| - 1]) + if ProblemTypeKey(h[|h| - 1].problemType).None? then 1 else 0
  }

  /** The number of correct answers at the front of h, up to the first wrong one. */
  function LeadingRun(h: seq<HistoryItem>): nat {
    if h == [] || !h[0].isCorrect then 0 else 1 + LeadingRun(h[1..])
  }

  function Max(a: nat, b: nat): nat {
    if a < b then b else a
  }

  /** The length of the longest run of consecutive correct answers in h. */
  function LongestRun(h: seq<HistoryItem>): nat {
    if h == [] then 0 else Max(LeadingRun(h), LongestRun(h[1..]))
  }

  /**
   * What the streak loop leaves in `currentStreak`: it is only assigned while
   * the scan is at the last index, where `tempStreak` is at most 1.
   */
  function CurrentStreakAsWritten(h: seq<HistoryItem>): nat {
    if |h| > 0 && h[|h| - 1].isCorrect then 1 else 0
  }

  /** The number of correct answers at the end of h, back to the newest wrong one. */
  function TrailingRun(h: seq<HistoryItem>): nat {
    if h == [] || !h[|h| - 1].isCorrect then 0 else 1 + TrailingRun(h[..|h| - 1])
  }

  function Counted(b: Bucket, isCorrect: bool): Bucket {
    Bucket(b.total + 1, b.correct + if isCorrect then 1 else 0)
  }

  /** Extending a history by one item changes only the entries its keys select. */
  lemma BucketsStep(h: seq<HistoryItem>, k: nat)
    requires k < |h|
    ensures forall d: Difficulty :: DifficultyBucket(h[..k + 1], d)
              == if DifficultyKey(h[k].difficulty) == Some(d)
                 then Counted(DifficultyBucket(h[..k], d), h[k].isCorrect)
                 else DifficultyBucket(h[..k], d)
    ensures forall t: ProblemType :: ProblemTypeBucket(h[..k + 1], t)
              == if ProblemTypeKey(h[k].problemType) == Some(t)
                 then Counted(ProblemTypeBucket(h[..k], t), h[k].isCorrect)
                 else ProblemTypeBucket(h[..k], t)
  {
    assert h[..k + 1][..k] == h[..k];
  }

  // ---------------------------------------------------------------------------
  // The aggregator

  /** `calculateStats(history)` */
  method CalculateStats(history: seq<HistoryItem>) returns (stats: Stats)
    ensures stats.totalProblems == |history|
    ensures stats.correctAnswers == CountCorrect(history)
    ensures stats.accuracy == Accuracy(CountCorrect(history), |history|)
    ensures forall d: Difficulty :: d in stats.difficultyBreakdown
              && stats.difficultyBreakdown[d] == DifficultyBucket(history, d)
    ensures forall t: ProblemType :: t in stats.problemTypeBreakdown
              && stats.problemTypeBreakdown[t] == ProblemTypeBucket(history, t)
    ensures stats.bestStreak == LongestRun(history)
    ensures stats.streak == CurrentStreakAsWritten(history)
    ensures stats.recentProblems == LatestFirst(history, 10)
    ensures history == [] ==> stats == InitialStats
  {
    var totalProblems := |history|;
    var correctAnswers := CountCorrect(history);
    var accuracy := if totalProblems > 0 then RoundedPercent(correctAnswers, totalProblems) else 0;
    var difficultyBreakdown, problemTypeBreakdown := TallyBreakdowns(history);
    var currentStreak, bestStreak := ScanStreaks(history);
    stats := Stats(totalProblems, correctAnswers, accuracy, difficultyBreakdown,
                   problemTypeBreakdown, LatestFirst(history, 10), currentStreak, bestStreak);
    if history == [] {
      assert difficultyBreakdown == EmptyDifficultyBreakdown by {
        EmptyBreakdownsCoverAllKeys();
      }
      assert problemTypeBreakdown == EmptyProblemTypeBreakdown by {
        EmptyBreakdownsCoverAllKeys();
      }
    }
  }

  /** The `history.forEach` pass that fills both breakdowns, skipping unknown keys. */
  method TallyBreakdowns(history: seq<HistoryItem>)
    returns (difficultyBreakdown: map<Difficulty, Bucket>, problemTypeBreakdown: map<ProblemType, Bucket>)
    ensures forall d: Difficulty :: d in difficultyBreakdown
              && difficultyBreakdown[d] == DifficultyBucket(history, d)
    ensures forall t: ProblemType :: t in problemTypeBreakdown
              && problemTypeBreakdown[t] == ProblemTypeBucket(history, t)
    ensures difficultyBreakdown.Keys == EmptyDifficultyBreakdown.Keys
    ensures problemTypeBreakdown.Keys == EmptyProblemTypeBreakdown.Keys
  {
    difficultyBreakdown := EmptyDifficultyBreakdown;
    problemTypeBreakdown := EmptyProblemTypeBreakdown;
    EmptyBreakdownsCoverAllKeys();
    assert history[..0] == [];
    var k := 0;
    while k < |history|
      invariant 0 <= k <= |history|
      invariant difficultyBreakdown.Keys == EmptyDifficultyBreakdown.Keys
      invariant problemTypeBreakdown.Keys == EmptyProblemTypeBreakdown.Keys
      invariant forall d: Difficulty :: d in difficultyBreakdown
                  && difficultyBreakdown[d] == DifficultyBucket(history[..k], d)
      invariant forall t: ProblemType :: t in problemTypeBreakdown
                  && problemTypeBreakdown[t] == ProblemTypeBucket(history[..k], t)
    {
      BucketsStep(history, k);
      difficultyBreakdown := TallyDifficulty(difficultyBreakdown, history[k]);
      problemTypeBreakdown := TallyProblemType(problemTypeBreakdown, history[k]);
      k := k + 1;
    }
    assert history[..|history|] == history;
  }

  /** The difficulty half of one `forEach` step: `++` on the entry the key selects, if any. */
  method TallyDifficulty(breakdown: map<Difficulty, Bucket>, item: HistoryItem)
    returns (updated: map<Difficulty, Bucket>)
    requires breakdown.Keys == EmptyDifficultyBreakdown.Keys
    ensures updated.Keys == breakdown.Keys
    ensures forall d: Difficulty :: d in updated && updated[d] ==
              if DifficultyKey(item.difficulty) == Some(d) then Counted(breakdown[d], item.isCorrect) else breakdown[d]
  {
    EmptyBreakdownsCoverAllKeys();
    updated := breakdown;
    match DifficultyKey(item.difficulty) {
      case Some(d) =>
        var b := updated[d].(total := updated[d].total + 1);
        if item.isCorrect {
          b := b.(correct := b.correct + 1);
        }
        updated := updated[d := b];
      case None =>
    }
  }

  /** The operation half of one `forEach` step. */
  method TallyProblemType(breakdown: map<ProblemType, Bucket>, item: HistoryItem)
    returns (updated: map<ProblemType, Bucket>)
    requires breakdown.Keys == EmptyProblemTypeBreakdown.Keys
    ensures updated.Keys == breakdown.Keys
    ensures forall t: ProblemType :: t in updated && updated[t] ==
              if ProblemTypeKey(item.problemType) == Some(t) then Counted(breakdown[t], item.isCorrect) else breakdown[t]
  {
    EmptyBreakdownsCoverAllKeys();
    updated := breakdown;
    match ProblemTypeKey(item.problemType) {
      case Some(t) =>
        var b := updated[t].(total := updated[t].total + 1);
        if item.isCorrect {
          b := b.(correct := b.correct + 1);
        }
        updated := updated[t := b];
      case None =>
    }
  }

  /** The reverse `for` scan that computes the current and the best streak. */
  method ScanStreaks(history: seq<HistoryItem>) returns (currentStreak: nat, bestStreak: nat)
    ensures currentStreak == CurrentStreakAsWritten(history)
    ensures bestStreak == LongestRun(history)
  {
    var tempStreak := 0;
    currentStreak, bestStreak := 0, 0;
    var i := |history| - 1;
    while i >= 0
      invariant -1 <= i < |history|
      invariant tempStreak == LeadingRun(history[i + 1..])
      invariant bestStreak == LongestRun(history[i + 1..])
      invariant currentStreak == if i < |history| - 1 then CurrentStreakAsWritten(history) else 0
    {
      assert history[i..][1..] == history[i + 1..];
      if history[i].isCorrect {
        tempStreak := tempStreak + 1;
        if i == |history| - 1 {
          currentStreak := tempStreak;
        }
        bestStreak := Max(bestStreak, tempStreak);
      } else {
        tempStreak := 0;
      }
      i := i - 1;
    }
    assert history[0..] == history;
  }

  // ---------------------------------------------------------------------------
  // Properties of the statistics

  /** No breakdown entry counts more correct answers than attempts. */
  lemma {:induction false} BucketsAreConsistent(h: seq<HistoryItem>, d: Difficulty, t: ProblemType)
    ensures DifficultyBucket(h, d).correct <= DifficultyBucket(h, d).total
    ensures ProblemTypeBucket(h, t).correct <= ProblemTypeBucket(h, t).total
  {
    if h != [] {
      BucketsAreConsistent(h[..|h| - 1], d, t);
    }
  }

  function DifficultyTotal(h: seq<HistoryItem>): nat {
    DifficultyBucket(h, Easy).total + DifficultyBucket(h, Medium).total + DifficultyBucket(h, Hard).total
  }

  function DifficultyCorrect(h: seq<HistoryItem>): nat {
    DifficultyBucket(h, Easy).correct + DifficultyBucket(h, Medium).correct + DifficultyBucket(h, Hard).correct
  }

  function ProblemTypeTotal(h: seq<HistoryItem>): nat {
    ProblemTypeBucket(h, Addition).total + ProblemTypeBucket(h, Subtraction).total
      + ProblemTypeBucket(h, Multiplication).total + ProblemTypeBucket(h, Division).total
      + ProblemTypeBucket(h, Mixed).total
  }

  function ProblemTypeCorrect(h: seq<HistoryItem>): nat {
    ProblemTypeBucket(h, Addition).correct + ProblemTypeBucket(h, Subtraction).correct
      + ProblemTypeBucket(h, Multiplication).correct + ProblemTypeBucket(h, Division).correct
      + ProblemTypeBucket(h, Mixed).correct
  }

  lemma {:induction false} CountCorrectLast(h: seq<HistoryItem>)
    requires h != []
    ensures CountCorrect(h) == CountCorrect(h[..|h| - 1]) + if h[|h| - 1].isCorrect then 1 else 0
  {
    if |h| > 1 {
      assert h[1..][..|h[1..]| - 1] == h[..|h| - 1][1..];
      CountCorrectLast(h[1..]);
    }
  }

  /**
   * Every attempt falls into exactly one difficulty entry or is skipped as unknown,
   * so the entries' totals add up to the history length minus the skipped items,
   * and their correct answers to at most the overall correct count.
   */
  lemma {:induction false} DifficultyBreakdownPartitions(h: seq<HistoryItem>)
    ensures DifficultyTotal(h) + UnknownDifficulties(h) == |h|
    ensures DifficultyCorrect(h) <= CountCorrect(h)
  {
    if h != [] {
      DifficultyBreakdownPartitions(h[..|h| - 1]);
      CountCorrectLast(h);
    }
  }

  /** The same partition for the operation entries. */
  lemma {:induction false} ProblemTypeBreakdownPartitions(h: seq<HistoryItem>)
    ensures ProblemTypeTotal(h) + UnknownProblemTypes(h) == |h|
    ensures ProblemTypeCorrect(h) <= CountCorrect(h)
  {
    if h != [] {
      ProblemTypeBreakdownPartitions(h[..|h| - 1]);
      CountCorrectLast(h);
    }
  }

  /** When every key is known, the breakdowns account for every attempt. */
  lemma {:induction false} KnownKeysAreAllCounted(h: seq<HistoryItem>)
    requires forall i :: 0 <= i < |h| ==> DifficultyKey(h[i].difficulty).Some?
    requires forall i :: 0 <= i < |h| ==> ProblemTypeKey(h[i].problemType).Some?
    ensures DifficultyTotal(h) == |h|
    ensures ProblemTypeTotal(h) == |h|
  {
    if h != [] {
      KnownKeysAreAllCounted(h[..|h| - 1]);
    }
    DifficultyBreakdownPartitions(h);
    ProblemTypeBreakdownPartitions(h);
  }

  /** A run of len consecutive correct answers starts at index lo of h. */
  predicate RunAt(h: seq<HistoryItem>, lo: nat, len: nat) {
    lo + len <= |h| && forall i :: lo <= i < lo + len ==> h[i].isCorrect
  }

  lemma {:induction false} LeadingRunIsRun(h: seq<HistoryItem>)
    ensures RunAt(h, 0, LeadingRun(h))
  {
    if h != [] && h[0].isCorrect {
      LeadingRunIsRun(h[1..]);
      forall i | 0 <= i < LeadingRun(h) ensures h[i].isCorrect {
        if i > 0 { assert h[i] == h[1..][i - 1]; }
      }
    }
  }

  lemma {:induction false} LeadingRunIsMaximal(h: seq<HistoryItem>, len: nat)
    requires RunAt(h, 0, len)
    ensures len <= LeadingRun(h)
  {
    if len > 0 {
      assert h[0].isCorrect;
      assert RunAt(h[1..], 0, len - 1) by {
        forall i | 0 <= i < len - 1 ensures h[1..][i].isCorrect {
          assert h[1..][i] == h[i + 1];
        }
      }
      LeadingRunIsMaximal(h[1..], len - 1);
    }
  }

  lemma {:induction false} LongestRunBounds(h: seq<HistoryItem>, lo: nat, len: nat)
    requires RunAt(h, lo, len)
    ensures len <= LongestRun(h)
  {
    if lo == 0 {
      LeadingRunIsMaximal(h, len);
    } else {
      assert RunAt(h[1..], lo - 1, len) by {
        forall i | lo - 1 <= i < lo - 1 + len ensures h[1..][i].isCorrect {
          assert h[1..][i] == h[i + 1];
        }
      }
      LongestRunBounds(h[1..], lo - 1, len);
    }
  }

  lemma {:induction false} LongestRunIsAttained(h: seq<HistoryItem>) returns (lo: nat)
    ensures RunAt(h, lo, LongestRun(h))
  {
    if h == [] {
      lo := 0;
    } else if LongestRun(h[1..]) <= LeadingRun(h) {
      LeadingRunIsRun(h);
      lo := 0;
    } else {
      var lo' := LongestRunIsAttained(h[1..]);
      lo := lo' + 1;
      forall i | lo <= i < lo + LongestRun(h) ensures h[i].isCorrect {
        assert h[i] == h[1..][i - 1];
      }
    }
  }

  /** `bestStreak` is the length of the longest run of consecutive correct answers. */
  lemma BestStreakIsLongestRun(h: seq<HistoryItem>)
    ensures forall lo: nat, len: nat :: RunAt(h, lo, len) ==> len <= LongestRun(h)
    ensures exists lo: nat :: RunAt(h, lo, LongestRun(h))
  {
    forall lo: nat, len: nat | RunAt(h, lo, len) ensures len <= LongestRun(h) {
      LongestRunBounds(h, lo, len);
    }
    var lo := LongestRunIsAttained(h);
  }

  lemma {:induction false} LeadingRunAtMostCorrect(h: seq<HistoryItem>)
    ensures LeadingRun(h) <= CountCorrect(h)
  {
    if h != [] {
      LeadingRunAtMostCorrect(h[1..]);
    }
  }

  /**
   * The current streak is 1 exactly when the newest attempt is correct, and
   * current streak <= best streak <= correct answers <= attempts.
   */
  lemma {:induction false} StreakBounds(h: seq<HistoryItem>)
    ensures CurrentStreakAsWritten(h) <= 1
    ensures CurrentStreakAsWritten(h) == 1 <==> |h| > 0 && h[|h| - 1].isCorrect
    ensures CurrentStreakAsWritten(h) <= LongestRun(h)
    ensures LongestRun(h) <= CountCorrect(h) <= |h|
  {
    if h != [] {
      StreakBounds(h[1..]);
      LeadingRunAtMostCorrect(h);
      if h[|h| - 1].isCorrect {
        LongestRunBounds(h, |h| - 1, 1);
      }
    }
  }

  // ---------------------------------------------------------------------------
  // The current streak the dashboard evidently means

  /** As written, two correct answers in a row still show a current streak of 1. */
  lemma CurrentStreakStopsAtOne(x: HistoryItem)
    requires x.isCorrect
    ensures CurrentStreakAsWritten([x, x]) == 1
    ensures TrailingRun([x, x]) == 2
  {
    assert [x][..0] == [];
    assert TrailingRun([x]) == 1;
    assert [x, x][..1] == [x];
    assert [x, x][1].isCorrect;
  }

  /**
   * TrailingRun counts the correct answers ending at the newest attempt: they form
   * a run, the attempt before them (if any) is wrong, and the run is no longer than
   * the best streak. The as-written value is that count capped at 1.
   */
  lemma {:induction false} TrailingRunIsCurrentRun(h: seq<HistoryItem>)
    ensures TrailingRun(h) <= |h|
    ensures RunAt(h, |h| - TrailingRun(h), TrailingRun(h))
    ensures TrailingRun(h) < |h| ==> !h[|h| - 1 - TrailingRun(h)].isCorrect
    ensures TrailingRun(h) <= LongestRun(h)
    ensures CurrentStreakAsWritten(h) == if TrailingRun(h) == 0 then 0 else 1
  {
    if h != [] && h[|h| - 1].isCorrect {
      var p := h[..|h| - 1];
      TrailingRunIsCurrentRun(p);
      forall i | |h| - TrailingRun(h) <= i < |h| ensures h[i].isCorrect {
        if i < |h| - 1 { assert h[i] == p[i]; }
      }
      if TrailingRun(h) < |h| {
        assert h[|h| - 1 - TrailingRun(h)] == p[|p| - 1 - TrailingRun(p)];
      }
    }
    LongestRunBounds(h, |h| - TrailingRun(h), TrailingRun(h));
  }

  // ---------------------------------------------------------------------------
  // Display helpers

  /** A breakdown entry's accuracy as the dashboard shows it. */
  function BucketAccuracy(b: Bucket): (r: nat)
    ensures b.total == 0 ==> r == 0
    ensures b.correct <= b.total ==> r <= 100
    ensures 0 < b.total == b.correct ==> r == 100
    // otherwise it is the rounded percentage of correct attempts
    ensures b.total > 0 ==> r == Accuracy(b.correct, b.total)
  {
    if b.total == 0 then 0
    else
      AccuracyAtMost100(b.correct, b.total);
      AccuracyExtremes(b.total);
      Accuracy(b.correct, b.total)
  }

  const UnknownDifficultyColor := "text-gray-600 dark:text-gray-400"
  const UnknownDifficultyIcon := "\U{26AA}"

  /** `getDifficultyColor`: a colour class per difficulty key, grey for anything else. */
  function DifficultyColor(difficulty: string): (r: string)
    ensures DifficultyKey(difficulty).None? ==> r == UnknownDifficultyColor
  {
    match DifficultyKey(difficulty)
    case Some(Easy) => "text-green-600 dark:text-green-400"
    case Some(Medium) => "text-yellow-600 dark:text-yellow-400"
    case Some(Hard) => "text-red-600 dark:text-red-400"
    case None => UnknownDifficultyColor
  }

  /** `getDifficultyIcon`: a coloured circle per difficulty key, white for anything else. */
  function DifficultyIcon(difficulty: string): (r: string)
    ensures DifficultyKey(difficulty).None? ==> r == UnknownDifficultyIcon
  {
    match DifficultyKey(difficulty)
    case Some(Easy) => "\U{1F7E2}"
    case Some(Medium) => "\U{1F7E1}"
    case Some(Hard) => "\U{1F534}"
    case None => UnknownDifficultyIcon
  }

  /** Two difficulties get the same colour, and the same icon, exactly when they select the same key. */
  lemma DifficultyStylesDistinguishKeys(a: string, b: string)
    ensures DifficultyColor(a) == DifficultyColor(b) <==> DifficultyKey(a) == DifficultyKey(b)
    ensures DifficultyIcon(a) == DifficultyIcon(b) <==> DifficultyKey(a) == DifficultyKey(b)
  {
    var colors := ["text-green-600 dark:text-green-400", "text-yellow-600 dark:text-yellow-400",
                   "text-red-600 dark:text-red-400", UnknownDifficultyColor];
    assert colors[0][5] == 'g' && colors[1][5] == 'y' && colors[2][5] == 'r' && colors[3][7] == 'a';
  }
}
