/** The risk questionnaire: eight questions, each answer worth 0..10 points,
    the total normalised by 80 and rounded half to even into a score 0..10,
    and the score bucketed into one of four investor profiles. The streamlit
    session state the pages share is a class whose fields the page scripts
    update. */
module RiskPreference {
  import opened Wrappers
  import MeanVariance

  /** A question: a radio button whose options are worth the listed points,
      or a slider over lo..hi starting at default. The option labels are
      display text and are left out; a radio answer is the option's index. */
  datatype Question =
    | Radio(id: string, points: seq<int>)
    | Slider(id: string, lo: int, hi: int, default: int)

  /** The eight questions in the order the page shows them. */
  function Questions(): (qs: seq<Question>)
    ensures |qs| == 8
  {
    [Radio("q1", [0, 3, 6, 10]),
     Radio("q2", [0, 3, 7, 10]),
     Radio("q3", [0, 3, 7, 10]),
     Slider("q4", 1, 10, 5),
     Radio("q5", [0, 3, 7, 10]),
     Slider("q6", 0, 100, 20),
     Radio("q7", [0, 4, 7, 10]),
     Radio("q8", [0, 4, 7, 10])]
  }

  /** max_possible */
  const MaxPossible: real := 80.0

  /** The question ids, each a different key of the answers dictionary. */
  lemma QuestionIdsDistinct()
    ensures forall i, j :: 0 <= i < j < 8 ==> Questions()[i].id != Questions()[j].id
  {
  }

  /** What the widget of a question can return: an option index of a radio
      button, or a value between the slider's bounds. */
  predicate ValidInput(q: Question, x: int)
  {
    match q
    case Radio(_, points) => 0 <= x < |points|
    case Slider(_, lo, hi, _) => lo <= x <= hi
  }

  predicate ValidInputs(inputs: seq<int>)
  {
    |inputs| == 8 && forall i :: 0 <= i < 8 ==> ValidInput(Questions()[i], inputs[i])
  }

  /** The points an answer is worth: the option's points for a radio button,
      the percentage divided by ten for q6, the slider value for q4. */
  function Points(q: Question, x: int): real
    requires ValidInput(q, x)
  {
    match q
    case Radio(_, points) => points[x] as real
    case Slider(id, _, _, _) => if id == "q6" then x as real / 10.0 else x as real
  }

  /** The most a question can be worth. */
  function MaxPoints(q: Question): real
  {
    match q
    case Radio(_, points) => if points == [] then 0.0 else points[|points| - 1] as real
    case Slider(id, _, hi, _) => if id == "q6" then hi as real / 10.0 else hi as real
  }

  /** Every answer to every question is worth between 0 and that question's
      maximum, the maximum is reached, and every maximum is 10. */
  lemma PointsBounded(k: nat, x: int)
    requires k < 8 && ValidInput(Questions()[k], x)
    ensures 0.0 <= Points(Questions()[k], x) <= MaxPoints(Questions()[k]) == 10.0
    ensures exists y :: ValidInput(Questions()[k], y) && Points(Questions()[k], y) == 10.0
  {
    var q := Questions()[k];
    match q
    case Radio(_, points) =>
      assert points[3] == 10;
      assert ValidInput(q, 3) && Points(q, 3) == 10.0;
    case Slider(id, _, hi, _) =>
      assert ValidInput(q, hi) && Points(q, hi) == 10.0;
  }

  /** The sum of the maxima of the questions from position k on. */
  function MaxFrom(k: nat): real
    requires k <= 8
    decreases 8 - k
  {
    if k == 8 then 0.0 else MaxPoints(Questions()[k]) + MaxFrom(k + 1)
  }

  /** max_possible = 80 is the sum of the eight per-question maxima. */
  lemma MaxPossibleIsSumOfMaxima()
    ensures MaxFrom(0) == MaxPossible
  {
    assert MaxFrom(8) == 0.0;
    assert MaxFrom(4) == 40.0;
  }

  /** round(): the nearest integer, a tie going to the even neighbour. */
  function RoundHalfEven(x: real): (r: int)
    ensures r as real - 0.5 <= x <= r as real + 0.5
    ensures (x == r as real - 0.5 || x == r as real + 0.5) ==> r % 2 == 0
  {
    var f := x.Floor;
    var d := x - f as real;
    if d < 0.5 then f
    else if d > 0.5 then f + 1
    else if f % 2 == 0 then f
    else f + 1
  }

  /** The rounding is the only integer with those two properties. */
  lemma RoundHalfEvenUnique(x: real, r: int)
    requires r as real - 0.5 <= x <= r as real + 0.5
    requires (x == r as real - 0.5 || x == r as real + 0.5) ==> r % 2 == 0
    ensures RoundHalfEven(x) == r
  {
  }

  /** Rounding is monotone. */
  lemma RoundHalfEvenMonotone(x: real, y: real)
    requires x <= y
    ensures RoundHalfEven(x) <= RoundHalfEven(y)
  {
  }

  /** final_score = round(total_score / max_possible * 10) */
  function FinalScore(total: real): int
  {
    RoundHalfEven(total / MaxPossible * 10.0)
  }

  /** A total between 0 and 80 gives a score between 0 and 10, and so a key
      of the risk-aversion table. */
  lemma FinalScoreInRange(total: real)
    requires 0.0 <= total <= MaxPossible
    ensures 0 <= FinalScore(total) <= 10
    ensures MeanVariance.RiskAversion(FinalScore(total)).Success?
  {
    RoundHalfEvenMonotone(0.0, total / MaxPossible * 10.0);
    RoundHalfEvenMonotone(total / MaxPossible * 10.0, 10.0);
    RoundHalfEvenUnique(0.0, 0);
    RoundHalfEvenUnique(10.0, 10);
  }

  /** Two ties: a total of 20 scores 2 (2.5 rounds down to the even 2) and a
      total of 28 scores 4 (3.5 rounds up to the even 4). */
  lemma FinalScoreTies()
    ensures FinalScore(20.0) == 2 && FinalScore(28.0) == 4
  {
    RoundHalfEvenUnique(2.5, 2);
    RoundHalfEvenUnique(3.5, 4);
  }

  /** The investor profiles. */
  datatype Profile = Conservative | Moderate | GrowthOriented | Aggressive

  function ProfileName(p: Profile): string
  {
    match p
    case Conservative => "Conservative"
    case Moderate => "Moderate"
    case GrowthOriented => "Growth-Oriented"
    case Aggressive => "Aggressive"
  }

  /** The position of a profile on the scale from cautious to bold. */
  function Rank(p: Profile): nat
  {
    match p
    case Conservative => 0
    case Moderate => 1
    case GrowthOriented => 2
    case Aggressive => 3
  }

  /** The threshold chain of the results section. */
  function Classify(score: int): (p: Profile)
    ensures p == Conservative <==> score <= 3
    ensures p == Moderate <==> 4 <= score <= 6
    ensures p == GrowthOriented <==> 7 <= score <= 8
    ensures p == Aggressive <==> 9 <= score
  {
    if score <= 3 then Conservative
    else if score <= 6 then Moderate
    else if score <= 8 then GrowthOriented
    else Aggressive
  }

  /** A higher score never gives a more cautious profile. */
  lemma ClassifyMonotone(s: int, t: int)
    requires s <= t
    ensures Rank(Classify(s)) <= Rank(Classify(t))
  {
  }

  /** st.progress(final_score / 10) is given a fraction in [0, 1]. */
  function Progress(score: int): (v: real)
    requires 0 <= score <= 10
    ensures 0.0 <= v <= 1.0
    ensures v * 10.0 == score as real
  {
    score as real / 10.0
  }

  /** The ids of the questions answered by the first n answers. */
  function IdsUpTo(n: nat): (ids: set<string>)
    requires n <= 8
  {
    set i | 0 <= i < n :: Questions()[i].id
  }

  /** The answers dictionary after the first n questions have been answered
      with inputs, starting from m. */
  function Recorded(m: map<string, real>, inputs: seq<int>, n: nat): (r: map<string, real>)
    requires ValidInputs(inputs) && n <= 8
    ensures r.Keys == m.Keys + IdsUpTo(n)
  {
    if n == 0 then m
    else Recorded(m, inputs, n - 1)[Questions()[n - 1].id := Points(Questions()[n - 1], inputs[n - 1])]
  }

  /** Each answered question's entry holds the points of its answer; every
      other entry is the one the dictionary held before. */
  lemma {:induction false} RecordedEntries(m: map<string, real>, inputs: seq<int>, n: nat)
    requires ValidInputs(inputs) && n <= 8
    ensures forall i :: 0 <= i < n ==>
              Recorded(m, inputs, n)[Questions()[i].id] == Points(Questions()[i], inputs[i])
    ensures forall s :: s in m && s !in IdsUpTo(n) ==> Recorded(m, inputs, n)[s] == m[s]
  {
    if n > 0 {
      RecordedEntries(m, inputs, n - 1);
      QuestionIdsDistinct();
    }
  }

  /** The sum of the answers of the questions from position k on. */
  function SumFrom(answers: map<string, real>, k: nat): real
    requires k <= 8 && IdsUpTo(8) <= answers.Keys
    decreases 8 - k
  {
    if k == 8 then 0.0 else answers[Questions()[k].id] + SumFrom(answers, k + 1)
  }

  /** sum(answers.values()) for a dictionary whose keys are the eight ids. */
  function TotalScore(answers: map<string, real>): real
    requires answers.Keys == IdsUpTo(8)
  {
    SumFrom(answers, 0)
  }

  /** Answers worth 0..10 each add up to a total between 0 and 80. */
  lemma {:induction false} SumFromBounded(answers: map<string, real>, k: nat)
    requires k <= 8 && IdsUpTo(8) <= answers.Keys
    requires forall s :: s in answers ==> 0.0 <= answers[s] <= 10.0
    ensures 0.0 <= SumFrom(answers, k) <= 10.0 * (8 - k) as real
    decreases 8 - k
  {
    if k < 8 {
      SumFromBounded(answers, k + 1);
    }
  }

  /** The sum of the points of the answers from position k on. */
  function PointsFrom(inputs: seq<int>, k: nat): real
    requires ValidInputs(inputs) && k <= 8
    decreases 8 - k
  {
    if k == 8 then 0.0 else Points(Questions()[k], inputs[k]) + PointsFrom(inputs, k + 1)
  }

  /** Whatever the dictionary held before, once the eight answers are stored
      its values add up to the points of those eight answers. */
  lemma TotalOfAnswers(m: map<string, real>, inputs: seq<int>)
    requires ValidInputs(inputs) && m.Keys <= IdsUpTo(8)
    ensures Recorded(m, inputs, 8).Keys == IdsUpTo(8)
    ensures TotalScore(Recorded(m, inputs, 8)) == PointsFrom(inputs, 0)
  {
    var r := Recorded(m, inputs, 8);
    assert r.Keys == IdsUpTo(8);
    RecordedEntries(m, inputs, 8);
    SumFromPoints(r, inputs, 0);
  }

  lemma {:induction false} SumFromPoints(answers: map<string, real>, inputs: seq<int>, k: nat)
    requires ValidInputs(inputs) && k <= 8 && IdsUpTo(8) <= answers.Keys
    requires forall i :: 0 <= i < 8 ==> answers[Questions()[i].id] == Points(Questions()[i], inputs[i])
    ensures SumFrom(answers, k) == PointsFrom(inputs, k)
    decreases 8 - k
  {
    if k < 8 {
      SumFromPoints(answers, inputs, k + 1);
    }
  }

  /** The state of the streamlit session as far as the risk pages use it. */
  class Session {
    var answers: map<string, real>
    var submitted: bool
    var riskScore: Option<int>
    var riskProfile: Option<Profile>

    /** Only question ids are answered, every answer is worth 0..10 points,
        and a stored score is a key of the risk-aversion table. */
    predicate Valid()
      reads this
    {
      answers.Keys <= IdsUpTo(8)
      && (forall s :: s in answers ==> 0.0 <= answers[s] <= 10.0)
      && (riskScore.Some? ==> 0 <= riskScore.value <= 10)
    }

    /** A fresh session: no answers, not submitted, no score. */
    constructor()
      ensures answers == map[] && !submitted && riskScore == None && riskProfile == None
      ensures Valid()
    {
      answers := map[];
      submitted := false;
      riskScore := None;
      riskProfile := None;
    }
  }

  /** The question loop of one run of the page: each widget's value is turned
      into points and stored under the question's id. */
  method AnswerQuestions(s: Session, inputs: seq<int>)
    requires ValidInputs(inputs) && s.Valid()
    modifies s
    ensures s.answers == Recorded(old(s.answers), inputs, 8)
    ensures s.answers.Keys == IdsUpTo(8)
    ensures s.submitted == old(s.submitted) && s.riskScore == old(s.riskScore)
    ensures s.riskProfile == old(s.riskProfile)
    ensures s.Valid()
  {
    var qs := Questions();
    for i := 0 to 8
      invariant s.answers == Recorded(old(s.answers), inputs, i)
      invariant forall t :: t in s.answers ==> 0.0 <= s.answers[t] <= 10.0
      invariant s.submitted == old(s.submitted) && s.riskScore == old(s.riskScore)
      invariant s.riskProfile == old(s.riskProfile)
    {
      PointsBounded(i, inputs[i]);
      s.answers := s.answers[qs[i].id := Points(qs[i], inputs[i])];
    }
  }

  /** The results section: the total, the score and the profile, the last two
      stored in the session. */
  method Evaluate(s: Session) returns (total: real, score: int, profile: Profile)
    requires s.Valid() && s.submitted && s.answers.Keys == IdsUpTo(8)
    modifies s
    ensures s.answers == old(s.answers) && s.submitted == old(s.submitted)
    ensures total == TotalScore(s.answers) && 0.0 <= total <= MaxPossible
    ensures score == FinalScore(total) && 0 <= score <= 10
    ensures profile == Classify(score)
    ensures s.riskScore == Some(score) && s.riskProfile == Some(profile)
    ensures s.Valid()
  {
    SumFromBounded(s.answers, 0);
    total := TotalScore(s.answers);
    score := FinalScore(total);
    FinalScoreInRange(total);
    profile := Classify(score);
    s.riskScore := Some(score);
    s.riskProfile := Some(profile);
  }

  /** "Retake Assessment": the answers are emptied and the submitted flag is
      cleared; the stored score and profile are left as they were. */
  method Retake(s: Session)
    requires s.Valid()
    modifies s
    ensures s.answers == map[] && !s.submitted
    ensures s.riskScore == old(s.riskScore) && s.riskProfile == old(s.riskProfile)
    ensures s.Valid()
  {
    s.answers := map[];
    s.submitted := false;
  }

  /** What a submitted run shows: the score, the profile and the progress bar. */
  datatype Results = Results(total: real, score: int, profile: Profile, progress: real)

  /** One run of the questionnaire page: the widgets' values are recorded, a
      click on the submit button sets the submitted flag, a submitted session
      shows its results, and a click on "Retake" then resets the answers. */
  method QuestionnaireRun(s: Session, inputs: seq<int>, submitClicked: bool, retakeClicked: bool)
    returns (shown: Option<Results>)
    requires ValidInputs(inputs) && s.Valid()
    modifies s
    ensures shown.Some? <==> (old(s.submitted) || submitClicked)
    ensures shown.Some? ==>
              var r := shown.value;
              0.0 <= r.total <= MaxPossible && 0 <= r.score <= 10
              && r.score == FinalScore(r.total)
              && r.total == PointsFrom(inputs, 0)
              && r.profile == Classify(r.score) && r.progress == Progress(r.score)
              && s.riskScore == Some(r.score) && s.riskProfile == Some(r.profile)
              && MeanVariance.RiskAversion(r.score).Success?
    ensures shown.None? ==> s.riskScore == old(s.riskScore) && s.riskProfile == old(s.riskProfile)
    ensures s.submitted <==> shown.Some? && !retakeClicked
    ensures s.answers == if shown.Some? && retakeClicked then map[] else Recorded(old(s.answers), inputs, 8)
    ensures s.Valid()
  {
    AnswerQuestions(s, inputs);
    if submitClicked {
      s.submitted := true;
    }
    if s.submitted {
      TotalOfAnswers(old(s.answers), inputs);
      assert TotalScore(s.answers) == PointsFrom(inputs, 0);
      var total, score, profile := Evaluate(s);
      assert total == PointsFrom(inputs, 0);
      FinalScoreInRange(total);
      shown := Some(Results(total, score, profile, Progress(score)));
      if retakeClicked {
        Retake(s);
      }
    } else {
      shown := None;
    }
  }
}
