/** The risk-level page: the stored risk score (5 when none is stored) is
    shown on a slider 0..10, the slider's value becomes the stored score, and
    the page shows the profile, a progress bar and an advice box for it. */
module ErcPage {
  import opened Wrappers
  import opened RiskPreference
  import MeanVariance

  /** The score a session without one starts from. */
  const DefaultScore: int := 5

  /** The profile chain of the page, written out separately from the
      questionnaire's. */
  function PageProfile(score: int): Profile
  {
    if score <= 3 then Conservative
    else if score <= 6 then Moderate
    else if score <= 8 then GrowthOriented
    else Aggressive
  }

  /** The page uses the questionnaire's thresholds. */
  lemma PageProfileIsClassify(score: int)
    ensures PageProfile(score) == Classify(score)
  {
  }

  /** The kind of message box the advice is shown in. */
  datatype Box = Info | Warning | Error

  /** The advice box: its kind and the profile its text describes. */
  datatype Advice = Advice(box: Box, about: Profile)

  /** The advice chain of the page. */
  function AdviceFor(score: int): (a: Advice)
    ensures a.box == Info <==> score <= 6
    ensures a.box == Warning <==> 7 <= score <= 8
    ensures a.box == Error <==> 9 <= score
  {
    if score <= 3 then Advice(Info, Conservative)
    else if score <= 6 then Advice(Info, Moderate)
    else if score <= 8 then Advice(Warning, GrowthOriented)
    else Advice(Error, Aggressive)
  }

  /** The advice always speaks of the profile the page displays. */
  lemma AdviceMatchesProfile(score: int)
    ensures AdviceFor(score).about == PageProfile(score)
  {
  }

  /** What a run of the page shows. */
  datatype View = View(score: int, profile: Profile, progress: real, advice: Advice)

  /** One run of the page. slider is the value the slider widget returns, an
      integer between its bounds 0 and 10. */
  method ErcPageRun(s: Session, slider: int) returns (view: View)
    requires s.Valid() && 0 <= slider <= 10
    modifies s
    ensures s.riskScore == Some(slider)
    ensures s.riskProfile == Some(Classify(slider))
    ensures s.answers == old(s.answers) && s.submitted == old(s.submitted)
    ensures view.score == slider && view.profile == Classify(slider)
    ensures view.progress == Progress(slider) && 0.0 <= view.progress <= 1.0
    ensures view.advice.about == view.profile
    ensures MeanVariance.RiskAversion(view.score).Success?
    ensures s.Valid()
  {
    if s.riskScore.None? {
      s.riskScore := Some(DefaultScore);
    }
    if slider != s.riskScore.value {
      s.riskScore := Some(slider);
    }
    var score := s.riskScore.value;
    var profile := PageProfile(score);
    PageProfileIsClassify(score);
    s.riskProfile := Some(profile);
    AdviceMatchesProfile(score);
    view := View(score, profile, Progress(score), AdviceFor(score));
  }

  /** The slider's starting position: the stored score, or 5 for a session
      without one. */
  function SliderStart(stored: Option<int>): int
  {
    if stored.None? then DefaultScore else stored.value
  }

  /** A valid session's slider starts inside the slider's bounds, in the
      middle of them when no score is stored yet. */
  lemma SliderStartInRange(s: Session)
    requires s.Valid()
    ensures 0 <= SliderStart(s.riskScore) <= 10
    ensures s.riskScore.None? ==> SliderStart(s.riskScore) == 5
  {
  }
}
