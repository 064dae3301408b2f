/** The domain model: the kinds of learning content, a learning step, a
    learning path and the user's profile. */
module Types {
  import opened Wrappers

  /** The five kinds of content a step can be, in declaration order. */
  datatype LearningStepType = Video | Text | Interactive | Project | Mentorship

  /** The enumeration's declaration order, which is also the order of its
      values. */
  const AllStepTypes: seq<LearningStepType> := [Video, Text, Interactive, Project, Mentorship]

  /** The string each enumeration member stands for. */
  function StepTypeName(t: LearningStepType): string
  {
    match t
    case Video => "VIDEO"
    case Text => "TEXT"
    case Interactive => "INTERACTIVE"
    case Project => "PROJECT"
    case Mentorship => "MENTORSHIP"
  }

  /** The member whose string is `s`, if there is one. */
  function ParseStepType(s: string): (r: Option<LearningStepType>)
    ensures r.Some? ==> StepTypeName(r.value) == s
    ensures r.None? ==> forall t: LearningStepType :: StepTypeName(t) != s
  {
    if s == "VIDEO" then Some(Video)
    else if s == "TEXT" then Some(Text)
    else if s == "INTERACTIVE" then Some(Interactive)
    else if s == "PROJECT" then Some(Project)
    else if s == "MENTORSHIP" then Some(Mentorship)
    else None
  }

  /** Every member is listed once, and distinct members have distinct strings,
      so a step type and its string determine each other. */
  lemma StepTypeNamesRoundTrip(t: LearningStepType)
    ensures ParseStepType(StepTypeName(t)) == Some(t)
    ensures t in AllStepTypes
    ensures forall i, j :: 0 <= i < j < |AllStepTypes| ==> AllStepTypes[i] != AllStepTypes[j]
  {
  }

  /** One unit of a learning path. */
  datatype LearningStep = LearningStep(
    title: string,
    description: string,
    stepType: LearningStepType,
    duration: string,
    isPro: bool)

  /** A titled, ordered sequence of steps. */
  datatype LearningPath = LearningPath(
    title: string,
    description: string,
    steps: seq<LearningStep>)

  /** What the questionnaire collects; `skills` is meant as a set but is held
      as an array. */
  datatype UserProfile = UserProfile(
    name: string,
    currentRole: string,
    careerGoal: string,
    skills: seq<string>)
}
