/** The learning-path generation client: the prompt built from a profile, the
    output schema declared to the service, the post-processing of the reply
    (trim, empty check, `JSON.parse`, top-level shape check) and the mapping of
    every failure to a user-facing message. The service call itself and
    `JSON.parse` are parameters: `service` maps the prompt to what the call
    produced, `parse` maps the trimmed text to what `JSON.parse` produced,
    and `isSpace` is the whitespace set of `String.prototype.trim`. */
module GeminiService {
  import opened Wrappers
  import opened Json
  import opened JsText
  import opened Types

  // ---------------------------------------------------------------------
  // Messages

  // Each message is the client's text, written in short concatenated pieces.

  /** Thrown inside the client when the trimmed reply is empty. */
  const EmptyReplyMessage: string := "Received an empty " + "response from the AI."

  /** Thrown inside the client when `title` or `steps` is unusable. */
  const MissingFieldsMessage: string :=
    "AI response is " + "missing required " + "fields 'title' " + "or 'steps'."

  /** Surfaced when the caught error's message includes "json". */
  const FormatMessage: string :=
    "Failed to generate " + "a valid learning " + "path. The AI's " + "response was not " + "in the correct " + "format. Please " + "try again."

  /** Surfaced for every other caught error. */
  const GenericMessage: string :=
    "An unexpected error " + "occurred while " + "generating your " + "learning path. " + "Please check your " + "API key and try " + "again later."

  /** None of the fixed messages the client itself produces mentions "json". */
  lemma FixedMessagesLackJson()
    ensures !Includes(EmptyReplyMessage, "json")
    ensures !Includes(MissingFieldsMessage, "json")
    ensures !Includes(NullPropertyMessage("title"), "json")
    ensures !Includes(FormatMessage, "json") && !Includes(GenericMessage, "json")
  {
    EmptyReplyMessageLacksJson();
    MissingFieldsMessageLacksJson();
    NullTitleMessageLacksJson();
    FormatMessageLacksJson();
    GenericMessageLacksJson();
  }

  lemma EmptyReplyMessageLacksJson()
    ensures !Includes(EmptyReplyMessage, "json")
  {
    NoJNoJson(EmptyReplyMessage);
  }

  lemma MissingFieldsMessageLacksJson()
    ensures !Includes(MissingFieldsMessage, "json")
  {
    NoJNoJson(MissingFieldsMessage);
  }

  lemma NullTitleMessageLacksJson()
    ensures !Includes(NullPropertyMessage("title"), "json")
  {
    NoJNoJson(NullPropertyMessage("title"));
  }

  lemma FormatMessageLacksJson()
    ensures !Includes(FormatMessage, "json")
  {
    NoJNoJson(FormatMessage);
  }

  lemma GenericMessageLacksJson()
    ensures !Includes(GenericMessage, "json")
  {
    NoJNoJson(GenericMessage);
  }

  // ---------------------------------------------------------------------
  // The declared output schema

  /** `Object.values(LearningStepType)`: the values allowed for a step's
      `type`. */
  function StepTypeEnum(): (r: seq<string>)
    ensures |r| == |AllStepTypes|
    ensures forall i :: 0 <= i < |r| ==> r[i] == StepTypeName(AllStepTypes[i])
  {
    seq(|AllStepTypes|, i requires 0 <= i < |AllStepTypes| => StepTypeName(AllStepTypes[i]))
  }

  /** The properties every step object must carry. */
  const StepRequired: seq<string> := ["title", "description", "type", "duration", "isPro"]

  /** The properties the reply object must carry. */
  const PathRequired: seq<string> := ["title", "description", "steps"]

  /** The enumeration in the schema is exactly the five step types' strings:
      every string in it names a step type, every step type is in it, and no
      string is repeated. */
  lemma {:induction false} SchemaEnumIsStepTypes()
    ensures |StepTypeEnum()| == 5
    ensures forall s :: s in StepTypeEnum() ==> ParseStepType(s).Some?
    ensures forall t: LearningStepType :: StepTypeName(t) in StepTypeEnum()
    ensures forall i, j :: 0 <= i < j < |StepTypeEnum()| ==> StepTypeEnum()[i] != StepTypeEnum()[j]
  {
    var e := StepTypeEnum();
    assert e == ["VIDEO", "TEXT", "INTERACTIVE", "PROJECT", "MENTORSHIP"];
    forall t: LearningStepType ensures StepTypeName(t) in e {
      match t
      case Video => assert e[0] == StepTypeName(t);
      case Text => assert e[1] == StepTypeName(t);
      case Interactive => assert e[2] == StepTypeName(t);
      case Project => assert e[3] == StepTypeName(t);
      case Mentorship => assert e[4] == StepTypeName(t);
    }
  }

  /** A step in the form the schema describes. */
  function EncodeStep(s: LearningStep): JsonValue
  {
    JObject(map[
      "title" := JString(s.title),
      "description" := JString(s.description),
      "type" := JString(StepTypeName(s.stepType)),
      "duration" := JString(s.duration),
      "isPro" := JBool(s.isPro)])
  }

  /** A path in the form the schema describes. */
  function EncodePath(p: LearningPath): JsonValue
  {
    JObject(map[
      "title" := JString(p.title),
      "description" := JString(p.description),
      "steps" := JArray(seq(|p.steps|, i requires 0 <= i < |p.steps| => EncodeStep(p.steps[i])))])
  }

  /** A string-valued property of an object. */
  function StringField(fields: map<string, JsonValue>, key: string): (r: Option<string>)
    ensures r.Some? <==> key in fields && fields[key].JString?
  {
    if key in fields && fields[key].JString? then Some(fields[key].s) else None
  }

  /** Reads one step against the schema: an object carrying every property in
      `StepRequired`, each of its declared type, `type` one of the enumeration's
      strings. Other properties are ignored. */
  function DecodeStep(v: JsonValue): (r: Option<LearningStep>)
    ensures r.Some? ==> v.JObject? && forall k :: k in StepRequired ==> k in v.fields
  {
    match v
    case JObject(f) =>
      if StringField(f, "title").Some? && StringField(f, "description").Some?
        && StringField(f, "type").Some? && ParseStepType(f["type"].s).Some?
        && StringField(f, "duration").Some? && "isPro" in f && f["isPro"].JBool?
      then Some(LearningStep(f["title"].s, f["description"].s, ParseStepType(f["type"].s).value,
                             f["duration"].s, f["isPro"].b))
      else None
    case _ => None
  }

  /** Reads every item of an array as a step; fails if any item does not conform. */
  function DecodeSteps(items: seq<JsonValue>): (r: Option<seq<LearningStep>>)
    ensures r.Some? ==> |r.value| == |items|
    ensures r.Some? ==> forall i :: 0 <= i < |items| ==> DecodeStep(items[i]) == Some(r.value[i])
    ensures r.None? ==> exists i :: 0 <= i < |items| && DecodeStep(items[i]).None?
  {
    if items == [] then Some([])
    else match (DecodeStep(items[0]), DecodeSteps(items[1..]))
      case (Some(s), Some(rest)) =>
        var r := [s] + rest;
        assert forall i :: 1 <= i < |items| ==> items[i] == items[1..][i - 1];
        Some(r)
      case (None, _) => None
      case (_, None) =>
        var i :| 0 <= i < |items[1..]| && DecodeStep(items[1..][i]).None?;
        assert DecodeStep(items[i + 1]).None?;
        None
  }

  /** Reads a whole reply value against the schema. */
  function DecodePath(v: JsonValue): (r: Option<LearningPath>)
    ensures r.Some? ==> v.JObject? && forall k :: k in PathRequired ==> k in v.fields
  {
    match v
    case JObject(f) =>
      if StringField(f, "title").Some? && StringField(f, "description").Some?
        && "steps" in f && f["steps"].JArray? && DecodeSteps(f["steps"].items).Some?
      then Some(LearningPath(f["title"].s, f["description"].s, DecodeSteps(f["steps"].items).value))
      else None
    case _ => None
  }

  /** A reply value the schema admits. */
  predicate ConformsToSchema(v: JsonValue)
  {
    DecodePath(v).Some?
  }

  lemma DecodeEncodeStep(s: LearningStep)
    ensures DecodeStep(EncodeStep(s)) == Some(s)
  {
    StepTypeNamesRoundTrip(s.stepType);
  }

  /** Every path, written in the schema's form, reads back as itself. */
  lemma {:induction false} DecodeEncodePath(p: LearningPath)
    ensures DecodePath(EncodePath(p)) == Some(p)
  {
    var items := seq(|p.steps|, i requires 0 <= i < |p.steps| => EncodeStep(p.steps[i]));
    DecodeEncodeSteps(p.steps, items);
  }

  lemma {:induction false} DecodeEncodeSteps(steps: seq<LearningStep>, items: seq<JsonValue>)
    requires |items| == |steps|
    requires forall i :: 0 <= i < |steps| ==> items[i] == EncodeStep(steps[i])
    ensures DecodeSteps(items) == Some(steps)
  {
    if steps != [] {
      DecodeEncodeStep(steps[0]);
      DecodeEncodeSteps(steps[1..], items[1..]);
      assert steps == [steps[0]] + steps[1..];
    }
  }

  // ---------------------------------------------------------------------
  // The prompt

  const PromptOpening: string :=
    "\n    Analyze the following user profile and generate a personalized upskilling learning path based on current job market trends.\n"
    + "    The user wants to transition from their current role to their desired career goal.\n"
    + "    The path should be broken down into clear, actionable steps with various content types.\n"
    + "    Some steps, especially advanced ones like real-world projects or mentorship, should be marked as 'Pro' content.\n"
    + "\n    User Profile:\n    - Current Role: "
  const PromptGoalLabel: string := "\n    - Career Goal: "
  const PromptSkillsLabel: string := "\n    - Existing Skills: "
  const PromptClosing: string :=
    "\n\n    Generate a response in JSON format that strictly follows the provided schema.\n"
    + "    The learning path should be realistic and highly relevant to achieving the user's career goal.\n"
    + "    Ensure the descriptions are concise and motivational.\n  "

  /** The instruction sent to the service. It embeds the current role, the
      career goal and every skill (joined with ", "); it always opens and
      closes with the fixed instruction text. */
  function Prompt(profile: UserProfile): (r: string)
    ensures Includes(r, profile.currentRole)
    ensures Includes(r, profile.careerGoal)
    ensures Includes(r, Join(profile.skills, ", "))
    ensures forall i :: 0 <= i < |profile.skills| ==> Includes(r, profile.skills[i])
    ensures |PromptOpening| + |PromptClosing| <= |r|
    ensures r[..|PromptOpening|] == PromptOpening && r[|r| - |PromptClosing|..] == PromptClosing
  {
    var skills := Join(profile.skills, ", ");
    var r := PromptOpening + profile.currentRole + PromptGoalLabel + profile.careerGoal
      + PromptSkillsLabel + skills + PromptClosing;
    TemplateEnds(PromptOpening, profile.currentRole, PromptGoalLabel, profile.careerGoal,
                 PromptSkillsLabel, skills, PromptClosing, r);
    FilledTemplateIncludes(PromptOpening, profile.currentRole, PromptGoalLabel, profile.careerGoal,
                           PromptSkillsLabel, profile.skills, PromptClosing, r);
    r
  }

  /** A template filled with a role, a goal and joined skills includes each of
      them, whatever the fixed text around them. */
  lemma FilledTemplateIncludes(opening: string, role: string, goalLabel: string, goal: string,
                               skillsLabel: string, skills: seq<string>, closing: string, r: string)
    requires r == opening + role + goalLabel + goal + skillsLabel + Join(skills, ", ") + closing
    ensures Includes(r, role)
    ensures Includes(r, goal)
    ensures Includes(r, Join(skills, ", "))
    ensures forall i :: 0 <= i < |skills| ==> Includes(r, skills[i])
  {
    var joined := Join(skills, ", ");
    IncludesSelf(joined);
    IncludesExtend(joined, joined, opening + role + goalLabel + goal + skillsLabel, "");
    IncludesExtend(opening + role + goalLabel + goal + skillsLabel + joined, joined, "", closing);
    IncludesSelf(role);
    IncludesExtend(role, role, opening, "");
    IncludesExtend(opening + role, role, "", goalLabel);
    IncludesExtend(opening + role + goalLabel, role, "", goal);
    IncludesExtend(opening + role + goalLabel + goal, role, "", skillsLabel);
    IncludesExtend(opening + role + goalLabel + goal + skillsLabel, role, "", joined);
    IncludesExtend(opening + role + goalLabel + goal + skillsLabel + joined, role, "", closing);
    IncludesSelf(goal);
    IncludesExtend(goal, goal, opening + role + goalLabel, "");
    IncludesExtend(opening + role + goalLabel + goal, goal, "", skillsLabel);
    IncludesExtend(opening + role + goalLabel + goal + skillsLabel, goal, "", joined);
    IncludesExtend(opening + role + goalLabel + goal + skillsLabel + joined, goal, "", closing);
    forall i | 0 <= i < |skills| ensures Includes(r, skills[i]) {
      JoinIncludesElement(skills, ", ", i);
      IncludesExtend(joined, skills[i], opening + role + goalLabel + goal + skillsLabel, "");
      IncludesExtend(opening + role + goalLabel + goal + skillsLabel + joined, skills[i], "", closing);
    }
  }

  /** A filled template keeps its opening and closing text at its two ends. */
  lemma TemplateEnds(opening: string, role: string, goalLabel: string, goal: string,
                     skillsLabel: string, joined: string, closing: string, r: string)
    requires r == opening + role + goalLabel + goal + skillsLabel + joined + closing
    ensures |opening| + |closing| <= |r|
    ensures r[..|opening|] == opening && r[|r| - |closing|..] == closing
  {
    var middle := role + goalLabel + goal + skillsLabel + joined;
    assert r == opening + middle + closing;
    assert r[..|opening|] == (opening + middle)[..|opening|];
  }

  /** The profile's name never reaches the service: profiles that differ only
      in their name give the same prompt. */
  lemma PromptIgnoresName(profile: UserProfile, name: string)
    ensures Prompt(profile.(name := name)) == Prompt(profile)
  {
  }

  // ---------------------------------------------------------------------
  // Reply post-processing

  /** Something thrown: an `Error` instance with its message, or any other
      value. */
  datatype Thrown = ErrorObject(message: string) | NonErrorValue

  /** What the awaited service call produced: the reply's text, or a throw. */
  datatype ServiceOutcome = Replied(text: string) | CallThrew(thrown: Thrown)

  /** The top-level shape the client insists on: an object whose `title` is
      truthy and whose `steps` is an array. */
  predicate HasRequiredShape(v: JsonValue)
  {
    v.JObject? && "title" in v.fields && Truthy(v.fields["title"])
    && "steps" in v.fields && v.fields["steps"].JArray?
  }

  /** The check `!v.title || !v.steps || !Array.isArray(v.steps)`, evaluated
      left to right with short-circuiting: reading `title` of `null` throws a
      `TypeError` first, any other rejected value throws the missing-fields
      error, and an accepted value is returned as it is. */
  function CheckShape(v: JsonValue): (r: Result<JsonValue, Thrown>)
    ensures r.Ok? <==> HasRequiredShape(v)
    ensures r.Ok? ==> r.value == v
    ensures v.JNull? ==> r == Err(ErrorObject(NullPropertyMessage("title")))
    ensures !v.JNull? && !HasRequiredShape(v) ==> r == Err(ErrorObject(MissingFieldsMessage))
  {
    var title := Property(v, "title");
    if title.Throws? then Err(ErrorObject(title.message))
    else if !TruthyAccess(title) then Err(ErrorObject(MissingFieldsMessage))
    else
      var steps := Property(v, "steps");
      assert !steps.Throws?;
      if !TruthyAccess(steps) || !IsArrayAccess(steps) then Err(ErrorObject(MissingFieldsMessage))
      else Ok(v)
  }

  /** Everything the client does with the reply text inside its `try` block. */
  function PostProcess(text: string, parse: string -> ParseOutcome, isSpace: char -> bool): (r: Result<JsonValue, Thrown>)
    ensures Trim(text, isSpace) == "" ==> r == Err(ErrorObject(EmptyReplyMessage))
    ensures r.Ok? <==> Trim(text, isSpace) != "" && parse(Trim(text, isSpace)).Value?
                       && HasRequiredShape(parse(Trim(text, isSpace)).value)
    ensures r.Ok? ==> r.value == parse(Trim(text, isSpace)).value
  {
    var jsonText := Trim(text, isSpace);
    if jsonText == "" then Err(ErrorObject(EmptyReplyMessage))
    else match parse(jsonText)
      case ParseError(m) => Err(ErrorObject(m))
      case Value(v) => CheckShape(v)
  }

  /** The `catch` block: an `Error` whose message includes the lower-case
      substring "json" becomes the format message, anything else the generic
      one. */
  function Recover(e: Thrown): (r: string)
    ensures r == FormatMessage || r == GenericMessage
    ensures r == FormatMessage <==> e.ErrorObject? && Includes(e.message, "json")
  {
    if e.ErrorObject? && Includes(e.message, "json") then FormatMessage else GenericMessage
  }

  /** What the caller can rely on from a generation attempt: a returned value
      has the required shape, and a failure carries one of the two messages. */
  predicate PossibleOutcome(o: Result<JsonValue, string>)
  {
    match o
    case Ok(v) => HasRequiredShape(v)
    case Err(m) => m == FormatMessage || m == GenericMessage
  }

  /** `generateLearningPath` as written: one service call with the prompt,
      post-processing of the reply, and every failure mapped by `Recover`. */
  function GenerateLearningPath(profile: UserProfile, service: string -> ServiceOutcome,
                                parse: string -> ParseOutcome, isSpace: char -> bool): (r: Result<JsonValue, string>)
    ensures PossibleOutcome(r)
    ensures r.Ok? <==> service(Prompt(profile)).Replied? && PostProcess(service(Prompt(profile)).text, parse, isSpace).Ok?
    ensures r.Ok? ==> r.value == parse(Trim(service(Prompt(profile)).text, isSpace)).value
  {
    var attempt :=
      match service(Prompt(profile))
      case CallThrew(e) => Err(e)
      case Replied(text) => PostProcess(text, parse, isSpace);
    match attempt
    case Ok(v) => Ok(v)
    case Err(e) => Err(Recover(e))
  }

  /** The caught error's message mentions "json" in lower case: the service
      threw such an `Error`, or `JSON.parse` rejected the non-empty trimmed
      reply with such a message. */
  predicate CaughtMessageMentionsJson(reply: ServiceOutcome, parse: string -> ParseOutcome, isSpace: char -> bool)
  {
    match reply
    case CallThrew(e) => e.ErrorObject? && Includes(e.message, "json")
    case Replied(text) =>
      Trim(text, isSpace) != "" && parse(Trim(text, isSpace)).ParseError?
      && Includes(parse(Trim(text, isSpace)).message, "json")
  }

  /** The format message is surfaced exactly when the caught error mentions
      "json"; empty replies and replies with unusable fields never reach it. */
  lemma FormatMessageIffJson(profile: UserProfile, service: string -> ServiceOutcome,
                             parse: string -> ParseOutcome, isSpace: char -> bool)
    ensures GenerateLearningPath(profile, service, parse, isSpace) == Err(FormatMessage)
            <==> CaughtMessageMentionsJson(service(Prompt(profile)), parse, isSpace)
  {
    FixedMessagesLackJson();
  }

  /** A reply that is empty after trimming surfaces as the generic message,
      not the format message. */
  lemma EmptyReplySurfacesGeneric(profile: UserProfile, service: string -> ServiceOutcome,
                                  parse: string -> ParseOutcome, isSpace: char -> bool, text: string)
    requires service(Prompt(profile)) == Replied(text)
    requires forall k :: 0 <= k < |text| ==> isSpace(text[k])
    ensures GenerateLearningPath(profile, service, parse, isSpace) == Err(GenericMessage)
  {
    FixedMessagesLackJson();
  }

  /** A reply that parses but lacks a truthy `title` or an array `steps`
      (including a parsed `null`) surfaces as the generic message. */
  lemma MissingFieldsSurfaceGeneric(profile: UserProfile, service: string -> ServiceOutcome,
                                    parse: string -> ParseOutcome, isSpace: char -> bool, text: string, v: JsonValue)
    requires service(Prompt(profile)) == Replied(text)
    requires Trim(text, isSpace) != "" && parse(Trim(text, isSpace)) == Value(v)
    requires !HasRequiredShape(v)
    ensures GenerateLearningPath(profile, service, parse, isSpace) == Err(GenericMessage)
  {
    FixedMessagesLackJson();
  }

  /** The message V8 gives `JSON.parse` for a truncated document. */
  const TruncatedJsonMessage: string := "Unexpected end " + "of JSON input"

  /** A `JSON.parse` error whose message does not contain a lower-case
      "json" surfaces as the generic message. */
  lemma ParseErrorWithoutJsonSurfacesGeneric(profile: UserProfile, service: string -> ServiceOutcome,
                                             parse: string -> ParseOutcome, isSpace: char -> bool,
                                             text: string, m: string)
    requires service(Prompt(profile)) == Replied(text)
    requires Trim(text, isSpace) != "" && parse(Trim(text, isSpace)) == ParseError(m)
    requires !Includes(m, "json")
    ensures GenerateLearningPath(profile, service, parse, isSpace) == Err(GenericMessage)
  {
  }

  /** The message for a truncated document spells "JSON" in capitals only, so
      that syntax error surfaces as the generic message. */
  lemma UpperCaseJsonSurfacesGeneric(profile: UserProfile, service: string -> ServiceOutcome,
                                     parse: string -> ParseOutcome, isSpace: char -> bool, text: string)
    requires service(Prompt(profile)) == Replied(text)
    requires Trim(text, isSpace) != "" && parse(Trim(text, isSpace)) == ParseError(TruncatedJsonMessage)
    ensures GenerateLearningPath(profile, service, parse, isSpace) == Err(GenericMessage)
  {
    TruncatedJsonMessageLacksJson();
    ParseErrorWithoutJsonSurfacesGeneric(profile, service, parse, isSpace, text, TruncatedJsonMessage);
  }

  lemma TruncatedJsonMessageLacksJson()
    ensures !Includes(TruncatedJsonMessage, "json")
  {
    NoJNoJson(TruncatedJsonMessage);
  }

  /** A reply that conforms to the schema and has a non-empty title is
      accepted unchanged. */
  lemma ConformingReplyAccepted(v: JsonValue)
    requires DecodePath(v).Some? && DecodePath(v).value.title != ""
    ensures CheckShape(v) == Ok(v)
  {
  }

  /** The shape check looks at the top level only: a reply whose steps are not
      step objects at all is accepted, although the schema does not admit it,
      and a schema-conforming reply with an empty title is rejected. */
  lemma ShapeCheckIsNotSchemaCheck()
    ensures var v := JObject(map["title" := JString("X"), "steps" := JArray([JNumber(1.0)])]);
            CheckShape(v) == Ok(v) && !ConformsToSchema(v)
    ensures var p := LearningPath("", "", []);
            ConformsToSchema(EncodePath(p)) && CheckShape(EncodePath(p)).Err?
  {
    var v := JObject(map["title" := JString("X"), "steps" := JArray([JNumber(1.0)])]);
    assert "description" !in v.fields;
    DecodeEncodePath(LearningPath("", "", []));
  }

  /** A reply text that parses to the one-step path titled "UX Ascent" is
      returned as it is, and reads as that path. */
  lemma UxAscentExample(service: string -> ServiceOutcome, parse: string -> ParseOutcome,
                        isSpace: char -> bool, text: string)
    requires var profile := UserProfile("Ana", "Designer", "UX Lead", ["SQL"]);
             service(Prompt(profile)) == Replied(text) && Trim(text, isSpace) != ""
             && parse(Trim(text, isSpace)) == Value(EncodePath(UxAscent()))
    ensures var r := GenerateLearningPath(UserProfile("Ana", "Designer", "UX Lead", ["SQL"]), service, parse, isSpace);
            r == Ok(EncodePath(UxAscent()))
            && DecodePath(r.value) == Some(UxAscent())
            && DecodePath(r.value).value.title == "UX Ascent" && |DecodePath(r.value).value.steps| == 1
  {
    DecodeEncodePath(UxAscent());
  }

  function UxAscent(): LearningPath
  {
    LearningPath("UX Ascent", "...", [LearningStep("Intro to UX research", "...", Text, "1 hour", false)])
  }

  // ---------------------------------------------------------------------
  // The intended error mapping

  /** The mapping the client evidently intends, going by its comment that the
      user should get a more informative message (services/geminiService.ts:102)
      and by the format message's own wording ("the AI's response was not in
      the correct format"): failures of the call itself surface as the generic
      message, and every rejection of a reply that did arrive (empty,
      unparsable, or without the required fields) surfaces as the format
      message. */
  function GenerateLearningPathIntended(profile: UserProfile, service: string -> ServiceOutcome,
                                        parse: string -> ParseOutcome, isSpace: char -> bool): (r: Result<JsonValue, string>)
    ensures PossibleOutcome(r)
    ensures r.Ok? ==> r == GenerateLearningPath(profile, service, parse, isSpace)
    ensures r.Err? ==> GenerateLearningPath(profile, service, parse, isSpace).Err?
    ensures r.Err? ==> (r.error == FormatMessage <==> service(Prompt(profile)).Replied?)
  {
    match service(Prompt(profile))
    case CallThrew(_) => Err(GenericMessage)
    case Replied(text) =>
      match PostProcess(text, parse, isSpace)
      case Ok(v) => Ok(v)
      case Err(_) => Err(FormatMessage)
  }

  /** Under the intended mapping an empty reply gets the format message. */
  lemma IntendedEmptyReplySurfacesFormat(profile: UserProfile, service: string -> ServiceOutcome,
                                         parse: string -> ParseOutcome, isSpace: char -> bool, text: string)
    requires service(Prompt(profile)) == Replied(text)
    requires forall k :: 0 <= k < |text| ==> isSpace(text[k])
    ensures GenerateLearningPathIntended(profile, service, parse, isSpace) == Err(FormatMessage)
  {
  }
}
