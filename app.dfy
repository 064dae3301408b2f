/** The application's flow: the screen being shown, the profile being filled
    in, the generated path and the visible error, and one method per user
    action that changes them. The request to the generation service is
    atomic here: a submission either stores a path and shows the result or
    stores the failure message and returns to the skill selection. */
module App {
  import opened Wrappers
  import opened Json
  import opened Types
  import GeminiService

  /** The screens, in the order the questionnaire visits them. */
  datatype AppStep = Intro | UserInfo | Skills | Generating | Result

  /** The three text inputs of the profile form, keyed by their `name`
      attribute. */
  datatype ProfileField = Name | CurrentRole | CareerGoal

  /** Shown when the user submits without selecting a skill. */
  const SelectSkillMessage: string := "Please select at least one skill."

  /** Every error the user can see: the empty-selection message and the two
      messages of the generation client. */
  predicate IsUserMessage(m: string)
  {
    m == SelectSkillMessage || m == GeminiService.FormatMessage || m == GeminiService.GenericMessage
  }

  /** The profile the app starts with and returns to on reset. */
  function EmptyProfile(): (p: UserProfile)
    ensures p.name == "" && p.currentRole == "" && p.careerGoal == "" && p.skills == []
  {
    UserProfile("", "", "", [])
  }

  /** The "next" button is disabled while any of the three text fields is
      falsy; it is enabled exactly when all three are non-empty. */
  function CanProceed(p: UserProfile): (r: bool)
    ensures r <==> p.name != "" && p.currentRole != "" && p.careerGoal != ""
  {
    var disabled := !Truthy(JString(p.name)) || !Truthy(JString(p.currentRole))
      || !Truthy(JString(p.careerGoal));
    !disabled
  }

  /** After a reset the profile form must be filled in again before the user
      can move on. */
  lemma EmptyProfileCannotProceed()
    ensures !CanProceed(EmptyProfile())
  {
  }

  /** `handleProfileChange`: the profile with exactly one text field
      replaced. */
  function WithField(p: UserProfile, field: ProfileField, value: string): (r: UserProfile)
    ensures r.name == (if field == Name then value else p.name)
    ensures r.currentRole == (if field == CurrentRole then value else p.currentRole)
    ensures r.careerGoal == (if field == CareerGoal then value else p.careerGoal)
    ensures r.skills == p.skills
  {
    match field
    case Name => p.(name := value)
    case CurrentRole => p.(currentRole := value)
    case CareerGoal => p.(careerGoal := value)
  }

  // ---------------------------------------------------------------------
  // Skills as an insertion-ordered set

  predicate NoDuplicates(s: seq<string>)
  {
    forall i, j :: 0 <= i < j < |s| ==> s[i] != s[j]
  }

  /** The position of the first occurrence of `x` in `s`. */
  function FirstIndex(s: seq<string>, x: string): (r: nat)
    requires x in s
    ensures r < |s| && s[r] == x
    ensures forall k :: 0 <= k < r ==> s[k] != x
  {
    if s[0] == x then 0 else 1 + FirstIndex(s[1..], x)
  }

  /** Appending to a sequence keeps the first occurrence of what it held. */
  lemma FirstIndexAppendOld(p: seq<string>, last: string, x: string)
    requires x in p
    ensures FirstIndex(p + [last], x) == FirstIndex(p, x)
  {
    var f := FirstIndex(p, x);
    assert (p + [last])[f] == x;
    assert forall k :: 0 <= k < f ==> (p + [last])[k] == p[k];
  }

  /** A new element appended to a sequence first occurs at the end. */
  lemma FirstIndexAppendNew(p: seq<string>, last: string)
    requires last !in p
    ensures FirstIndex(p + [last], last) == |p|
  {
    assert forall k :: 0 <= k < |p| ==> (p + [last])[k] == p[k];
  }

  /** `Array.from(new Set(s))`: the distinct elements of `s`, each once, in
      the order of their first occurrences in `s` (see `SetFromArrayOrder`). */
  function SetFromArray(s: seq<string>): (r: seq<string>)
    ensures NoDuplicates(r)
    ensures forall x :: x in r <==> x in s
    ensures NoDuplicates(s) ==> r == s
  {
    if s == [] then []
    else
      var init := SetFromArray(s[..|s| - 1]);
      var last := s[|s| - 1];
      assert s == s[..|s| - 1] + [last];
      if last in init then
        assert !NoDuplicates(s) by {
          var k :| 0 <= k < |s| - 1 && s[k] == last;
        }
        init
      else init + [last]
  }

  /** A set built from an array enumerates its elements in the order in
      which they first occur in the array. */
  lemma {:induction false} SetFromArrayOrder(s: seq<string>)
    ensures forall i, j :: 0 <= i < j < |SetFromArray(s)| ==>
              FirstIndex(s, SetFromArray(s)[i]) < FirstIndex(s, SetFromArray(s)[j])
  {
    if s != [] {
      var p, last := s[..|s| - 1], s[|s| - 1];
      var init, r := SetFromArray(p), SetFromArray(s);
      assert s == p + [last];
      SetFromArrayOrder(p);
      forall x | x in init ensures FirstIndex(s, x) == FirstIndex(p, x) {
        FirstIndexAppendOld(p, last, x);
      }
      if last !in init {
        FirstIndexAppendNew(p, last);
        assert r == init + [last];
        forall i, j | 0 <= i < j < |r| ensures FirstIndex(s, r[i]) < FirstIndex(s, r[j]) {
          assert r[i] == init[i];
          if j < |init| {
            assert r[j] == init[j];
          }
        }
      }
    }
  }

  /** `Set.prototype.delete` on the enumeration order: `s` without `x`, the
      other elements in their order. */
  function SetDelete(s: seq<string>, x: string): (r: seq<string>)
    ensures forall y :: y in r <==> y in s && y != x
    ensures NoDuplicates(s) ==> NoDuplicates(r)
    ensures x !in s ==> r == s
  {
    if s == [] then []
    else if s[0] == x then SetDelete(s[1..], x)
    else
      var rest := SetDelete(s[1..], x);
      assert NoDuplicates(s) ==> NoDuplicates(s[1..]) && s[0] !in rest;
      [s[0]] + rest
  }

  /** Deleting an element that occurs once, at position `i`, closes the gap. */
  lemma {:induction false} SetDeleteAt(s: seq<string>, i: nat)
    requires NoDuplicates(s) && i < |s|
    ensures SetDelete(s, s[i]) == s[..i] + s[i + 1..]
  {
    if i == 0 {
      assert s[0] !in s[1..];
    } else {
      var t := s[1..];
      NoDuplicatesTail(s);
      assert t[i - 1] == s[i] && s[0] != s[i];
      SetDeleteAt(t, i - 1);
      GapAfterHead(s, i);
    }
  }

  lemma NoDuplicatesTail(s: seq<string>)
    requires NoDuplicates(s) && s != []
    ensures NoDuplicates(s[1..])
  {
    forall a, b | 0 <= a < b < |s| - 1 ensures s[1..][a] != s[1..][b] {
      assert s[1..][a] == s[a + 1] && s[1..][b] == s[b + 1];
    }
  }

  lemma GapAfterHead(s: seq<string>, i: nat)
    requires 0 < i < |s|
    ensures s[..i] + s[i + 1..] == [s[0]] + (s[1..][..i - 1] + s[1..][i..])
  {
    assert s[..i] == [s[0]] + s[1..][..i - 1];
    assert s[i + 1..] == s[1..][i..];
  }

  /** Deleting an element held once leaves the list with that one position cut out. */
  lemma DeleteClosesGap(s: seq<string>, x: string)
    requires NoDuplicates(s) && x in s
    ensures exists i :: 0 <= i < |s| && s[i] == x && SetDelete(s, x) == s[..i] + s[i + 1..]
  {
    var i :| 0 <= i < |s| && s[i] == x;
    SetDeleteAt(s, i);
  }

  /** `handleSkillToggle` on the skill list: a selected skill is removed, any
      other is appended at the end; every other skill keeps its membership and
      the result never repeats a skill. */
  function ToggledSkills(skills: seq<string>, skill: string): (r: seq<string>)
    ensures skill in r <==> skill !in skills
    ensures forall x :: x != skill ==> (x in r <==> x in skills)
    ensures NoDuplicates(r)
    ensures NoDuplicates(skills) && skill !in skills ==> r == skills + [skill]
    ensures NoDuplicates(skills) && skill in skills ==>
              exists i :: 0 <= i < |skills| && skills[i] == skill && r == skills[..i] + skills[i + 1..]
  {
    var newSkills := SetFromArray(skills);
    if skill in newSkills then
      assert NoDuplicates(skills) ==>
               exists i :: 0 <= i < |skills| && skills[i] == skill
                             && SetDelete(skills, skill) == skills[..i] + skills[i + 1..] by {
        if NoDuplicates(skills) {
          DeleteClosesGap(skills, skill);
        }
      }
      SetDelete(newSkills, skill)
    else newSkills + [skill]
  }

  /** Toggling a skill twice restores which skills are selected. */
  lemma ToggleTwiceRestoresSelection(skills: seq<string>, skill: string)
    ensures forall x :: x in ToggledSkills(ToggledSkills(skills, skill), skill) <==> x in skills
  {
  }

  /** When the skill was not selected, toggling it twice restores the exact
      list: it is appended, then removed from the end. */
  lemma {:induction false} ToggleTwiceAbsentRestoresList(skills: seq<string>, skill: string)
    requires NoDuplicates(skills) && skill !in skills
    ensures ToggledSkills(ToggledSkills(skills, skill), skill) == skills
  {
    var once := ToggledSkills(skills, skill);
    assert once == skills + [skill];
    assert once[|skills|] == skill;
    SetDeleteAt(once, |skills|);
    assert once[..|skills|] == skills;
  }

  /** When the skill was selected and not last, toggling it twice moves it to
      the end: the selection is restored but not the list. */
  lemma ToggleTwicePresentReorders()
    ensures ToggledSkills(ToggledSkills(["a", "b"], "a"), "a") == ["b", "a"]
  {
    assert NoDuplicates(["a", "b"]);
    var once := ToggledSkills(["a", "b"], "a");
    assert once == ["b"];
    assert NoDuplicates(once) && "a" !in once;
  }

  // ---------------------------------------------------------------------
  // The application state

  class AppState {
    var step: AppStep
    var userProfile: UserProfile
    var learningPath: Option<JsonValue>
    var error: Option<string>

    /** What every user action keeps true: skills are never repeated, the
        result screen always has a path, a stored path passed the client's
        shape check, a visible error is one of the known messages, and
        (submission being atomic) the loading screen is never left showing. */
    ghost predicate Valid()
      reads this
    {
      && NoDuplicates(userProfile.skills)
      && (step == Result ==> learningPath.Some?)
      && (learningPath.Some? ==> GeminiService.HasRequiredShape(learningPath.value))
      && (error.Some? ==> IsUserMessage(error.value))
      && step != Generating
    }

    /** The initial state: intro screen, empty profile, no path, no error. */
    constructor ()
      ensures step == Intro && userProfile == EmptyProfile()
      ensures learningPath == None && error == None
      ensures Valid()
    {
      step := Intro;
      userProfile := UserProfile("", "", "", []);
      learningPath := None;
      error := None;
    }

    /** The intro screen's start button. */
    method Start()
      requires Valid() && step == Intro
      modifies this
      ensures Valid()
      ensures step == UserInfo
      ensures userProfile == old(userProfile) && learningPath == old(learningPath) && error == old(error)
    {
      step := UserInfo;
    }

    /** Typing into one of the profile form's inputs. */
    method ChangeProfile(field: ProfileField, value: string)
      requires Valid()
      modifies this
      ensures Valid()
      ensures userProfile == WithField(old(userProfile), field, value)
      ensures step == old(step) && learningPath == old(learningPath) && error == old(error)
    {
      userProfile := WithField(userProfile, field, value);
    }

    /** The profile form's next button, disabled unless all three text
        fields are filled in. */
    method Next()
      requires Valid() && step == UserInfo
      modifies this
      ensures Valid()
      ensures step == (if CanProceed(old(userProfile)) then Skills else UserInfo)
      ensures userProfile == old(userProfile) && learningPath == old(learningPath) && error == old(error)
    {
      if CanProceed(userProfile) {
        step := Skills;
      }
    }

    /** The skill screen's back button; a visible error stays. */
    method Back()
      requires Valid() && step == Skills
      modifies this
      ensures Valid()
      ensures step == UserInfo
      ensures userProfile == old(userProfile) && learningPath == old(learningPath) && error == old(error)
    {
      step := UserInfo;
    }

    /** `handleSkillToggle`: rebuilds the skill set, flips `skill` in it and
        stores it back as an array. */
    method ToggleSkill(skill: string)
      requires Valid()
      modifies this
      ensures Valid()
      ensures userProfile == old(userProfile).(skills := ToggledSkills(old(userProfile.skills), skill))
      ensures step == old(step) && learningPath == old(learningPath) && error == old(error)
    {
      var newSkills := SetFromArray(userProfile.skills);
      if skill in newSkills {
        newSkills := SetDelete(newSkills, skill);
      } else {
        newSkills := newSkills + [skill];
      }
      userProfile := userProfile.(skills := newSkills);
    }

    /** `handleSubmit`: with no skill selected only the error is set;
        otherwise the error is cleared, the loading screen entered, and the
        generation `outcome` decides between the result screen with the new
        path and the skill screen with the failure message. */
    method Submit(outcome: Result<JsonValue, string>)
      requires Valid() && step == Skills
      requires GeminiService.PossibleOutcome(outcome)
      modifies this
      ensures Valid()
      ensures userProfile == old(userProfile)
      ensures old(userProfile.skills) == [] ==>
                error == Some(SelectSkillMessage) && step == Skills && learningPath == old(learningPath)
      ensures old(userProfile.skills) != [] && outcome.Ok? ==>
                error == None && step == Result && learningPath == Some(outcome.value)
      ensures old(userProfile.skills) != [] && outcome.Err? ==>
                error == Some(outcome.error) && step == Skills && learningPath == old(learningPath)
    {
      if |userProfile.skills| == 0 {
        error := Some(SelectSkillMessage);
        return;
      }
      error := None;
      step := Generating;
      match outcome {
        case Ok(path) =>
          learningPath := Some(path);
          step := Result;
        case Err(message) =>
          error := Some(message);
          step := Skills;
      }
    }

    /** `resetApp`: back to the initial state from any screen. */
    method Reset()
      requires Valid()
      modifies this
      ensures Valid()
      ensures step == Intro && userProfile == EmptyProfile()
      ensures learningPath == None && error == None
    {
      userProfile := UserProfile("", "", "", []);
      learningPath := None;
      error := None;
      step := Intro;
    }
  }

  /** A full pass through the questionnaire with a successful generation ends
      on the result screen with the generated path. */
  method QuestionnaireScenario(path: JsonValue)
    requires GeminiService.HasRequiredShape(path)
  {
    var app := new AppState();
    app.Start();
    app.ChangeProfile(Name, "Ana");
    app.ChangeProfile(CurrentRole, "Designer");
    app.ChangeProfile(CareerGoal, "UX Lead");
    app.Next();
    assert app.step == Skills;
    app.Submit(Ok(path));
    assert app.step == Skills && app.error == Some(SelectSkillMessage);
    app.ToggleSkill("SQL");
    assert app.userProfile.skills == ["SQL"];
    app.Submit(Ok(path));
    assert app.step == Result && app.learningPath == Some(path) && app.error == None;
    app.Reset();
    app.Start();
    app.Next();
    assert app.step == UserInfo;
  }
}
