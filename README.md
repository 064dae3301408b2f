# AI upskilling platform: flow, progress and reply handling

This project models the three pieces of logic in a single-page web client.
The client walks a user through a short questionnaire and asks a hosted
generative-AI service for a personalised learning path. It then shows the path
as a checklist with a progress bar. The three pieces are:

- **The application flow** (`App`). Five screens: intro, profile form, skill
  selection, loading, result. The class `App.AppState` holds the four pieces of
  state: the screen, the profile, the generated path and the visible error. It
  has one method per user action: start, type into the form, next, back,
  toggle a skill, submit, reset. Skills form an insertion-ordered set kept in
  an array. `App.ToggledSkills` gives the exact order that toggling produces.
- **The result view** (`LearningPathView`). A set of completed step indices is
  flipped by `View.ToggleStepCompletion`. The progress percentage is derived
  from it and rounded half-up for display.
- **The generation client** (`GeminiService`). It builds the prompt from the
  profile and declares the output schema. It trims the reply, rejects an empty
  one, parses it, checks the top-level shape, and maps every failure to one of
  two user-facing messages. The service call and `JSON.parse` are parameters
  (`service`, `parse`), and so is the whitespace set of `trim` (`isSpace`).

Supporting modules: `Types` holds the domain records. `Json` gives the values
`JSON.parse` yields, property access (including the `TypeError` on `null`) and
JavaScript truthiness. `JsText` gives `trim`, `includes` and `join`.
`Wrappers` gives `Option` and `Result`.

## Model

| member | source | states |
|---|---|---|
| `Types.ParseStepType` | types.ts:2-8 | a string names a step type exactly when it is one of the five enumeration values, and it names that type |
| `Types.StepTypeNamesRoundTrip` | types.ts:2-8 | every step type's string reads back as that type; the five types are listed once each |
| `Json.Property` | services/geminiService.ts:95 | reading a property throws exactly on `null`, is defined exactly for an object that has the key, and yields that key's value |
| `Json.Truthy` | services/geminiService.ts:95 | a JSON value is falsy exactly when it is `null`, `false`, `0` or `""`; every array and object is truthy |
| `Json.TruthyAccess` | services/geminiService.ts:95 | `!parsedResponse.title` fails exactly when the property is `undefined` or one of `null`, `false`, `0`, `""` |
| `Json.IsArrayAccess` | services/geminiService.ts:95 | `Array.isArray` holds exactly for a defined array value, and an array is always truthy |
| `JsText.Trim` | services/geminiService.ts:87 | the trimmed text sits in the reply right after its leading whitespace, everything dropped before and after it is whitespace, it starts and ends with non-whitespace, and it is empty exactly when the reply is all whitespace |
| `JsText.Includes` | services/geminiService.ts:103 | `s.includes(sub)`: `sub` occurs at some position of `s`, compared case-sensitively; the empty string is always included and a longer string never |
| `JsText.NoJNoJson` | services/geminiService.ts:103 | a message without a lower-case `j` never includes `"json"` |
| `JsText.Join` | services/geminiService.ts:70 | joining no skills gives the empty string, and joining one skill gives that skill |
| `JsText.JoinEnds` | services/geminiService.ts:70 | the joined skills start with the first skill and end with the last |
| `JsText.JoinIncludesElement` | services/geminiService.ts:70 | every skill occurs in the skills joined with `", "` |
| `GeminiService.StepTypeEnum` | services/geminiService.ts:36-39 | the schema's `type` enumeration lists each step type's string, in declaration order |
| `GeminiService.SchemaEnumIsStepTypes` | services/geminiService.ts:36-39 | the enumeration has five distinct strings, each names a step type, and every step type is in it |
| `GeminiService.DecodeStep` | services/geminiService.ts:25-50 | a step the schema admits is an object carrying all five required properties |
| `GeminiService.DecodeSteps` | services/geminiService.ts:22-51 | a steps array is admitted exactly when every item is a valid step, item by item and in order |
| `GeminiService.DecodePath` | services/geminiService.ts:11-55 | a reply the schema admits is an object carrying `title`, `description` and `steps` |
| `GeminiService.DecodeEncodePath` | services/geminiService.ts:11-55 | every learning path, written in the schema's form, reads back as itself |
| `GeminiService.Prompt` | services/geminiService.ts:61-75 | the prompt contains the current role, the career goal, every skill and the skills joined with `", "`, and opens and closes with the fixed instruction text |
| `GeminiService.TemplateEnds` | services/geminiService.ts:61-75 | the filled prompt template starts with its opening text and ends with its closing text |
| `GeminiService.FilledTemplateIncludes` | services/geminiService.ts:68-70 | a role, a goal and the skills joined with `", "`, placed in the template, all occur in the result, as does each skill |
| `GeminiService.PromptIgnoresName` | services/geminiService.ts:61-75 | the profile's name does not affect the prompt |
| `GeminiService.FixedMessagesLackJson` | services/geminiService.ts:90-106 | none of the client's own messages (empty reply, missing fields, `null` access, format, generic) contains `"json"` |
| `GeminiService.CheckShape` | services/geminiService.ts:95-97 | a parsed value passes exactly when it is an object with a truthy `title` and an array `steps`, and is then returned unchanged; `null` throws the `TypeError`, anything else the missing-fields error |
| `GeminiService.PostProcess` | services/geminiService.ts:87-99 | an all-whitespace reply throws the empty-reply error; otherwise the parsed value is returned exactly when parsing succeeds and the shape check passes |
| `GeminiService.Recover` | services/geminiService.ts:100-107 | a caught error becomes the format message exactly when it is an `Error` whose message includes `"json"`, and otherwise the generic message |
| `GeminiService.GenerateLearningPath` | services/geminiService.ts:58-108 | success exactly when the call replied and post-processing accepted the reply, returning the parsed value with the required shape; every failure is one of the two messages |
| `GeminiService.FormatMessageIffJson` | services/geminiService.ts:100-107 | the format message is surfaced exactly when the call threw an `Error` mentioning `"json"` or `JSON.parse` rejected the reply with such a message |
| `GeminiService.EmptyReplySurfacesGeneric` | services/geminiService.ts:87-91 | a reply that is empty after trimming reaches the user as the generic message |
| `GeminiService.MissingFieldsSurfaceGeneric` | services/geminiService.ts:95-97 | a parsed reply without a truthy `title` or an array `steps`, `null` included, reaches the user as the generic message |
| `GeminiService.ParseErrorWithoutJsonSurfacesGeneric` | services/geminiService.ts:92-106 | a `JSON.parse` error whose message lacks a lower-case `json` reaches the user as the generic message |
| `GeminiService.UpperCaseJsonSurfacesGeneric` | services/geminiService.ts:92-106 | the truncated-input message "Unexpected end of JSON input", which spells "JSON" only in capitals, reaches the user as the generic message |
| `GeminiService.ConformingReplyAccepted` | services/geminiService.ts:95-99 | a reply the schema admits with a non-empty title passes the shape check unchanged |
| `GeminiService.ShapeCheckIsNotSchemaCheck` | services/geminiService.ts:95-97 | the shape check accepts a reply whose steps are not step objects, and rejects a schema-valid reply with an empty title |
| `GeminiService.UxAscentExample` | services/geminiService.ts:58-99 | a reply parsing to the one-step "UX Ascent" path is returned as it is and reads as that path |
| `GeminiService.GenerateLearningPathIntended` | services/geminiService.ts:100-107 | corrected mapping: same successes as the code; a failure is the format message exactly when a reply arrived |
| `GeminiService.IntendedEmptyReplySurfacesFormat` | services/geminiService.ts:87-91 | under the corrected mapping an empty reply surfaces as the format message |
| `LearningPathView.Progress` | components/LearningPathView.tsx:70-73 | progress is 0 without steps, otherwise completed × 100 / steps, and lies in [0, 100] when no more steps are completed than exist |
| `LearningPathView.Round` | components/LearningPathView.tsx:88 | `Math.round` gives the integer within half a unit, rounding halves up |
| `LearningPathView.DisplayedPercent` | components/LearningPathView.tsx:88 | the displayed percentage lies in [0, 100] and is 0 without steps |
| `LearningPathView.DisplayedPercentExact` | components/LearningPathView.tsx:70-88 | the displayed percentage equals (200·c + n) div (2·n) |
| `LearningPathView.OneOfFourShowsQuarter` | components/LearningPathView.tsx:88 | four steps with one completed display 25 |
| `LearningPathView.Toggled` | components/LearningPathView.tsx:58-67 | flipping an index changes that index's membership and no other |
| `LearningPathView.ToggledTwice` | components/LearningPathView.tsx:58-67 | flipping the same index twice restores the set |
| `LearningPathView.IndexSetSize` | components/LearningPathView.tsx:95-100 | a set of step positions has at most as many elements as there are steps |
| `LearningPathView.View.constructor` | components/LearningPathView.tsx:56 | a newly shown path has no completed steps |
| `LearningPathView.View.ToggleStepCompletion` | components/LearningPathView.tsx:58-68 | the stored set becomes the old set with the index flipped; every index stays a step position |
| `LearningPathView.View.ProgressPercent` | components/LearningPathView.tsx:70-73 | the view's progress lies in [0, 100], is 0 without steps and is proportional to the completed count |
| `LearningPathView.View.ShownPercent` | components/LearningPathView.tsx:88 | the shown value lies in [0, 100], within half a unit of the progress |
| `LearningPathView.View.Cards` | components/LearningPathView.tsx:95-101 | one card per step, in order, shown completed exactly when its index is in the completed set |
| `App.EmptyProfile` | App.tsx:73-78 | the initial profile has empty name, role, goal and skills |
| `App.CanProceed` | App.tsx:146 | the next button, disabled while any of name, current role or career goal is falsy, is enabled exactly when all three are non-empty strings |
| `App.EmptyProfileCannotProceed` | App.tsx:146 | after a reset the next button is disabled until all three fields are filled again |
| `App.WithField` | App.tsx:82-84 | a form change replaces exactly the named text field; the other fields and the skills are unchanged |
| `App.SetFromArray` | App.tsx:87 | building a set from the skills keeps each skill exactly once, keeps no other value, and changes nothing when there are no duplicates |
| `App.SetFromArrayOrder` | App.tsx:87 | the set enumerates the skills in the order of their first occurrences in the list |
| `App.SetDelete` | App.tsx:89 | deleting removes exactly that skill, keeps the others and adds no duplicates |
| `App.SetDeleteAt` | App.tsx:89 | deleting a skill held once closes the gap and keeps the others' order |
| `App.ToggledSkills` | App.tsx:86-94 | the skill is selected afterwards exactly when it was not; other skills keep their membership; no duplicates; an absent skill is appended; a present one is cut out in place |
| `App.ToggleTwiceRestoresSelection` | App.tsx:86-94 | toggling a skill twice restores which skills are selected |
| `App.ToggleTwiceAbsentRestoresList` | App.tsx:87-93 | toggling an unselected skill twice restores the exact list |
| `App.ToggleTwicePresentReorders` | App.tsx:87-93 | toggling a selected skill twice can move it to the end, so the list is not always restored |
| `App.AppState.constructor` | App.tsx:72-80 | the app starts on the intro screen with an empty profile, no path and no error |
| `App.AppState.Start` | App.tsx:131 | start moves from intro to the profile form and changes nothing else |
| `App.AppState.ChangeProfile` | App.tsx:82-84 | the profile becomes the one-field update; screen, path and error are unchanged |
| `App.AppState.Next` | App.tsx:146 | next reaches the skill screen exactly when name, role and goal are non-empty; otherwise nothing changes |
| `App.AppState.Back` | App.tsx:159 | back returns to the profile form and keeps the error |
| `App.AppState.ToggleSkill` | App.tsx:86-94 | the skills become the toggled list; the rest of the state is unchanged |
| `App.AppState.Submit` | App.tsx:96-111 | with no skill, only the selection error is set; otherwise success shows the result with the new path and no error, and failure returns to skills with the failure message and the old path |
| `App.AppState.Reset` | App.tsx:113-118 | reset restores the initial state from any screen |

Every method of `App.AppState` keeps `Valid()`. Skills are never repeated.
The result screen always has a path, and a stored path passed the client's
shape check. A visible error is one of three messages: the empty-selection
message, the format message or the generic message.

## Left out

- The network call to the generation service, the client construction and the
  reading of the API key from the environment (services/geminiService.ts:5-9,
  78-85). The call is the parameter `service`. If the reply has no text, `trim`
  throws a `TypeError`; that case is a `CallThrew` outcome with that message.
- The internals of `JSON.parse`: the parameter `parse`. The exact Unicode
  whitespace set of `trim`: the parameter `isSpace`.
- Diagnostic logging (`console.warn`, `console.error`): it has no effect on state.
- Asynchrony. `App.AppState.Submit` is one atomic step that receives the awaited
  outcome, so the loading screen is never observable between actions. A reset
  landing while a request is in flight is not modelled. The outcome is required
  to be one that the generation client can produce (`GeminiService.PossibleOutcome`).
  Both `GenerateLearningPath` and `GenerateLearningPathIntended` guarantee this.
- App.AppState.Start, App.AppState.Next, App.AppState.Back, App.AppState.Submit:
  each requires the screen on which its button is rendered, because the source
  offers the handler only there. `Reset` is accepted from any screen.
- LearningPathView.View.ToggleStepCompletion: requires a step position. The
  only caller passes the index of a rendered step card
  (components/LearningPathView.tsx:95-100).
- Rendering: JSX, styling, icons, the skill selector's layout and the
  rotating loader messages with their timer (App.tsx:39-68). The static skill
  catalogue (constants.ts) is also out, because the toggle never consults it.
  The static dashboard (components/CorporateDashboard.tsx) is out too.
- `LearningPathView.Progress`: computed with exact reals, not binary floating
  point. At a rounding boundary, `Math.round` of the floating-point value can
  differ from the exact result.
- The hand-over of the stored path to the result view. The view is modelled
  over a `Types.LearningPath`. The app stores the parsed value, whose steps
  the client never checks (see `GeminiService.ShapeCheckIsNotSchemaCheck`).
- Property reads model own properties only. That is exact for `title` and
  `steps`, which no built-in prototype defines.

## Findings

| source | as written | input that shows it | evidently intended | confidence | as-written member | corrected member |
|---|---|---|---|---|---|---|
| services/geminiService.ts:89-91, 103-106 | the empty-reply error's message lacks `"json"`, so an empty reply reaches the user as the generic "check your API key" message | a reply of `"   "` | an empty reply is reported as a response-format failure | medium, not executed | `GeminiService.EmptyReplySurfacesGeneric` | `GeminiService.IntendedEmptyReplySurfacesFormat` |
| services/geminiService.ts:95-96, 103-106 | the missing-fields error's message lacks `"json"`, so a reply without `title` or `steps` gets the generic message | a reply parsing to `{"title":"X"}` | a malformed reply is reported as a response-format failure | medium, not executed | `GeminiService.MissingFieldsSurfaceGeneric` | `GeminiService.GenerateLearningPathIntended` |
| services/geminiService.ts:92, 103 | the test for `"json"` is case-sensitive, and the `JSON.parse` message for a truncated reply, "Unexpected end of JSON input", spells "JSON" in capitals, so that syntax error (and any other whose message does not quote a lower-case `json`) gets the generic message | a reply `{"title":` rejected with "Unexpected end of JSON input" | an unparsable reply is reported as a response-format failure | medium, not executed | `GeminiService.UpperCaseJsonSurfacesGeneric` | `GeminiService.GenerateLearningPathIntended` |

The corrected mapping, `GeminiService.GenerateLearningPathIntended`, decides by
where the failure happened. A failed call gets the generic message. Any
rejection of a reply that did arrive gets the format message. It succeeds
exactly when the code as written succeeds, with the same value.
`App.AppState.Submit` accepts the outcome of either mapping, because both
satisfy `GeminiService.PossibleOutcome`.
