# Hồ sơ bệnh án: a model of the case-report editor and its AI teacher

This project models the core of a browser application in which a medical
student writes a case report (*bệnh án*). The report has ten fixed sections.
After each pause in typing, an AI "teacher" (*Người Thầy AI*) reviews the
section being edited. Its answer is a list of errors and a list of
suggestions. Each item names a piece of the student's text (`targetText`),
and the editors outline or highlight that text.

The model covers:

- **Text** (`js_string.dfy`). JavaScript strings become sequences of UTF-16
  code units. It defines `trim` (ECMAScript white space and line terminators),
  `indexOf` and `includes`.
- **The report** (`types.dfy`, `constants.dfy`). The ten section identifiers
  and each section's shape are defined here. Five sections are free prose. The
  other five are structured: the administrative record, the history, the
  examination by organ system, the problem list, and the three lists of
  requested investigations. This part also holds the section table and the
  feedback record.
- **The analysis service** (`gemini_service.dfy`). It covers:
  - `isContentEmpty`, over a JSON-like value;
  - the prompt builder, with its five section-specific tasks and its general
    fallback;
  - `analyzeCaseReport`, which checks the key, then checks for an empty
    section, then makes one model call with one fallback.

  The model call and `JSON.stringify` are parameters. The key's presence is a
  boolean.
- **Inline highlighting** (`highlighter.dfy`). This is `generateHighlightedMarkup`
  of the prose editor. It locates each feedback item's target, keeps those that
  are found, sorts them stably by position, and sweeps left to right. A match
  that overlaps an earlier highlight is dropped. The result is a list of spans
  (start, end, category).
- **Field outlines** (`field_feedback.dfy`). The structured editors outline a
  field when a target occurs inside its value (matching by substring), or a
  list item when a target equals it (matching by equality). Errors beat
  suggestions.
- **Section editors** (`hanh_chinh.dfy`, `tien_su.dfy`, `kham_benh.dfy`,
  `list_editing.dfy`, `de_nghi_cls.dfy`). These cover the field updates, the
  accordion toggle, the tabs, and adding and removing list items.
- **The session** (`app.dfy`). This is the top-level state. It covers the
  initial report, `handleDataChange`, `handleSectionSelect`,
  `toggleTeacherPanel`, and `runAnalysis` with its `try`/`catch`/`finally`.

The project's main results:

- The highlighted spans tile the section text exactly, so the text is always
  shown in full (`Highlighter.RoundTrip`).
- Every highlight shows the first occurrence of a found item's target, and the
  item listed first wins a tie.
- Every found item is covered by some highlight.
- The duplicate-start check of the sweep never decides anything.
- The insertion sort is *the* stable sort.
- `isContentEmpty` agrees with a per-section reference definition.
- `null` comes back from the service exactly when the key is set and the
  section is empty.
- The session's `runAnalysis` always lowers the loading flag and touches
  nothing but the feedback, its mark and that flag.

Points of the code the model keeps exactly:

- The service's two error reports have the types `API_KEY_MISSING` and
  `API_ERROR` (services/geminiService.ts:124-127 and 159-162).
- The key is checked before the emptiness check, so a missing key is
  reported even for an empty section (services/geminiService.ts:122-132;
  `GeminiService.KeyCheckedBeforeEmptiness`).
- The prompt builder has five section-specific tasks and a default for the
  other five sections (services/geminiService.ts:29-65;
  `GeminiService.SpecificTasks`).
- `isContentEmpty` treats the two kinds of list differently
  (services/geminiService.ts:105-115):
  - A top-level array, the problem list, is empty only when it has no items.
  - An array nested in an object is empty when every string in it is blank.
  - So three lists of blank strings in the investigations section count as
    empty, while a problem list holding one blank string does not.
  - The list editors never store a blank item
    (`ListEditing.EditsKeepItemsTrimmed`), so the difference is not visible
    in use.
- `buildPrompt` runs before the service's `try`
  (services/geminiService.ts:134-136). An exception from serialization
  would therefore reach the session's `catch` (App.tsx:54-60). That is why
  `App.RunAnalysis` has a `Failed` outcome, which stores `GENERAL_ERROR`.

## Model

| member | source | states |
|---|---|---|
| JsString.Trim | services/geminiService.ts:103 | the result is the input with its leading and trailing white space removed: it is a slice of the input, it starts and ends with a non-space, and it is empty exactly when the input is all white space |
| JsString.TrimIdempotent | components/sections/DatVanDeComponent.tsx:40-41 | trimming a trimmed text changes nothing |
| JsString.IndexOf | components/sections/DefaultSectionComponent.tsx:21 | -1 exactly when the target occurs nowhere; otherwise the position of the first occurrence |
| JsString.IncludesIff | components/sections/HanhChinhComponent.tsx:13 | `includes` holds exactly when the target occurs at some position |
| Types.SectionIdsClosed | types.ts:3 | there are exactly ten section identifiers, all different, and the list names every one |
| Types.SystemsClosed | types.ts:31-44 | there are exactly eight organ systems, all different, and every examination record has an entry for each |
| Types.BlankExam | App.tsx:12 | the initial examination record has an empty text for every system |
| Constants.Sections | constants.ts:4-15 | ten rows in declaration order, one per section; a row uses the default editor exactly for the five prose sections, and otherwise the editor named after its own section |
| Constants.Find | App.tsx:98 | the lookup finds a row exactly when some row has the id, and the row it finds is the first row with that id |
| Constants.SectionTableComplete | constants.ts:4-15 | the table starts with the administrative section, lists no section twice, and looking up any section always succeeds |
| Constants.DefaultEditorIffProse | types.ts:55-66 | the default editor is chosen exactly for the sections whose value in the report is a string |
| Highlighter.GenerateHighlightedMarkup | components/sections/DefaultSectionComponent.tsx:7-9 | without feedback, or with both lists empty, the text is one plain span |
| Highlighter.Located | components/sections/DefaultSectionComponent.tsx:11-21 | one entry per error and then per suggestion, in list order, each tagged with its category and its target's first position |
| Highlighter.LocatedIsAllFeedback | components/sections/DefaultSectionComponent.tsx:11-22 | an entry passes the filter exactly when its item has a non-empty target that occurs in the text |
| Highlighter.Kept | components/sections/DefaultSectionComponent.tsx:22 | the entries kept are exactly those with a non-empty target that was found, in their original order |
| Highlighter.SortByIndex | components/sections/DefaultSectionComponent.tsx:23 | the sort is a permutation of its input |
| Highlighter.SortByIndexStable | components/sections/DefaultSectionComponent.tsx:23 | the sorted list is ordered by position, and entries at the same position keep their list order |
| Highlighter.SortIsTheStableSort | components/sections/DefaultSectionComponent.tsx:23 | any permutation ordered by (position, list order) equals the sort's result, so the model agrees with any stable sort |
| Highlighter.StableSortUnique | components/sections/DefaultSectionComponent.tsx:23 | two lists with the same entries that are both ordered by (position, list order) are equal |
| Highlighter.SweepInvariant | components/sections/DefaultSectionComponent.tsx:27-44 | after each step of the sweep, the spans tile the text up to the cursor; every highlight is claimed by a sorted entry; every entry visited so far starts before the cursor and inside no plain span; every recorded start lies before the cursor |
| Highlighter.MarkupTiles | components/sections/DefaultSectionComponent.tsx:27-49 | with feedback, the spans are non-empty, contiguous and cover the text from 0 to its length; an empty text gives no span |
| Highlighter.RoundTrip | components/sections/DefaultSectionComponent.tsx:6-52 | concatenating the displayed spans gives back the section text, with or without feedback |
| Highlighter.HighlightsAreFirstOccurrences | components/sections/DefaultSectionComponent.tsx:27-43 | every highlight shows a found item: it starts at the first occurrence of that item's target, covers exactly the target's text, and carries its category; no item listed earlier and found starts there |
| Highlighter.EveryFoundItemCovered | components/sections/DefaultSectionComponent.tsx:28 | each found item's first occurrence starts inside some highlight: overlapping items are dropped, never merged |
| Highlighter.NothingFoundIsPlain | components/sections/DefaultSectionComponent.tsx:20-49 | when no target is found, the text is one plain span (no span for an empty text) |
| Highlighter.ProcessedCheckRedundant | components/sections/DefaultSectionComponent.tsx:25-28 | a start already in the set of highlighted starts always lies before the cursor, so the set check never skips an entry the cursor check would keep |
| GeminiService.ValueEmptyIff | services/geminiService.ts:109-115 | the inner check holds exactly when every string reachable through nested arrays and objects is blank |
| GeminiService.EveryValueEmptyIff | services/geminiService.ts:109-115 | the same for a list of values |
| GeminiService.IsContentEmptyMeaning | services/geminiService.ts:100-119 | a string is empty when blank; a top-level array when it has no element; an object when every reachable string is blank; any other value when it is falsy |
| GeminiService.SectionEmptyIff | services/geminiService.ts:130 | a section is empty for the analysis exactly when, by its shape: its text is blank, every field is blank, every examination text is blank, the problem list has no item, or every requested investigation is blank |
| GeminiService.InstructionFor | services/geminiService.ts:29-65 | a section gets the task written for it when there is one, and the general review exactly when none is |
| GeminiService.SpecificTasks | services/geminiService.ts:29-65 | exactly the reason for admission, the history of illness, the past history, the summary and the problem list get a task of their own, each a different one |
| GeminiService.BuildPrompt | services/geminiService.ts:7-12 | the prompt is about the requested section and carries that section's task |
| GeminiService.PromptQuotesProse | services/geminiService.ts:8-12 | the whole report is serialized; the section's content is quoted verbatim exactly for the prose sections and serialized otherwise |
| GeminiService.PromptText | services/geminiService.ts:67 | the prompt text is the introduction, one line feed, then the task, with nothing else |
| GeminiService.ApiKeyMissing | services/geminiService.ts:124-127 | a single error of type `API_KEY_MISSING` on no text, and no suggestion |
| GeminiService.ApiError | services/geminiService.ts:159-162 | a single error of type `API_ERROR` on no text, and no suggestion |
| GeminiService.AnalyzeCaseReport | services/geminiService.ts:121-164 | without a key the answer is the key error and nothing is sent; a prompt is sent exactly when the key is set and the section is not empty, and it is the built prompt |
| GeminiService.NullIffEmptySection | services/geminiService.ts:130-132 | `null` comes back exactly when the key is set and the section is empty |
| GeminiService.CallOutcomes | services/geminiService.ts:136-163 | a failed call gives the API error; an answer passes on both lists, a missing list as empty |
| GeminiService.OnlyTheSentPromptMatters | services/geminiService.ts:134-145 | two models that answer the one sent prompt alike give the same result; with no key or an empty section the model is never consulted |
| GeminiService.KeyCheckedBeforeEmptiness | services/geminiService.ts:122-132 | for an empty section, a missing key is still reported, and with the key the answer is `null` |
| FieldFeedback.AnyTargetIn | components/sections/HanhChinhComponent.tsx:13 | true exactly when some item has a non-empty target contained in the value |
| FieldFeedback.ClassByInclusion | components/sections/HanhChinhComponent.tsx:10-20 | a field is outlined as an error exactly when there is feedback, the value is not blank, and an error's non-empty target occurs in it; as a suggestion exactly when the same holds for a suggestion but for no error; the same function is repeated at TienSuComponent.tsx:10-20 and KhamBenhComponent.tsx:10-20 |
| FieldFeedback.AnyTargetIs | components/sections/DatVanDeComponent.tsx:13 | true exactly when some item's target equals the item |
| FieldFeedback.ClassByEquality | components/sections/DatVanDeComponent.tsx:10-20 | a list item is an error exactly when there is feedback, the item is not empty, and an error's target equals it; a suggestion exactly when a suggestion's target equals it and no error's does; the same function is repeated at DeNghiCLSComponent.tsx:13-23 |
| FieldFeedback.WithTargets | components/sections/HanhChinhComponent.tsx:13 | keeps exactly the items whose target is not empty |
| FieldFeedback.EmptyTargetsIgnored | components/sections/HanhChinhComponent.tsx:13-16 | removing every item with an empty target leaves every outline unchanged |
| FieldFeedback.ErrorBeatsSuggestion | components/sections/HanhChinhComponent.tsx:13-17 | an error whose target occurs in a field outlines it as an error whatever the suggestions are, and the same holds for an item equal to the target |
| FieldFeedback.EqualityWithinInclusion | components/sections/DeNghiCLSComponent.tsx:13-23 | for a value that is not blank, an error by equality is an error by inclusion, and neutral by inclusion is neutral by equality |
| ListEditing.SetDraft | components/sections/DeNghiCLSComponent.tsx:58 | typing replaces the draft and keeps the list |
| ListEditing.AddItem | components/sections/DatVanDeComponent.tsx:38-44 | a blank draft changes nothing; otherwise the trimmed draft is appended after the unchanged list and the draft is cleared |
| ListEditing.FilterIndex | components/sections/DeNghiCLSComponent.tsx:48-50 | the filter keeps every position but the removed one, in order |
| ListEditing.RemoveItem | components/sections/DatVanDeComponent.tsx:46-48 | for a valid position, the list loses that item and keeps the others in order; any other position leaves the list unchanged |
| ListEditing.RemoveUndoesAdd | components/sections/DeNghiCLSComponent.tsx:40-50 | removing the item just added gives the list back |
| ListEditing.EditsKeepItemsTrimmed | components/sections/DeNghiCLSComponent.tsx:40-46 | adding and removing keep every item non-blank and already trimmed |
| HanhChinhEditor.HandleChange | components/sections/HanhChinhComponent.tsx:41-43 | the edited field takes the new value; every other field keeps its own |
| HanhChinhEditor.ChangeLaws | components/sections/HanhChinhComponent.tsx:41-43 | writing a field's own value changes nothing, the last of two writes wins, and the sex stays one of the allowed values |
| TienSuEditor.HandleBanThanChange | components/sections/TienSuComponent.tsx:54-59 | the personal-history field takes the value; the other three and the family history stay |
| TienSuEditor.HandleGiaDinhChange | components/sections/TienSuComponent.tsx:61-63 | the family history takes the value; the personal history stays |
| TienSuEditor.ChangesCommute | components/sections/TienSuComponent.tsx:54-63 | edits of the two tabs commute, and rewriting a value already there changes nothing |
| KhamBenhEditor.HandleToggle | components/sections/KhamBenhComponent.tsx:46-48 | after a click, a system is open exactly when it is the clicked one and it was not already open |
| KhamBenhEditor.ToggleTwice | components/sections/KhamBenhComponent.tsx:46-48 | two clicks on a system leave it open if it was open, and leave everything closed otherwise |
| KhamBenhEditor.HandleChange | components/sections/KhamBenhComponent.tsx:50-52 | the system's text takes the value; every other system keeps its text |
| KhamBenhEditor.ChangeLaws | components/sections/KhamBenhComponent.tsx:50-52 | writing a system's own text changes nothing, and the last of two writes to a system wins |
| KhamBenhEditor.ChangesCommute | components/sections/KhamBenhComponent.tsx:50-52 | writes to two different systems commute |
| DeNghiCLSEditor.HandleListChange | components/sections/DeNghiCLSComponent.tsx:104-106 | the tab's list is replaced; the other two lists stay |
| DeNghiCLSEditor.EditsStayOnTab | components/sections/DeNghiCLSComponent.tsx:104-106 | adding and removing on a tab change that tab's list only, and a blank draft changes nothing |
| App.InitialContent | App.tsx:10-12 | each initial section value has its section's shape and is empty for the analysis |
| App.InitialCaseData | App.tsx:14-25 | the initial report is well shaped, and every section is empty for the analysis |
| App.InitialSession | App.tsx:29-35 | the first section is active, with no feedback, no loading, no new-feedback mark, and every panel closed |
| App.HandleDataChange | App.tsx:39-41 | the section takes the new value; every other section and the rest of the session stay |
| App.DataChangeKeepsShape | App.tsx:39-41 | storing a value of the section's own shape keeps the report well shaped |
| App.AdministrativeEdit | App.tsx:39-41 | an administrative edit stored in the report changes that one field, leaves every other field and section, and keeps the report well shaped |
| App.HandleSectionSelect | App.tsx:72-75 | the chosen section becomes active and the menu closes; nothing else changes |
| App.SectionSelectLaws | App.tsx:72-75 | choosing a section twice is choosing it once, and an earlier choice is overridden by a later one |
| App.ToggleTeacherPanel | App.tsx:77-82 | the panel flips; opening it clears the new-feedback mark and closing it keeps the mark; nothing else changes |
| App.ToggleTwice | App.tsx:77-82 | two toggles restore the panel and leave the mark cleared |
| App.GeneralError | App.tsx:56-59 | a single error of type `GENERAL_ERROR` on no text, and no suggestion |
| App.BeginAnalysis | App.tsx:44 | only the loading flag is raised |
| App.RunAnalysis | App.tsx:43-64 | feedback is stored, and marked new exactly when it has an item; `null` keeps the earlier feedback and mark; an escaped exception stores the general error and marks it new; loading is off afterwards and nothing else changes |
| App.MissingKeyReported | App.tsx:46-49 | with the service in place, a missing key is always stored and marked new |
| App.EmptySectionKeepsFeedback | App.tsx:46-53 | with the key set, an empty section keeps what was shown |
| App.FailedCallReported | App.tsx:46-49 | a failed model call is stored as the API error and marked new |
| App.FirstAnalysisStoresNothing | App.tsx:66-70 | the first analysis of a fresh session with the key set changes nothing |
| App.NoTargetsHighlightNothing | components/sections/DefaultSectionComponent.tsx:20-22 | feedback whose items all have empty targets highlights nothing |
| App.ServiceErrorHighlightsNothing | components/sections/DefaultSectionComponent.tsx:20-22 | a single error on no text highlights nothing |
| App.ErrorReportsHighlightNothing | App.tsx:56-59 | the key, API and general errors all leave the section text plain |

## Left out

- The debounce hook (`useDebounce`, App.tsx:37) and the effect that starts an analysis (App.tsx:66-70) are not modelled. Timing, the ordering of overlapping analyses and the React scheduler are concurrency. `App.RunAnalysis` models one analysis from start to end, given what its `await` produced. The debounce hook's source is not part of this model.
- The Gemini call itself is not modelled: the network, the model name, the response schema, the thinking configuration, `response.text.trim()` and `JSON.parse`. It is a parameter `call` that answers a prompt or throws.
- `JSON.stringify(_, null, 2)` is a parameter, `Stringify`.
- GeminiService.PromptText: the literal English wording of the introduction and of the six tasks is a `Wording` parameter. The model states how the prompt is assembled, not its words.
- GeminiService.CallOutcomes: an answer whose `errors` or `suggestions` is present but is not an array is not modelled. The lists are either present or missing.
- `process.env.API_KEY` is a boolean, `hasApiKey`. `console.error` is left out.
- Rendering is left out: JSX, CSS class strings, titles, placeholders, labels, icons, and the scroll synchronisation of the prose editor (DefaultSectionComponent.tsx:67-72). The outline classes are the three values of `FieldFeedback.FieldClass`. A highlight is a `Span`.
- Layout, NavigationDrawer, TeacherPanel and SectionComponent only lay out and dispatch. They are left out, as is the menu's open/close setter that Layout receives.
- Each editor's tab and accordion state is modelled only through its initial value and its transitions (`TienSuEditor.InitialTab`, `KhamBenhEditor.InitialOpen`, `DeNghiCLSEditor.InitialTab`).
- HanhChinhEditor.HandleChange requires that a value stored in the sex field is `Nam`, `Nữ` or empty. The source's type demands this and its selector offers only these. Age is kept as text, as the source stores it.
