/**
  The analysis service: whether a section is worth sending, which task the
  prompt sets for it, and how the reviewing model's answer (or failure)
  becomes feedback. The model call itself, `JSON.stringify` and
  `JSON.parse` are not modelled; they are parameters.
 */
module GeminiService {
  import opened JsString
  import opened Types

  // ----------------------------------------------------------------------
  // Emptiness

  /** A JavaScript value as the emptiness test inspects it. `Null` stands for
      `null` and `undefined`, `Primitive` for numbers and booleans (only
      their truthiness matters), and an object is seen through
      `Object.values`, in order. */
  datatype Value =
    | Null
    | Primitive(truthy: bool)
    | Str(text: Text)
    | Arr(elements: seq<Value>)
    | Obj(values: seq<Value>)

  /** JavaScript truthiness: the empty string is falsy, arrays and objects
      are truthy. */
  predicate Truthy(v: Value) {
    match v
    case Null => false
    case Primitive(t) => t
    case Str(t) => |t| > 0
    case Arr(_) => true
    case Obj(_) => true
  }

  /** `isContentEmpty`. */
  predicate IsContentEmpty(v: Value) {
    if !Truthy(v) then true
    else
      match v
      case Str(t) => Blank(t)
      case Arr(xs) => |xs| == 0
      case Obj(xs) => EveryValueEmpty(xs)
      case _ => false
  }

  /** The inner `checkEmpty`: every value is empty. */
  predicate EveryValueEmpty(xs: seq<Value>)
    decreases xs
  {
    forall i :: 0 <= i < |xs| ==> ValueEmpty(xs[i])
  }

  /** The callback of `every`: a string must be blank, an array or object
      (both have `typeof` 'object') must be empty all through, and anything
      else passes. */
  predicate ValueEmpty(v: Value)
    decreases v
  {
    match v
    case Str(t) => Blank(t)
    case Arr(ys) => EveryValueEmpty(ys)
    case Obj(ys) => EveryValueEmpty(ys)
    case _ => true
  }

  /** The strings reachable from a value through arrays and objects. */
  function Leaves(v: Value): seq<Text>
    decreases v
  {
    match v
    case Str(t) => [t]
    case Arr(ys) => LeavesOf(ys)
    case Obj(ys) => LeavesOf(ys)
    case _ => []
  }

  function LeavesOf(xs: seq<Value>): seq<Text>
    decreases xs
  {
    if |xs| == 0 then [] else Leaves(xs[0]) + LeavesOf(xs[1..])
  }

  predicate AllBlank(ts: seq<Text>) {
    forall i :: 0 <= i < |ts| ==> Blank(ts[i])
  }

  lemma {:induction false} ValueEmptyIff(v: Value)
    ensures ValueEmpty(v) <==> AllBlank(Leaves(v))
    decreases v
  {
    match v
    case Str(t) => assert Leaves(v)[0] == t;
    case Arr(ys) => EveryValueEmptyIff(ys);
    case Obj(ys) => EveryValueEmptyIff(ys);
    case Null =>
    case Primitive(_) =>
  }

  lemma {:induction false} EveryValueEmptyIff(xs: seq<Value>)
    ensures EveryValueEmpty(xs) <==> AllBlank(LeavesOf(xs))
    decreases xs
  {
    if |xs| > 0 {
      ValueEmptyIff(xs[0]);
      EveryValueEmptyIff(xs[1..]);
      var a := Leaves(xs[0]);
      var b := LeavesOf(xs[1..]);
      assert LeavesOf(xs) == a + b;
      assert AllBlank(a + b) <==> AllBlank(a) && AllBlank(b) by {
        assert forall i :: 0 <= i < |a| ==> (a + b)[i] == a[i];
        assert forall i :: 0 <= i < |b| ==> (a + b)[|a| + i] == b[i];
      }
      assert EveryValueEmpty(xs) <==> ValueEmpty(xs[0]) && EveryValueEmpty(xs[1..]) by {
        assert forall i :: 1 <= i < |xs| ==> xs[1..][i - 1] == xs[i];
      }
    }
  }

  /** What `isContentEmpty` means for each kind of value: a string is empty
      when it trims to nothing; an array only when it has no element (so an
      array of blank strings is not empty); an object when every string
      reachable from it, through nested objects and arrays, is blank, with
      null, numbers and booleans inside it counting as empty; and a bare
      primitive when it is falsy. */
  lemma IsContentEmptyMeaning(v: Value)
    ensures v.Str? ==> (IsContentEmpty(v) <==> Blank(v.text))
    ensures v.Arr? ==> (IsContentEmpty(v) <==> |v.elements| == 0)
    ensures v.Obj? ==> (IsContentEmpty(v) <==> AllBlank(LeavesOf(v.values)))
    ensures (v.Null? || v.Primitive?) ==> (IsContentEmpty(v) <==> !Truthy(v))
  {
    if v.Str? && |v.text| == 0 {
      assert AllWhiteSpace(v.text);
    }
    if v.Obj? {
      EveryValueEmptyIff(v.values);
    }
  }

  // ----------------------------------------------------------------------
  // Section values

  function Strs(ts: seq<Text>): (vs: seq<Value>)
    ensures |vs| == |ts| && forall i :: 0 <= i < |ts| ==> vs[i] == Str(ts[i])
  {
    seq(|ts|, i requires 0 <= i < |ts| => Str(ts[i]))
  }

  /** The JavaScript value a section holds. */
  function ToValue(c: SectionContent): Value {
    match c
    case Prose(t) => Str(t)
    case HanhChinhContent(h) =>
      Obj([Str(h.hoTen), Str(h.tuoi), Str(h.gioiTinh), Str(h.ngheNghiep), Str(h.diaChi)])
    case TienSuContent(ts) =>
      var b := ts.banThan;
      Obj([Obj([Str(b.noiKhoa), Str(b.ngoaiKhoa), Str(b.diUng), Str(b.khac)]), Str(ts.giaDinh)])
    case KhamBenhContent(k) => Obj(Strs(ExamTexts(k)))
    case ProblemList(ps) => Arr(Strs(ps))
    case DeNghiCLSContent(d) => Obj([Arr(Strs(d.chanDoan)), Arr(Strs(d.theoDoi)), Arr(Strs(d.thuongQuy))])
  }

  /** The examination texts in the key order of the system table. */
  function ExamTexts(k: KhamBenhData): (ts: seq<Text>)
    ensures |ts| == |AllSystems| && forall i :: 0 <= i < |AllSystems| ==> ts[i] == k[AllSystems[i]]
  {
    seq(|AllSystems|, i requires 0 <= i < |AllSystems| => k[AllSystems[i]])
  }

  /** Emptiness stated on each section shape: every text field blank, every
      examination text blank, no problem at all, every requested
      investigation blank. */
  predicate ShapeEmpty(c: SectionContent) {
    match c
    case Prose(t) => Blank(t)
    case HanhChinhContent(h) =>
      Blank(h.hoTen) && Blank(h.tuoi) && Blank(h.gioiTinh) && Blank(h.ngheNghiep) && Blank(h.diaChi)
    case TienSuContent(ts) =>
      && Blank(ts.banThan.noiKhoa) && Blank(ts.banThan.ngoaiKhoa)
      && Blank(ts.banThan.diUng) && Blank(ts.banThan.khac) && Blank(ts.giaDinh)
    case KhamBenhContent(k) => forall s :: Blank(k[s])
    case ProblemList(ps) => |ps| == 0
    case DeNghiCLSContent(d) => AllBlank(d.chanDoan) && AllBlank(d.theoDoi) && AllBlank(d.thuongQuy)
  }

  lemma StrsEmptyIff(ts: seq<Text>)
    ensures EveryValueEmpty(Strs(ts)) <==> AllBlank(ts)
  {
    var vs := Strs(ts);
    assert forall i :: 0 <= i < |ts| ==> (ValueEmpty(vs[i]) <==> Blank(ts[i]));
  }

  /** A section is empty for the analysis exactly when its shape is empty. */
  lemma SectionEmptyIff(c: SectionContent)
    ensures IsContentEmpty(ToValue(c)) <==> ShapeEmpty(c)
  {
    match c
    case Prose(t) => IsContentEmptyMeaning(ToValue(c));
    case HanhChinhContent(h) => HanhChinhEmptyIff(h);
    case TienSuContent(ts) => TienSuEmptyIff(ts);
    case KhamBenhContent(k) => KhamBenhEmptyIff(k);
    case ProblemList(ps) =>
    case DeNghiCLSContent(d) => DeNghiCLSEmptyIff(d);
  }

  lemma HanhChinhEmptyIff(h: HanhChinhData)
    ensures IsContentEmpty(ToValue(HanhChinhContent(h))) <==> ShapeEmpty(HanhChinhContent(h))
  {
    var xs := ToValue(HanhChinhContent(h)).values;
    forall i | 0 <= i < |xs| && ShapeEmpty(HanhChinhContent(h)) ensures ValueEmpty(xs[i]) {
      assert i == 0 || i == 1 || i == 2 || i == 3 || i == 4;
    }
    assert EveryValueEmpty(xs) ==> ValueEmpty(xs[0]) && ValueEmpty(xs[1]) && ValueEmpty(xs[2]) && ValueEmpty(xs[3]) && ValueEmpty(xs[4]);
  }

  lemma TienSuEmptyIff(ts: TienSuData)
    ensures IsContentEmpty(ToValue(TienSuContent(ts))) <==> ShapeEmpty(TienSuContent(ts))
  {
    var xs := ToValue(TienSuContent(ts)).values;
    var b := ts.banThan;
    var inner := [Str(b.noiKhoa), Str(b.ngoaiKhoa), Str(b.diUng), Str(b.khac)];
    assert xs == [Obj(inner), Str(ts.giaDinh)];
    forall i | 0 <= i < |inner| && ShapeEmpty(TienSuContent(ts)) ensures ValueEmpty(inner[i]) {
      assert i == 0 || i == 1 || i == 2 || i == 3;
    }
    assert EveryValueEmpty(inner) ==> ValueEmpty(inner[0]) && ValueEmpty(inner[1]) && ValueEmpty(inner[2]) && ValueEmpty(inner[3]);
    assert EveryValueEmpty(xs) <==> ValueEmpty(xs[0]) && ValueEmpty(xs[1]);
  }

  lemma KhamBenhEmptyIff(k: KhamBenhData)
    ensures IsContentEmpty(ToValue(KhamBenhContent(k))) <==> ShapeEmpty(KhamBenhContent(k))
  {
    var ts := ExamTexts(k);
    StrsEmptyIff(ts);
    if AllBlank(ts) {
      forall s ensures Blank(k[s]) {
        assert ts[SystemIndex(s)] == k[s];
      }
    }
  }

  lemma DeNghiCLSEmptyIff(d: DeNghiCLSData)
    ensures IsContentEmpty(ToValue(DeNghiCLSContent(d))) <==> ShapeEmpty(DeNghiCLSContent(d))
  {
    var v := ToValue(DeNghiCLSContent(d));
    var x, y, z := Arr(Strs(d.chanDoan)), Arr(Strs(d.theoDoi)), Arr(Strs(d.thuongQuy));
    assert v == Obj([x, y, z]);
    assert IsContentEmpty(v) == EveryValueEmpty([x, y, z]);
    assert EveryValueEmpty([x, y, z]) == (ValueEmpty(x) && ValueEmpty(y) && ValueEmpty(z)) by {
      EveryOfThree(x, y, z);
    }
    assert ValueEmpty(x) == AllBlank(d.chanDoan) by { StrsEmptyIff(d.chanDoan); }
    assert ValueEmpty(y) == AllBlank(d.theoDoi) by { StrsEmptyIff(d.theoDoi); }
    assert ValueEmpty(z) == AllBlank(d.thuongQuy) by { StrsEmptyIff(d.thuongQuy); }
  }

  lemma EveryOfThree(x: Value, y: Value, z: Value)
    ensures EveryValueEmpty([x, y, z]) <==> ValueEmpty(x) && ValueEmpty(y) && ValueEmpty(z)
  {
    var xs := [x, y, z];
    if ValueEmpty(x) && ValueEmpty(y) && ValueEmpty(z) {
      forall i | 0 <= i < 3 ensures ValueEmpty(xs[i]) {
        assert i == 0 || i == 1 || i == 2;
      }
    }
    assert EveryValueEmpty(xs) ==> ValueEmpty(xs[0]) && ValueEmpty(xs[1]) && ValueEmpty(xs[2]);
  }

  // ----------------------------------------------------------------------
  // The prompt

  /** The task the prompt sets after the common introduction. */
  datatype Instruction =
    | ReasonIsASymptom          // flag a diagnosis given as reason for admission (MEDICAL_TERM_USED)
    | CharacterizeSymptoms      // ask for symptom details; flag exam findings in the history (CLARIFY_SYMPTOM, WRONG_SECTION)
    | DetailChronicDiseases     // ask for details of chronic diseases (INCOMPLETE_HISTORY)
    | SummaryMatchesEarlier     // flag findings the summary adds to earlier sections (LOGIC_CONFLICT)
    | GroupIntoSyndromes        // propose syndromes from the summary (SUGGEST_SYNDROME)
    | GeneralReview             // clarity, structure and completeness

  /** The section a specific task is written for; none for the general one. */
  function TaskSection(i: Instruction): Option<SectionId> {
    match i
    case ReasonIsASymptom => Some(LyDoVaoVien)
    case CharacterizeSymptoms => Some(BenhSu)
    case DetailChronicDiseases => Some(TienSu)
    case SummaryMatchesEarlier => Some(TomTatBenhAn)
    case GroupIntoSyndromes => Some(DatVanDe)
    case GeneralReview => None
  }

  /** The `switch` of `buildPrompt`: the task written for the section when
      there is one, otherwise the general review. */
  function InstructionFor(id: SectionId): (i: Instruction)
    ensures TaskSection(i) == Some(id) || (i == GeneralReview && forall j :: TaskSection(j) != Some(id))
  {
    match id
    case LyDoVaoVien => ReasonIsASymptom
    case BenhSu => CharacterizeSymptoms
    case TienSu => DetailChronicDiseases
    case TomTatBenhAn => SummaryMatchesEarlier
    case DatVanDe => GroupIntoSyndromes
    case _ => GeneralReview
  }

  /** Exactly five sections get a task of their own, each a different one. */
  lemma SpecificTasks(id: SectionId)
    ensures InstructionFor(id) != GeneralReview <==> id in {LyDoVaoVien, BenhSu, TienSu, TomTatBenhAn, DatVanDe}
    ensures forall id' :: InstructionFor(id') == InstructionFor(id) && InstructionFor(id) != GeneralReview ==> id' == id
  {
    forall id' | InstructionFor(id') == InstructionFor(id) && InstructionFor(id) != GeneralReview
      ensures id' == id
    {
      assert TaskSection(InstructionFor(id')) == Some(id');
    }
  }

  /** `JSON.stringify(_, null, 2)`, which is not modelled. */
  type Stringify = Value -> Text

  /** The whole report as one object, sections in declaration order. */
  function CaseValue(cd: CaseData): Value {
    Obj(seq(|AllSectionIds|, i requires 0 <= i < |AllSectionIds| => ToValue(cd[AllSectionIds[i]])))
  }

  /** What the prompt is built from: the serialized report, the section, the
      section's own content, and the task. */
  datatype Prompt = Prompt(report: Text, section: SectionId, current: Text, instruction: Instruction)

  /** `buildPrompt`: a string section is quoted as it is, any other section
      is serialized. */
  function BuildPrompt(id: SectionId, cd: CaseData, stringify: Stringify): (p: Prompt)
    ensures p.section == id && p.instruction == InstructionFor(id)
  {
    var current := if cd[id].Prose? then cd[id].text else stringify(ToValue(cd[id]));
    Prompt(stringify(CaseValue(cd)), id, current, InstructionFor(id))
  }

  /** In a well-shaped report, the prompt quotes the section's text verbatim
      exactly for the five prose sections; the structured ones are
      serialized, like the whole report. */
  lemma PromptQuotesProse(id: SectionId, cd: CaseData, stringify: Stringify)
    requires WellShaped(cd)
    ensures BuildPrompt(id, cd, stringify).report == stringify(CaseValue(cd))
    ensures IsProseSection(id) ==> BuildPrompt(id, cd, stringify).current == cd[id].text
    ensures !IsProseSection(id) ==> BuildPrompt(id, cd, stringify).current == stringify(ToValue(cd[id]))
  {
    assert Fits(id, cd[id]);
  }

  /** The wording of the prompt, which is not modelled: the introduction
      (given the report, the section key and the section's content) and
      the text of each task. */
  datatype Wording = Wording(intro: (Text, Text, Text) -> Text, task: Instruction -> Text)

  const NewLine: CodeUnit := 0x0A

  /** The prompt's text: the introduction, a line break, then the task. */
  function PromptText(p: Prompt, w: Wording): (t: Text)
    ensures var intro := w.intro(p.report, SectionKey(p.section), p.current);
      && |t| == |intro| + 1 + |w.task(p.instruction)|
      && t[..|intro|] == intro
      && t[|intro|] == NewLine
      && t[|intro| + 1..] == w.task(p.instruction)
  {
    w.intro(p.report, SectionKey(p.section), p.current) + [NewLine] + w.task(p.instruction)
  }

  // ----------------------------------------------------------------------
  // The analysis

  /** What the model call came back with: a parsed answer whose lists may be
      missing, or an exception from the call, the trimming or the parse. */
  datatype CallOutcome =
    | Responded(errors: Option<seq<FeedbackItem>>, suggestions: Option<seq<FeedbackItem>>)
    | Threw

  /** The result of `analyzeCaseReport` (`None` is `null`) together with the
      prompt it sent, if it sent one. */
  datatype Analysis = Analysis(feedback: Option<TeacherFeedback>, sent: Option<Prompt>)

  /** Feedback made of a single error of the given type, on no text. */
  function ServiceError(kind: Text, message: Text, detail: Text): TeacherFeedback {
    TeacherFeedback([FeedbackItem(kind, message, [], Some([detail]))], [])
  }

  predicate IsServiceError(fb: TeacherFeedback, kind: Text) {
    && |fb.errors| == 1 && |fb.suggestions| == 0
    && fb.errors[0].kind == kind && fb.errors[0].targetText == []
  }

  function ApiKeyMissing(): (fb: TeacherFeedback)
    ensures IsServiceError(fb, Utf16("API_KEY_MISSING"))
  {
    ServiceError(Utf16("API_KEY_MISSING"), Utf16("Lỗi Cấu Hình"), Utf16("API key chưa được thiết lập."))
  }

  function ApiError(): (fb: TeacherFeedback)
    ensures IsServiceError(fb, Utf16("API_ERROR"))
  {
    ServiceError(Utf16("API_ERROR"), Utf16("Lỗi API"), Utf16("Đã có lỗi xảy ra khi kết nối với Người Thầy AI."))
  }

  /** `analyzeCaseReport`: the key check first, then the emptiness check,
      then one call with the built prompt. */
  function AnalyzeCaseReport(id: SectionId, cd: CaseData, hasApiKey: bool, stringify: Stringify,
                             call: Prompt -> CallOutcome): (a: Analysis)
    ensures !hasApiKey ==> a == Analysis(Some(ApiKeyMissing()), None)
    ensures a.sent.Some? <==> hasApiKey && !IsContentEmpty(ToValue(cd[id]))
    ensures a.sent.Some? ==> a.sent.value == BuildPrompt(id, cd, stringify)
  {
    if !hasApiKey then Analysis(Some(ApiKeyMissing()), None)
    else if IsContentEmpty(ToValue(cd[id])) then Analysis(None, None)
    else
      var p := BuildPrompt(id, cd, stringify);
      match call(p)
      case Threw => Analysis(Some(ApiError()), Some(p))
      case Responded(errors, suggestions) =>
        Analysis(Some(TeacherFeedback(errors.GetOr([]), suggestions.GetOr([]))), Some(p))
  }

  /** `null` comes back exactly when the key is set and the section is
      empty. */
  lemma NullIffEmptySection(id: SectionId, cd: CaseData, hasApiKey: bool, stringify: Stringify,
                            call: Prompt -> CallOutcome)
    ensures AnalyzeCaseReport(id, cd, hasApiKey, stringify, call).feedback.None?
        <==> hasApiKey && ShapeEmpty(cd[id])
  {
    SectionEmptyIff(cd[id]);
    assert AnalyzeCaseReport(id, cd, hasApiKey, stringify, call).feedback.None?
        <==> hasApiKey && IsContentEmpty(ToValue(cd[id]));
  }

  /** Once the prompt is sent, a failed call gives the one API error, and a
      successful call passes both lists on, a missing list as empty. */
  lemma CallOutcomes(id: SectionId, cd: CaseData, hasApiKey: bool, stringify: Stringify,
                     call: Prompt -> CallOutcome)
    requires hasApiKey && !IsContentEmpty(ToValue(cd[id]))
    ensures var a := AnalyzeCaseReport(id, cd, hasApiKey, stringify, call);
      var r := call(BuildPrompt(id, cd, stringify));
      && (r.Threw? ==> a.feedback == Some(ApiError()))
      && (r.Responded? ==>
            && a.feedback.Some?
            && a.feedback.value.errors == (if r.errors.Some? then r.errors.value else [])
            && a.feedback.value.suggestions == (if r.suggestions.Some? then r.suggestions.value else []))
  {
  }

  /** The answer depends on the model only through its reply to the one
      prompt sent: no call is made without a key or for an empty section. */
  lemma OnlyTheSentPromptMatters(id: SectionId, cd: CaseData, hasApiKey: bool, stringify: Stringify,
                                 call1: Prompt -> CallOutcome, call2: Prompt -> CallOutcome)
    requires !hasApiKey || IsContentEmpty(ToValue(cd[id]))
             || call1(BuildPrompt(id, cd, stringify)) == call2(BuildPrompt(id, cd, stringify))
    ensures AnalyzeCaseReport(id, cd, hasApiKey, stringify, call1)
         == AnalyzeCaseReport(id, cd, hasApiKey, stringify, call2)
  {
  }

  /** The missing key is reported whatever the report holds, even when the
      section is empty: the key check comes first. */
  lemma KeyCheckedBeforeEmptiness(id: SectionId, cd: CaseData, stringify: Stringify,
                                  call: Prompt -> CallOutcome)
    requires ShapeEmpty(cd[id])
    ensures AnalyzeCaseReport(id, cd, false, stringify, call).feedback == Some(ApiKeyMissing())
    ensures AnalyzeCaseReport(id, cd, true, stringify, call).feedback == None
  {
    SectionEmptyIff(cd[id]);
  }
}
