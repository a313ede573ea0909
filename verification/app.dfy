/**
  The editing session: the case report, the active section, the stored
  feedback and the flags the layout shows, with the transitions of the
  top-level component.
 */
module App {
  import opened JsString
  import opened Types
  import opened Constants
  import opened GeminiService
  import opened Highlighter
  import HanhChinhEditor

  datatype Session = Session(
    activeSection: SectionId,
    menuOpen: bool,
    teacherPanelOpen: bool,
    caseData: CaseData,
    teacherFeedback: Option<TeacherFeedback>,
    isLoading: bool,
    hasNewFeedback: bool)

  /** The section value `initialCaseData` holds for each section. */
  function InitialContent(id: SectionId): (c: SectionContent)
    ensures Fits(id, c) && ShapeEmpty(c)
  {
    match id
    case HanhChinh => HanhChinhContent(HanhChinhData([], [], [], [], []))
    case TienSu => TienSuContent(TienSuData(BanThan([], [], [], []), []))
    case KhamBenh => KhamBenhContent(BlankExam())
    case DatVanDe => ProblemList([])
    case DeNghiCLS => DeNghiCLSContent(DeNghiCLSData([], [], []))
    case _ => Prose([])
  }

  /** `initialCaseData`: every section present, in its declared shape, and
      empty for the analysis. */
  function InitialCaseData(): (cd: CaseData)
    ensures WellShaped(cd)
    ensures forall id :: IsContentEmpty(ToValue(cd[id]))
  {
    forall id ensures id in AllSectionIds { SectionListed(id); }
    forall id ensures IsContentEmpty(ToValue(InitialContent(id))) { SectionEmptyIff(InitialContent(id)); }
    map id | id in AllSectionIds :: InitialContent(id)
  }

  /** The state on first render: the first section of the table is active,
      no feedback, nothing loading, every panel closed. */
  function InitialSession(): (s: Session)
    ensures s.activeSection == Sections()[0].id == HanhChinh
    ensures s.caseData == InitialCaseData() && s.teacherFeedback.None?
    ensures !s.isLoading && !s.hasNewFeedback && !s.menuOpen && !s.teacherPanelOpen
  {
    Session(Sections()[0].id, false, false, InitialCaseData(), None, false, false)
  }

  /** `handleDataChange`: the section's value is replaced; every other
      section and the rest of the session stay. */
  function HandleDataChange(s: Session, id: SectionId, content: SectionContent): (r: Session)
    ensures r.caseData[id] == content
    ensures forall other :: other != id ==> r.caseData[other] == s.caseData[other]
    ensures r.(caseData := s.caseData) == s
  {
    s.(caseData := s.caseData[id := content])
  }

  /** The report stays in shape as long as each edit stores the section's
      own shape, as every section editor does. */
  lemma DataChangeKeepsShape(s: Session, id: SectionId, content: SectionContent)
    requires WellShaped(s.caseData) && Fits(id, content)
    ensures WellShaped(HandleDataChange(s, id, content).caseData)
  {
  }

  /** An edit in the administrative editor, stored back into the report,
      changes that one field and nothing else in the report. */
  lemma AdministrativeEdit(s: Session, f: HanhChinhEditor.Field, v: Text)
    requires WellShaped(s.caseData)
    requires f == HanhChinhEditor.GioiTinh ==> IsGender(v)
    ensures var h := s.caseData[HanhChinh].hanhChinh;
      var r := HandleDataChange(s, HanhChinh, HanhChinhContent(HanhChinhEditor.HandleChange(h, f, v)));
      && WellShaped(r.caseData)
      && HanhChinhEditor.Get(r.caseData[HanhChinh].hanhChinh, f) == v
      && (forall g :: g != f ==> HanhChinhEditor.Get(r.caseData[HanhChinh].hanhChinh, g) == HanhChinhEditor.Get(h, g))
      && (forall other :: other != HanhChinh ==> r.caseData[other] == s.caseData[other])
  {
    assert Fits(HanhChinh, s.caseData[HanhChinh]);
  }

  /** `handleSectionSelect`: the section becomes active and the menu closes. */
  function HandleSectionSelect(s: Session, id: SectionId): (r: Session)
    ensures r.activeSection == id && !r.menuOpen
    ensures r.(activeSection := s.activeSection, menuOpen := s.menuOpen) == s
  {
    s.(activeSection := id, menuOpen := false)
  }

  /** Choosing a section twice is choosing it once, and a later choice
      overrides an earlier one. */
  lemma SectionSelectLaws(s: Session, id: SectionId, other: SectionId)
    ensures HandleSectionSelect(HandleSectionSelect(s, id), id) == HandleSectionSelect(s, id)
    ensures HandleSectionSelect(HandleSectionSelect(s, other), id) == HandleSectionSelect(s, id)
  {
  }

  /** `toggleTeacherPanel`: the panel flips; opening it marks the feedback as
      seen, closing it leaves the mark alone. */
  function ToggleTeacherPanel(s: Session): (r: Session)
    ensures r.teacherPanelOpen == !s.teacherPanelOpen
    ensures !s.teacherPanelOpen ==> !r.hasNewFeedback
    ensures s.teacherPanelOpen ==> r.hasNewFeedback == s.hasNewFeedback
    ensures r.(teacherPanelOpen := s.teacherPanelOpen, hasNewFeedback := s.hasNewFeedback) == s
  {
    s.(teacherPanelOpen := !s.teacherPanelOpen,
       hasNewFeedback := if !s.teacherPanelOpen then false else s.hasNewFeedback)
  }

  /** Toggling twice restores the panel, and the panel has been open in
      between, so the new-feedback mark is cleared. */
  lemma ToggleTwice(s: Session)
    ensures ToggleTeacherPanel(ToggleTeacherPanel(s)).teacherPanelOpen == s.teacherPanelOpen
    ensures !ToggleTeacherPanel(ToggleTeacherPanel(s)).hasNewFeedback
  {
  }

  // ----------------------------------------------------------------------
  // runAnalysis

  /** What awaiting the analysis gave: its result (`None` is `null`), or an
      exception that escaped it. */
  datatype Awaited = Returned(result: Option<TeacherFeedback>) | Failed

  /** The feedback stored when the analysis itself throws. */
  function GeneralError(): (fb: TeacherFeedback)
    ensures IsServiceError(fb, Utf16("GENERAL_ERROR"))
  {
    TeacherFeedback([FeedbackItem(Utf16("GENERAL_ERROR"), Utf16("Không thể phân tích. Vui lòng thử lại."), [], None)], [])
  }

  predicate HasItems(fb: TeacherFeedback) {
    |fb.errors| > 0 || |fb.suggestions| > 0
  }

  /** Before the call: the loading flag is raised. */
  function BeginAnalysis(s: Session): (r: Session)
    ensures r.isLoading && r.(isLoading := s.isLoading) == s
  {
    s.(isLoading := true)
  }

  /** `runAnalysis` from start to end: the `try`, `catch` and `finally`.
      Any feedback is stored and marked new exactly when it has an item;
      `null` keeps the earlier feedback and mark; an escaped exception stores
      the general error and marks it new. The loading flag is down afterwards
      on every path, and the report, the section and the panels are
      untouched. */
  function RunAnalysis(s: Session, awaited: Awaited): (r: Session)
    ensures !r.isLoading
    ensures awaited.Returned? && awaited.result.Some? ==>
      r.teacherFeedback == awaited.result && (r.hasNewFeedback <==> HasItems(awaited.result.value))
    ensures awaited == Returned(None) ==>
      r.teacherFeedback == s.teacherFeedback && r.hasNewFeedback == s.hasNewFeedback
    ensures awaited.Failed? ==> r.teacherFeedback == Some(GeneralError()) && r.hasNewFeedback
    ensures r.(teacherFeedback := s.teacherFeedback, hasNewFeedback := s.hasNewFeedback, isLoading := s.isLoading) == s
  {
    var loading := BeginAnalysis(s);
    var settled :=
      match awaited
      case Failed => loading.(teacherFeedback := Some(GeneralError()), hasNewFeedback := true)
      case Returned(None) => loading
      case Returned(Some(fb)) => loading.(teacherFeedback := Some(fb), hasNewFeedback := HasItems(fb));
    settled.(isLoading := false)
  }

  /** With the service in place of the awaited call, a missing key is
      always reported as new feedback, even for an empty section. */
  lemma MissingKeyReported(s: Session, stringify: Stringify, call: Prompt -> CallOutcome)
    ensures var a := AnalyzeCaseReport(s.activeSection, s.caseData, false, stringify, call);
      var r := RunAnalysis(s, Returned(a.feedback));
      r.teacherFeedback == Some(ApiKeyMissing()) && r.hasNewFeedback
  {
    assert HasItems(ApiKeyMissing());
  }

  /** An empty section, with the key set, keeps what was shown. */
  lemma EmptySectionKeepsFeedback(s: Session, stringify: Stringify, call: Prompt -> CallOutcome)
    requires ShapeEmpty(s.caseData[s.activeSection])
    ensures var a := AnalyzeCaseReport(s.activeSection, s.caseData, true, stringify, call);
      var r := RunAnalysis(s, Returned(a.feedback));
      r.teacherFeedback == s.teacherFeedback && r.hasNewFeedback == s.hasNewFeedback
  {
    NullIffEmptySection(s.activeSection, s.caseData, true, stringify, call);
  }

  /** A failed model call is stored as the API error and marked new. */
  lemma FailedCallReported(s: Session, stringify: Stringify, call: Prompt -> CallOutcome)
    requires !ShapeEmpty(s.caseData[s.activeSection])
    requires call(BuildPrompt(s.activeSection, s.caseData, stringify)).Threw?
    ensures var a := AnalyzeCaseReport(s.activeSection, s.caseData, true, stringify, call);
      var r := RunAnalysis(s, Returned(a.feedback));
      r.teacherFeedback == Some(ApiError()) && r.hasNewFeedback
  {
    SectionEmptyIff(s.caseData[s.activeSection]);
    CallOutcomes(s.activeSection, s.caseData, true, stringify, call);
    assert HasItems(ApiError());
  }

  /** The first analysis of a fresh session, with the key set, finds the
      report empty and stores nothing. */
  lemma FirstAnalysisStoresNothing(stringify: Stringify, call: Prompt -> CallOutcome)
    ensures var s := InitialSession();
      RunAnalysis(s, Returned(AnalyzeCaseReport(s.activeSection, s.caseData, true, stringify, call).feedback))
        == s
  {
  }

  /** Feedback whose every item points at no text highlights nothing. */
  lemma NoTargetsHighlightNothing(content: Text, fb: TeacherFeedback)
    requires forall i :: 0 <= i < |fb.errors| ==> fb.errors[i].targetText == []
    requires forall i :: 0 <= i < |fb.suggestions| ==> fb.suggestions[i].targetText == []
    ensures GenerateHighlightedMarkup(content, Some(fb))
         == if NoFeedback(Some(fb)) || |content| > 0 then [Span(0, |content|, Plain)] else []
  {
    forall k ensures !Found(content, fb, k) {
      if 0 <= k < |AllFeedback(fb)| {
        if k < |fb.errors| {
          assert AllFeedback(fb)[k] == fb.errors[k];
        } else {
          assert AllFeedback(fb)[k] == fb.suggestions[k - |fb.errors|];
        }
      }
    }
    NothingFoundIsPlain(content, Some(fb));
  }

  /** A single error on no text highlights nothing. */
  lemma ServiceErrorHighlightsNothing(content: Text, fb: TeacherFeedback, kind: Text)
    requires IsServiceError(fb, kind)
    ensures GenerateHighlightedMarkup(content, Some(fb)) == if |content| > 0 then [Span(0, |content|, Plain)] else []
  {
    NoTargetsHighlightNothing(content, fb);
  }

  /** The service's and the session's own error reports point at no text, so
      the editor shows the section's text without any highlight. */
  lemma ErrorReportsHighlightNothing(content: Text)
    ensures GenerateHighlightedMarkup(content, Some(ApiKeyMissing())) == if |content| > 0 then [Span(0, |content|, Plain)] else []
    ensures GenerateHighlightedMarkup(content, Some(ApiError())) == if |content| > 0 then [Span(0, |content|, Plain)] else []
    ensures GenerateHighlightedMarkup(content, Some(GeneralError())) == if |content| > 0 then [Span(0, |content|, Plain)] else []
  {
    ServiceErrorHighlightsNothing(content, ApiKeyMissing(), Utf16("API_KEY_MISSING"));
    ServiceErrorHighlightsNothing(content, ApiError(), Utf16("API_ERROR"));
    ServiceErrorHighlightsNothing(content, GeneralError(), Utf16("GENERAL_ERROR"));
  }
}
