/**
  The case report the student edits and the feedback the reviewing model
  returns: section identifiers, the shape of each section, feedback items.
 */
module Types {
  import opened JsString

  datatype Option<+T> = None | Some(value: T) {
    function GetOr(default: T): T {
      match this
      case Some(v) => v
      case None => default
    }
  }

  /** The ten sections of a case report, in their display order. */
  datatype SectionId =
    | HanhChinh | LyDoVaoVien | BenhSu | TienSu | KhamBenh
    | TomTatBenhAn | DatVanDe | ChanDoan | DeNghiCLS | TienLuong

  /** Every section identifier, in declaration order. */
  const AllSectionIds: seq<SectionId> :=
    [HanhChinh, LyDoVaoVien, BenhSu, TienSu, KhamBenh, TomTatBenhAn, DatVanDe, ChanDoan, DeNghiCLS, TienLuong]

  /** The key of each section in the case record, e.g. 'lyDoVaoVien'. */
  function SectionKey(id: SectionId): Text {
    match id
    case HanhChinh => Utf16("hanhChinh")
    case LyDoVaoVien => Utf16("lyDoVaoVien")
    case BenhSu => Utf16("benhSu")
    case TienSu => Utf16("tienSu")
    case KhamBenh => Utf16("khamBenh")
    case TomTatBenhAn => Utf16("tomTatBenhAn")
    case DatVanDe => Utf16("datVanDe")
    case ChanDoan => Utf16("chanDoan")
    case DeNghiCLS => Utf16("deNghiCLS")
    case TienLuong => Utf16("tienLuong")
  }

  /** The sections whose content is a plain string. */
  predicate IsProseSection(id: SectionId) {
    id in {LyDoVaoVien, BenhSu, TomTatBenhAn, ChanDoan, TienLuong}
  }

  /** The values the sex selector can hold: 'Nam', 'Nữ' or nothing chosen. */
  predicate IsGender(t: Text) {
    t == [] || t == Utf16("Nam") || t == Utf16("Nữ")
  }

  type Gender = t: Text | IsGender(t) witness []

  /** Administrative data. */
  datatype HanhChinhData = HanhChinhData(hoTen: Text, tuoi: Text, gioiTinh: Gender, ngheNghiep: Text, diaChi: Text)

  /** Personal history, split by kind. */
  datatype BanThan = BanThan(noiKhoa: Text, ngoaiKhoa: Text, diUng: Text, khac: Text)

  /** Past history: personal and family. */
  datatype TienSuData = TienSuData(banThan: BanThan, giaDinh: Text)

  /** The eight body systems of the physical examination. */
  datatype KhamBenhSystem =
    | ToanTrang | TuanHoan | HoHap | TieuHoa | ThanTietNieu | CoXuongKhop | ThanKinh | Khac

  /** The body systems in the key order of the `KHAM_BENH_SYSTEMS` table. */
  const AllSystems: seq<KhamBenhSystem> :=
    [ToanTrang, TuanHoan, HoHap, TieuHoa, ThanTietNieu, CoXuongKhop, ThanKinh, Khac]

  /** Where a system sits in the system table. */
  function SystemIndex(s: KhamBenhSystem): (i: nat)
    ensures i < |AllSystems| && AllSystems[i] == s
  {
    match s
    case ToanTrang => 0 case TuanHoan => 1 case HoHap => 2 case TieuHoa => 3
    case ThanTietNieu => 4 case CoXuongKhop => 5 case ThanKinh => 6 case Khac => 7
  }

  lemma SystemListed(s: KhamBenhSystem)
    ensures s in AllSystems
  {
    assert AllSystems[SystemIndex(s)] == s;
  }

  /** Every system with an empty text. */
  function BlankExam(): (m: map<KhamBenhSystem, Text>)
    ensures forall s :: s in m && m[s] == []
  {
    forall s ensures s in AllSystems { SystemListed(s); }
    map s | s in AllSystems :: []
  }

  /** Physical examination: exactly one text per body system. */
  type KhamBenhData = m: map<KhamBenhSystem, Text> | forall s :: s in m witness BlankExam()

  /** Requested investigations: three named lists. */
  datatype DeNghiCLSData = DeNghiCLSData(chanDoan: seq<Text>, theoDoi: seq<Text>, thuongQuy: seq<Text>)

  /** The value held by one section; each section id has one declared shape. */
  datatype SectionContent =
    | Prose(text: Text)
    | HanhChinhContent(hanhChinh: HanhChinhData)
    | TienSuContent(tienSu: TienSuData)
    | KhamBenhContent(khamBenh: KhamBenhData)
    | ProblemList(problems: seq<Text>)
    | DeNghiCLSContent(deNghiCLS: DeNghiCLSData)

  /** `c` has the shape the case record declares for section `id`. */
  predicate Fits(id: SectionId, c: SectionContent) {
    match id
    case HanhChinh => c.HanhChinhContent?
    case TienSu => c.TienSuContent?
    case KhamBenh => c.KhamBenhContent?
    case DatVanDe => c.ProblemList?
    case DeNghiCLS => c.DeNghiCLSContent?
    case _ => c.Prose?
  }

  lemma SectionListed(id: SectionId)
    ensures id in AllSectionIds
  {
    match id
    case HanhChinh => case LyDoVaoVien => case BenhSu => case TienSu => case KhamBenh =>
    case TomTatBenhAn => case DatVanDe => case ChanDoan => case DeNghiCLS => case TienLuong =>
  }

  function EmptyReport(): (m: map<SectionId, SectionContent>)
    ensures forall id :: id in m
  {
    forall id ensures id in AllSectionIds { SectionListed(id); }
    map id | id in AllSectionIds :: Prose([])
  }

  /** The whole case report: one value for every section. Section edits may
      store any value, so the shapes are a separate invariant, `WellShaped`. */
  type CaseData = m: map<SectionId, SectionContent> | forall id :: id in m witness EmptyReport()

  predicate WellShaped(cd: CaseData) {
    forall id :: Fits(id, cd[id])
  }

  /** One remark of the AI teacher. `kind` is the `type` field of a feedback item. */
  datatype FeedbackItem = FeedbackItem(kind: Text, message: Text, targetText: Text, details: Option<seq<Text>>)

  /** The outcome of one analysis: both lists are always present. */
  datatype TeacherFeedback = TeacherFeedback(errors: seq<FeedbackItem>, suggestions: seq<FeedbackItem>)

  /** The sections are exactly the ten identifiers, each listed once. */
  lemma SectionIdsClosed()
    ensures |AllSectionIds| == 10
    ensures forall id: SectionId :: id in AllSectionIds
    ensures forall i, j :: 0 <= i < j < |AllSectionIds| ==> AllSectionIds[i] != AllSectionIds[j]
  {
    forall id: SectionId ensures id in AllSectionIds { SectionListed(id); }
  }

  /** The examination record has exactly eight systems, each listed once. */
  lemma SystemsClosed(k: KhamBenhData)
    ensures |AllSystems| == 8
    ensures forall s: KhamBenhSystem :: s in AllSystems && s in k
    ensures forall i, j :: 0 <= i < j < |AllSystems| ==> AllSystems[i] != AllSystems[j]
  {
    forall s: KhamBenhSystem ensures s in AllSystems { SystemListed(s); }
    forall i, j | 0 <= i < j < |AllSystems| ensures AllSystems[i] != AllSystems[j] {
      assert SystemIndex(AllSystems[i]) == i by { SystemIndexOfEntry(i); }
      assert SystemIndex(AllSystems[j]) == j by { SystemIndexOfEntry(j); }
    }
  }

  lemma SystemIndexOfEntry(i: int)
    requires 0 <= i < |AllSystems|
    ensures SystemIndex(AllSystems[i]) == i
  {
    if i < 4 {
      assert i == 0 || i == 1 || i == 2 || i == 3;
    } else {
      assert i == 4 || i == 5 || i == 6 || i == 7;
    }
  }
}
