/**
  The history editor: four personal-history fields and the family history,
  on two tabs.
 */
module TienSuEditor {
  import opened JsString
  import opened Types

  datatype Tab = BanThanTab | GiaDinhTab

  /** The tab shown first. */
  const InitialTab: Tab := BanThanTab

  datatype BanThanField = NoiKhoa | NgoaiKhoa | DiUng | KhacField

  function Get(b: BanThan, f: BanThanField): Text {
    match f
    case NoiKhoa => b.noiKhoa
    case NgoaiKhoa => b.ngoaiKhoa
    case DiUng => b.diUng
    case KhacField => b.khac
  }

  /** `handleBanThanChange`: one personal-history field changes; the other
      three and the family history stay. */
  function HandleBanThanChange(t: TienSuData, f: BanThanField, v: Text): (r: TienSuData)
    ensures Get(r.banThan, f) == v
    ensures forall g :: g != f ==> Get(r.banThan, g) == Get(t.banThan, g)
    ensures r.giaDinh == t.giaDinh
  {
    var b := t.banThan;
    var b' := match f
      case NoiKhoa => b.(noiKhoa := v)
      case NgoaiKhoa => b.(ngoaiKhoa := v)
      case DiUng => b.(diUng := v)
      case KhacField => b.(khac := v);
    t.(banThan := b')
  }

  /** `handleGiaDinhChange`: only the family history changes. */
  function HandleGiaDinhChange(t: TienSuData, v: Text): (r: TienSuData)
    ensures r.giaDinh == v && r.banThan == t.banThan
  {
    t.(giaDinh := v)
  }

  /** Changes to different parts of the history commute, and writing back
      what is there changes nothing. */
  lemma ChangesCommute(t: TienSuData, f: BanThanField, v: Text, w: Text)
    ensures HandleGiaDinhChange(HandleBanThanChange(t, f, v), w)
         == HandleBanThanChange(HandleGiaDinhChange(t, w), f, v)
    ensures HandleBanThanChange(t, f, Get(t.banThan, f)) == t
    ensures HandleGiaDinhChange(t, t.giaDinh) == t
  {
  }
}
