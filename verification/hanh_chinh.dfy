/**
  The administrative-data editor: five fields, one of them a choice of sex.
 */
module HanhChinhEditor {
  import opened JsString
  import opened Types

  datatype Field = HoTen | Tuoi | GioiTinh | NgheNghiep | DiaChi

  function Get(h: HanhChinhData, f: Field): Text {
    match f
    case HoTen => h.hoTen
    case Tuoi => h.tuoi
    case GioiTinh => h.gioiTinh
    case NgheNghiep => h.ngheNghiep
    case DiaChi => h.diaChi
  }

  /** `handleChange`: the named field takes the new value, every other field
      keeps its own. The sex selector only offers 'Nam', 'Nữ' and nothing. */
  function HandleChange(h: HanhChinhData, f: Field, v: Text): (r: HanhChinhData)
    requires f == GioiTinh ==> IsGender(v)
    ensures Get(r, f) == v
    ensures forall g :: g != f ==> Get(r, g) == Get(h, g)
  {
    match f
    case HoTen => h.(hoTen := v)
    case Tuoi => h.(tuoi := v)
    case GioiTinh => h.(gioiTinh := v)
    case NgheNghiep => h.(ngheNghiep := v)
    case DiaChi => h.(diaChi := v)
  }

  /** Writing back a field's own value changes nothing, and the last of two
      writes to a field wins. */
  lemma ChangeLaws(h: HanhChinhData, f: Field, v: Text, w: Text)
    requires f == GioiTinh ==> IsGender(v) && IsGender(w)
    ensures f == GioiTinh ==> IsGender(Get(h, f))
    ensures HandleChange(h, f, Get(h, f)) == h
    ensures HandleChange(HandleChange(h, f, v), f, w) == HandleChange(h, f, w)
  {
  }
}
