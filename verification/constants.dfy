/**
  The section table: which sections exist, in which order, and which editor
  each one is shown with.
 */
module Constants {
  import opened Types

  /** The editor a section is shown with: the plain text editor, or the
      dedicated editor named after a structured section. */
  datatype Component = DefaultEditor | Dedicated(owner: SectionId)

  /** The closed set of editors: the default one and five dedicated ones. */
  predicate IsEditor(c: Component) {
    c.DefaultEditor? || c.owner in {HanhChinh, TienSu, KhamBenh, DatVanDe, DeNghiCLS}
  }

  /** One row of the section table; titles and placeholders are display text
      and are not modelled. */
  datatype Section = Section(id: SectionId, component: Component)

  /** The section table, in display order. */
  function Sections(): (s: seq<Section>)
    ensures |s| == 10
    ensures forall i :: 0 <= i < |s| ==> s[i].id == AllSectionIds[i] && IsEditor(s[i].component)
    ensures forall i :: 0 <= i < |s| ==> (s[i].component.DefaultEditor? <==> IsProseSection(s[i].id))
    ensures forall i :: 0 <= i < |s| && s[i].component.Dedicated? ==> s[i].component.owner == s[i].id
  {
    [ Section(HanhChinh, Dedicated(HanhChinh)),
      Section(LyDoVaoVien, DefaultEditor),
      Section(BenhSu, DefaultEditor),
      Section(TienSu, Dedicated(TienSu)),
      Section(KhamBenh, Dedicated(KhamBenh)),
      Section(TomTatBenhAn, DefaultEditor),
      Section(DatVanDe, Dedicated(DatVanDe)),
      Section(ChanDoan, DefaultEditor),
      Section(DeNghiCLS, Dedicated(DeNghiCLS)),
      Section(TienLuong, DefaultEditor) ]
  }

  /** `sections.find(s => s.id === id)`: the first row with that id. */
  function Find(sections: seq<Section>, id: SectionId): (r: Option<Section>)
    ensures r.Some? <==> exists i :: 0 <= i < |sections| && sections[i].id == id
    ensures r.Some? ==> r.value.id == id && r.value in sections
    ensures r.Some? ==> exists i :: 0 <= i < |sections| && sections[i] == r.value
                                 && forall j :: 0 <= j < i ==> sections[j].id != id
  {
    if |sections| == 0 then None
    else if sections[0].id == id then Some(sections[0])
    else
      var r := Find(sections[1..], id);
      assert forall i :: 1 <= i < |sections| ==> sections[i] == sections[1..][i - 1];
      if r.Some? then
        var i :| 0 <= i < |sections[1..]| && sections[1..][i] == r.value
                 && forall j :: 0 <= j < i ==> sections[1..][j].id != id;
        assert sections[i + 1] == r.value && forall j :: 0 <= j < i + 1 ==> sections[j].id != id;
        r
      else r
  }

  /** The table lists each section exactly once, covers all ten, and starts
      with the administrative section; so looking up any section id always
      finds a row, and finds the row for that id. */
  lemma SectionTableComplete(id: SectionId)
    ensures Sections()[0].id == HanhChinh
    ensures forall i, j :: 0 <= i < j < 10 ==> Sections()[i].id != Sections()[j].id
    ensures Find(Sections(), id).Some? && Find(Sections(), id).value.id == id
  {
    SectionIdsClosed();
    SectionListed(id);
    var i :| 0 <= i < |AllSectionIds| && AllSectionIds[i] == id;
    assert Sections()[i].id == id;
  }

  /** A section uses the default editor exactly when its content is a plain
      string in the case record. */
  lemma DefaultEditorIffProse(id: SectionId, c: SectionContent)
    requires Fits(id, c)
    ensures Find(Sections(), id).value.component.DefaultEditor? <==> c.Prose?
  {
    SectionTableComplete(id);
  }
}
