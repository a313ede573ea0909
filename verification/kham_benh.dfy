/**
  The examination editor: an accordion of the eight body systems, at most
  one open, each with its own text.
 */
module KhamBenhEditor {
  import opened JsString
  import opened Types

  /** The system open first. */
  const InitialOpen: Option<KhamBenhSystem> := Some(ToanTrang)

  /** `handleToggle`: the open system closes; any other one opens alone. */
  function HandleToggle(open: Option<KhamBenhSystem>, s: KhamBenhSystem): (r: Option<KhamBenhSystem>)
    ensures forall x :: r == Some(x) <==> x == s && open != Some(s)
  {
    if open == Some(s) then None else Some(s)
  }

  /** Toggling a system twice opens it again only when it was open, and
      leaves everything closed otherwise. */
  lemma ToggleTwice(open: Option<KhamBenhSystem>, s: KhamBenhSystem)
    ensures HandleToggle(HandleToggle(open, s), s) == if open == Some(s) then Some(s) else None
  {
  }

  /** `handleChange`: only the given system's text changes. */
  function HandleChange(k: KhamBenhData, s: KhamBenhSystem, v: Text): (r: KhamBenhData)
    ensures r[s] == v
    ensures forall s' :: s' != s ==> r[s'] == k[s']
  {
    k[s := v]
  }

  /** Writing a system's own text changes nothing, and of two writes to the
      same system the last wins. */
  lemma ChangeLaws(k: KhamBenhData, s: KhamBenhSystem, v: Text, w: Text)
    ensures HandleChange(k, s, k[s]) == k
    ensures HandleChange(HandleChange(k, s, v), s, w) == HandleChange(k, s, w)
  {
    var m: map<KhamBenhSystem, Text> := k;
    assert m[s := m[s]] == m;
    assert m[s := v][s := w] == m[s := w];
  }

  /** Writes to different systems commute. */
  lemma ChangesCommute(k: KhamBenhData, s: KhamBenhSystem, t: KhamBenhSystem, v: Text, w: Text)
    requires s != t
    ensures HandleChange(HandleChange(k, s, v), t, w) == HandleChange(HandleChange(k, t, w), s, v)
  {
  }
}
