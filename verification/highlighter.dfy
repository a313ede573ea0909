/**
  Inline highlighting of a prose section: the text is cut into plain, error
  and suggestion spans by locating each feedback item's target text.
 */
module Highlighter {
  import opened JsString
  import opened Types

  datatype Category = Plain | Error | Suggestion

  /** The code units `[start, end)` of the section text, shown as `category`. */
  datatype Span = Span(start: nat, end: nat, category: Category)

  /** An entry of the combined feedback list (errors first, then suggestions)
      once its target has been searched for: `rank` is its position in that
      list and `index` what `indexOf` returned for its target. */
  datatype Match = Match(rank: nat, category: Category, target: Text, index: int)

  /** No feedback at all, or feedback with both lists empty. */
  predicate NoFeedback(feedback: Option<TeacherFeedback>) {
    feedback.None? || (|feedback.value.errors| == 0 && |feedback.value.suggestions| == 0)
  }

  /** The combined list, each entry tagged and searched for in `content`. */
  function Located(content: Text, fb: TeacherFeedback): (ms: seq<Match>)
    ensures |ms| == |fb.errors| + |fb.suggestions|
    ensures forall k :: 0 <= k < |ms| ==>
      && ms[k].rank == k
      && ms[k].index == IndexOf(content, ms[k].target)
      && (k < |fb.errors| ==> ms[k].category == Error && ms[k].target == fb.errors[k].targetText)
      && (k >= |fb.errors| ==> ms[k].category == Suggestion && ms[k].target == fb.suggestions[k - |fb.errors|].targetText)
  {
    var items := fb.errors + fb.suggestions;
    seq(|items|, k requires 0 <= k < |items| =>
      Match(k, if k < |fb.errors| then Error else Suggestion, items[k].targetText, IndexOf(content, items[k].targetText)))
  }

  /** The filter in `generateHighlightedMarkup`: a non-empty target that occurs in the text. */
  predicate Keep(m: Match) {
    |m.target| > 0 && m.index != -1
  }

  predicate RanksAscending(ms: seq<Match>) {
    forall i, j :: 0 <= i < j < |ms| ==> ms[i].rank < ms[j].rank
  }

  /** The entries that pass the filter, in their original order. */
  function Kept(ms: seq<Match>): (r: seq<Match>)
    ensures forall m :: m in r <==> m in ms && Keep(m)
    ensures RanksAscending(ms) ==> RanksAscending(r)
  {
    if |ms| == 0 then []
    else
      var rest := Kept(ms[1..]);
      assert forall m :: m in ms <==> m == ms[0] || m in ms[1..];
      if Keep(ms[0]) then
        assert RanksAscending(ms) ==> forall m :: m in rest ==> ms[0].rank < m.rank;
        [ms[0]] + rest
      else rest
  }

  /** Start order, ties broken by position in the combined list. */
  predicate LexLess(a: Match, b: Match) {
    a.index < b.index || (a.index == b.index && a.rank < b.rank)
  }

  predicate SortedByStart(ms: seq<Match>) {
    forall i, j :: 0 <= i < j < |ms| ==> LexLess(ms[i], ms[j])
  }

  /** Puts `m` in front of the first entry whose index is not below its own. */
  function Insert(m: Match, s: seq<Match>): (r: seq<Match>)
    ensures multiset(r) == multiset(s) + multiset{m}
  {
    if |s| == 0 || m.index <= s[0].index then [m] + s
    else
      assert s == [s[0]] + s[1..];
      [s[0]] + Insert(m, s[1..])
  }

  /** The sort by `index` (`(a, b) => a.index - b.index`): an insertion sort
      that keeps entries with the same index in their list order. */
  function SortByIndex(ms: seq<Match>): (r: seq<Match>)
    ensures multiset(r) == multiset(ms)
  {
    if |ms| == 0 then []
    else
      assert ms == [ms[0]] + ms[1..];
      Insert(ms[0], SortByIndex(ms[1..]))
  }

  /** Inserting an entry ranked before all others keeps (index, rank) order. */
  lemma {:induction false} InsertKeepsOrder(m: Match, s: seq<Match>)
    requires SortedByStart(s)
    requires forall x :: x in s ==> m.rank < x.rank
    ensures SortedByStart(Insert(m, s))
  {
    if |s| == 0 || m.index <= s[0].index {
      ConsKeepsOrder(m, s);
    } else {
      assert s == [s[0]] + s[1..];
      var r := Insert(m, s[1..]);
      assert SortedByStart(r) by {
        assert forall x :: x in s[1..] ==> x in s;
        InsertKeepsOrder(m, s[1..]);
      }
      HeadPrecedesInsert(m, s);
      ConsKeepsOrder(s[0], r);
    }
  }

  /** When `m` goes after the head, the head precedes everything else. */
  lemma HeadPrecedesInsert(m: Match, s: seq<Match>)
    requires SortedByStart(s) && |s| > 0 && s[0].index < m.index
    ensures forall x :: x in Insert(m, s[1..]) ==> LexLess(s[0], x)
  {
    var r := Insert(m, s[1..]);
    forall x | x in r ensures LexLess(s[0], x) {
      assert x in multiset(r);
      if x != m {
        assert x in multiset(s[1..]);
        var j :| 0 <= j < |s[1..]| && s[1..][j] == x;
        assert s[j + 1] == x;
      }
    }
  }

  /** An entry that precedes every entry of an ordered list can go first. */
  lemma ConsKeepsOrder(a: Match, r: seq<Match>)
    requires SortedByStart(r)
    requires forall x :: x in r ==> LexLess(a, x)
    ensures SortedByStart([a] + r)
  {
    var t := [a] + r;
    forall i, j | 0 <= i < j < |t| ensures LexLess(t[i], t[j]) {
      assert t[j] == r[j - 1] && t[j] in r;
      if i > 0 {
        assert t[i] == r[i - 1];
      }
    }
  }

  /** The sort is stable: its result is ordered by start and, among equal
      starts, by position in the original list. */
  lemma {:induction false} SortByIndexStable(ms: seq<Match>)
    requires RanksAscending(ms)
    ensures SortedByStart(SortByIndex(ms))
  {
    if |ms| > 0 {
      var rest := SortByIndex(ms[1..]);
      SortByIndexStable(ms[1..]);
      forall x | x in rest ensures ms[0].rank < x.rank {
        assert x in multiset(ms[1..]);
      }
      InsertKeepsOrder(ms[0], rest);
    }
  }

  /** The sweep's state: the cursor (`lastIndex`), the set of start indices
      already highlighted (`processedIndices`) and the spans pushed so far. */
  datatype Cursor = Cursor(lastIndex: nat, processed: set<int>, parts: seq<Span>)

  /** One step of the sweep over the sorted entries. */
  function Visit(c: Cursor, m: Match): Cursor {
    if m.index < c.lastIndex || m.index in c.processed then c
    else
      var pre := if m.index > c.lastIndex then [Span(c.lastIndex, m.index, Plain)] else [];
      Cursor(m.index + |m.target|, c.processed + {m.index},
             c.parts + pre + [Span(m.index, m.index + |m.target|, m.category)])
  }

  /** The sweep after visiting the first `k` sorted entries. */
  function Sweep(sorted: seq<Match>, k: nat): Cursor
    requires k <= |sorted|
  {
    if k == 0 then Cursor(0, {}, [])
    else Visit(Sweep(sorted, k - 1), sorted[k - 1])
  }

  /** The sorted list the sweep walks over. */
  function SortedMatches(content: Text, fb: TeacherFeedback): seq<Match> {
    SortByIndex(Kept(Located(content, fb)))
  }

  /** The spans `[lo, hi)` is cut into: non-empty, in ascending order,
      pairwise disjoint, with no gaps. */
  ghost predicate Tiles(spans: seq<Span>, lo: nat, hi: nat) {
    && (|spans| == 0 ==> lo == hi)
    && (|spans| > 0 ==> spans[0].start == lo && spans[|spans| - 1].end == hi)
    && (forall i :: 0 <= i < |spans| ==> spans[i].start < spans[i].end)
    && (forall i, j :: 0 <= i < j < |spans| ==> spans[i].end <= spans[j].start)
    && (forall i, j :: 0 <= i < |spans| && 0 <= j < |spans| && j == i + 1 ==> spans[i].end == spans[j].start)
  }

  /** The spans of a section text under the given feedback. */
  function GenerateHighlightedMarkup(content: Text, feedback: Option<TeacherFeedback>): (spans: seq<Span>)
    ensures NoFeedback(feedback) ==> spans == [Span(0, |content|, Plain)]
  {
    if NoFeedback(feedback) then [Span(0, |content|, Plain)]
    else
      var sorted := SortedMatches(content, feedback.value);
      Finish(Sweep(sorted, |sorted|), |content|)
  }

  /** After the sweep: a plain span for any text after the cursor. */
  function Finish(c: Cursor, length: nat): seq<Span> {
    if c.lastIndex < length then c.parts + [Span(c.lastIndex, length, Plain)] else c.parts
  }

  // ----------------------------------------------------------------------
  // The sweep's invariant

  /** What the sweep relies on about its input: every entry passed the
      filter, really occurs at its index, and the list is in start order. */
  ghost predicate SweepInput(content: Text, sorted: seq<Match>) {
    && SortedByStart(sorted)
    && forall j :: 0 <= j < |sorted| ==>
         Keep(sorted[j]) && sorted[j].category != Plain && OccursAt(content, sorted[j].target, sorted[j].index)
  }

  /** Highlight `h` comes from sorted entry `j`, and every earlier entry
      starts strictly before it. */
  ghost predicate Claims(sorted: seq<Match>, j: int, h: Span) {
    && 0 <= j < |sorted|
    && sorted[j].index == h.start
    && h.end == h.start + |sorted[j].target|
    && h.category == sorted[j].category
    && forall j' :: 0 <= j' < j ==> sorted[j'].index < h.start
  }

  /** Position `x` lies inside no plain span. */
  ghost predicate OutsidePlain(spans: seq<Span>, x: int) {
    forall i :: 0 <= i < |spans| && spans[i].category == Plain ==> !(spans[i].start <= x < spans[i].end)
  }

  /** Every highlight pushed so far comes from one of the first `k` entries. */
  ghost predicate AllClaimed(sorted: seq<Match>, k: nat, parts: seq<Span>) {
    forall i :: 0 <= i < |parts| && parts[i].category != Plain ==>
      exists j :: 0 <= j < k && Claims(sorted, j, parts[i])
  }

  ghost predicate SweepInv(content: Text, sorted: seq<Match>, k: nat, c: Cursor)
    requires k <= |sorted|
  {
    && Tiles(c.parts, 0, c.lastIndex)
    && c.lastIndex <= |content|
    && (forall j :: 0 <= j < k ==> sorted[j].index < c.lastIndex)
    && (forall x :: x in c.processed ==> x < c.lastIndex)
    && AllClaimed(sorted, k, c.parts)
    && (forall j :: 0 <= j < k ==> OutsidePlain(c.parts, sorted[j].index))
    && (|c.parts| > 0 ==> c.parts[|c.parts| - 1].category != Plain)
  }

  /** Each located entry sits at the position given by its rank, is an
      error or a suggestion, and carries the first occurrence of its target. */
  lemma LocatedFacts(content: Text, fb: TeacherFeedback)
    ensures RanksAscending(Located(content, fb))
    ensures forall m :: m in Located(content, fb) ==>
      && m.rank < |Located(content, fb)|
      && Located(content, fb)[m.rank] == m
      && m.category != Plain
      && m.index == IndexOf(content, m.target)
  {
  }

  lemma SortedMatchesWellFormed(content: Text, fb: TeacherFeedback)
    ensures SweepInput(content, SortedMatches(content, fb))
    ensures forall m :: m in SortedMatches(content, fb) <==> m in Located(content, fb) && Keep(m)
  {
    var located := Located(content, fb);
    var kept := Kept(located);
    var sorted := SortedMatches(content, fb);
    LocatedFacts(content, fb);
    SortByIndexStable(kept);
    forall m ensures m in sorted <==> m in kept {
      assert m in sorted <==> m in multiset(sorted);
    }
    forall j | 0 <= j < |sorted|
      ensures Keep(sorted[j]) && sorted[j].category != Plain && OccursAt(content, sorted[j].target, sorted[j].index)
    {
      assert sorted[j] in kept;
    }
  }

  lemma VisitPreserves(content: Text, sorted: seq<Match>, k: nat, c: Cursor)
    requires 0 < k <= |sorted|
    requires SweepInput(content, sorted)
    requires SweepInv(content, sorted, k - 1, c)
    ensures SweepInv(content, sorted, k, Visit(c, sorted[k - 1]))
  {
    var m := sorted[k - 1];
    if m.index < c.lastIndex || m.index in c.processed {
      VisitSkips(content, sorted, k, c);
    } else {
      VisitEmits(content, sorted, k, c);
    }
  }

  /** An entry that starts before the cursor starts inside the last highlight. */
  lemma VisitSkips(content: Text, sorted: seq<Match>, k: nat, c: Cursor)
    requires 0 < k <= |sorted|
    requires SweepInput(content, sorted)
    requires SweepInv(content, sorted, k - 1, c)
    requires sorted[k - 1].index < c.lastIndex || sorted[k - 1].index in c.processed
    ensures SweepInv(content, sorted, k, Visit(c, sorted[k - 1]))
  {
    var m := sorted[k - 1];
    assert m.index < c.lastIndex;
    var n := |c.parts|;
    var h := c.parts[n - 1];
    var j :| 0 <= j < k - 1 && Claims(sorted, j, h);
    assert LexLess(sorted[j], sorted[k - 1]);
    assert h.start <= m.index < h.end;
    assert OutsidePlain(c.parts, m.index);
  }

  /** An entry at or after the cursor is highlighted, after a plain span
      for any gap. */
  lemma VisitEmits(content: Text, sorted: seq<Match>, k: nat, c: Cursor)
    requires 0 < k <= |sorted|
    requires SweepInput(content, sorted)
    requires SweepInv(content, sorted, k - 1, c)
    requires !(sorted[k - 1].index < c.lastIndex || sorted[k - 1].index in c.processed)
    ensures SweepInv(content, sorted, k, Visit(c, sorted[k - 1]))
  {
    var m := sorted[k - 1];
    var pre := if m.index > c.lastIndex then [Span(c.lastIndex, m.index, Plain)] else [];
    var h := Span(m.index, m.index + |m.target|, m.category);
    var c' := Visit(c, m);
    assert c' == Cursor(h.end, c.processed + {m.index}, c.parts + pre + [h]);
    assert Keep(m) && m.category != Plain && OccursAt(content, m.target, m.index);
    assert Tiles(c'.parts, 0, c'.lastIndex) by {
      EmitTiles(c.parts, c.lastIndex, pre, h);
    }
    assert forall j :: 0 <= j < k ==> sorted[j].index < c'.lastIndex;
    assert AllClaimed(sorted, k, c'.parts) by {
      assert Claims(sorted, k - 1, h);
      EmitClaimed(sorted, k, c.parts, pre, h);
    }
    assert forall j :: 0 <= j < k ==> OutsidePlain(c'.parts, sorted[j].index) by {
      EmitOutsidePlain(sorted, k, c.parts, c.lastIndex, pre, h);
    }
    assert c'.parts[|c'.parts| - 1] == h;
  }

  lemma EmitTiles(parts: seq<Span>, lastIndex: nat, pre: seq<Span>, h: Span)
    requires Tiles(parts, 0, lastIndex)
    requires lastIndex <= h.start < h.end
    requires pre == if h.start > lastIndex then [Span(lastIndex, h.start, Plain)] else []
    ensures Tiles(parts + pre + [h], 0, h.end)
  {
    if h.start > lastIndex {
      TilesAppend(parts, 0, lastIndex, pre[0]);
      TilesAppend(parts + pre, 0, h.start, h);
    } else {
      assert parts + pre == parts;
      TilesAppend(parts, 0, lastIndex, h);
    }
  }

  /** A tiling of `[lo, mid)` followed by a span starting at `mid` tiles up
      to that span's end. */
  lemma TilesAppend(spans: seq<Span>, lo: nat, mid: nat, s: Span)
    requires Tiles(spans, lo, mid) && s.start == mid < s.end
    ensures Tiles(spans + [s], lo, s.end)
  {
    var t := spans + [s];
    var n := |spans|;
    assert forall i :: 0 <= i < n ==> t[i] == spans[i];
    assert t[n] == s;
    assert forall i :: 0 <= i < n ==> spans[i].end <= mid by {
      forall i | 0 <= i < n ensures spans[i].end <= mid {
        if i < n - 1 {
          assert spans[i].end <= spans[n - 1].start;
        }
      }
    }
  }

  lemma EmitOutsidePlain(sorted: seq<Match>, k: nat, parts: seq<Span>, lastIndex: nat, pre: seq<Span>, h: Span)
    requires 0 < k <= |sorted|
    requires Tiles(parts, 0, lastIndex)
    requires forall j :: 0 <= j < k - 1 ==> sorted[j].index < lastIndex
    requires forall j :: 0 <= j < k - 1 ==> OutsidePlain(parts, sorted[j].index)
    requires sorted[k - 1].index == h.start && lastIndex <= h.start && h.category != Plain
    requires pre == if h.start > lastIndex then [Span(lastIndex, h.start, Plain)] else []
    ensures forall j :: 0 <= j < k ==> OutsidePlain(parts + pre + [h], sorted[j].index)
  {
    var parts' := parts + pre + [h];
    assert forall i :: 0 <= i < |parts| ==> parts[i].end <= lastIndex;
    forall j, i | 0 <= j < k && 0 <= i < |parts'| && parts'[i].category == Plain
      ensures !(parts'[i].start <= sorted[j].index < parts'[i].end)
    {
      if i < |parts| {
        assert parts'[i] == parts[i];
      } else if i < |parts| + |pre| {
        assert parts'[i] == Span(lastIndex, h.start, Plain);
        assert j < k - 1 ==> sorted[j].index < lastIndex;
      }
    }
  }

  lemma EmitClaimed(sorted: seq<Match>, k: nat, parts: seq<Span>, pre: seq<Span>, h: Span)
    requires 0 < k <= |sorted|
    requires AllClaimed(sorted, k - 1, parts)
    requires forall i :: 0 <= i < |pre| ==> pre[i].category == Plain
    requires Claims(sorted, k - 1, h)
    ensures AllClaimed(sorted, k, parts + pre + [h])
  {
    var parts' := parts + pre + [h];
    forall i | 0 <= i < |parts'| && parts'[i].category != Plain
      ensures exists j :: 0 <= j < k && Claims(sorted, j, parts'[i])
    {
      if i < |parts| {
        assert parts'[i] == parts[i];
        var j :| 0 <= j < k - 1 && Claims(sorted, j, parts[i]);
      } else if i == |parts'| - 1 {
        assert parts'[i] == h;
      }
    }
  }

  lemma {:induction false} SweepInvariant(content: Text, sorted: seq<Match>, k: nat)
    requires k <= |sorted|
    requires SweepInput(content, sorted)
    ensures SweepInv(content, sorted, k, Sweep(sorted, k))
  {
    if k > 0 {
      SweepInvariant(content, sorted, k - 1);
      VisitPreserves(content, sorted, k, Sweep(sorted, k - 1));
    }
  }

  lemma {:induction false} SweepTiles(content: Text, sorted: seq<Match>)
    requires SweepInput(content, sorted)
    ensures Tiles(Finish(Sweep(sorted, |sorted|), |content|), 0, |content|)
  {
    SweepInvariant(content, sorted, |sorted|);
    FinishTiles(Sweep(sorted, |sorted|), |content|);
  }

  lemma FinishTiles(c: Cursor, length: nat)
    requires Tiles(c.parts, 0, c.lastIndex) && c.lastIndex <= length
    ensures Tiles(Finish(c, length), 0, length)
  {
    assert forall i :: 0 <= i < |c.parts| ==> c.parts[i].end <= c.lastIndex;
  }

  /** With feedback, the spans cut the whole text into non-empty, ascending,
      pairwise disjoint pieces; so empty text yields no span at all. */
  lemma MarkupTiles(content: Text, feedback: Option<TeacherFeedback>)
    requires !NoFeedback(feedback)
    ensures Tiles(GenerateHighlightedMarkup(content, feedback), 0, |content|)
    ensures |content| == 0 ==> GenerateHighlightedMarkup(content, feedback) == []
  {
    SortedMatchesWellFormed(content, feedback.value);
    SweepTiles(content, SortedMatches(content, feedback.value));
  }

  // ----------------------------------------------------------------------
  // What the markup shows

  /** The text the spans display, in order. A highlight displays its item's
      target text, which is the same code units (see `HighlightsAreFirstOccurrences`). */
  function Render(content: Text, spans: seq<Span>): Text
    requires forall i :: 0 <= i < |spans| ==> spans[i].start <= spans[i].end <= |content|
  {
    if |spans| == 0 then []
    else content[spans[0].start..spans[0].end] + Render(content, spans[1..])
  }

  lemma {:induction false} TilesRender(content: Text, spans: seq<Span>, lo: nat, hi: nat)
    requires Tiles(spans, lo, hi) && hi <= |content|
    ensures forall i :: 0 <= i < |spans| ==> lo <= spans[i].start <= spans[i].end <= hi
    ensures Render(content, spans) == content[lo..hi]
    decreases |spans|
  {
    if |spans| > 0 {
      var rest := spans[1..];
      assert Tiles(rest, spans[0].end, hi) by {
        if |rest| > 0 {
          assert rest[0] == spans[1];
          assert spans[0].end <= spans[1].start;
          assert spans[0].end == spans[1].start;
        }
      }
      TilesRender(content, rest, spans[0].end, hi);
      assert content[lo..hi] == content[lo..spans[0].end] + content[spans[0].end..hi];
    }
  }

  /** Concatenating the displayed spans in order gives back the section text,
      with or without feedback. */
  lemma RoundTrip(content: Text, feedback: Option<TeacherFeedback>)
    ensures var spans := GenerateHighlightedMarkup(content, feedback);
      && (forall i :: 0 <= i < |spans| ==> spans[i].start <= spans[i].end <= |content|)
      && Render(content, spans) == content
  {
    var spans := GenerateHighlightedMarkup(content, feedback);
    if NoFeedback(feedback) {
      assert content[0..|content|] == content;
    } else {
      MarkupTiles(content, feedback);
      TilesRender(content, spans, 0, |content|);
      assert content[0..|content|] == content;
    }
  }

  /** The combined list `allFeedback` of `generateHighlightedMarkup`: every error, then every suggestion. */
  function AllFeedback(fb: TeacherFeedback): seq<FeedbackItem> {
    fb.errors + fb.suggestions
  }

  /** Item `k` of the combined list has a non-empty target found in the text. */
  ghost predicate Found(content: Text, fb: TeacherFeedback, k: int) {
    && 0 <= k < |AllFeedback(fb)|
    && |AllFeedback(fb)[k].targetText| > 0
    && IndexOf(content, AllFeedback(fb)[k].targetText) != -1
  }

  /** Highlight `h` shows item `k`: it starts at the first occurrence of the
      item's target, spans exactly that target, carries the item's category,
      and no earlier item of the combined list has its target found there. */
  ghost predicate ShowsItem(content: Text, fb: TeacherFeedback, k: int, h: Span) {
    && Found(content, fb, k)
    && h.start == IndexOf(content, AllFeedback(fb)[k].targetText)
    && h.end == h.start + |AllFeedback(fb)[k].targetText|
    && h.category == (if k < |fb.errors| then Error else Suggestion)
    && forall k' :: 0 <= k' < k && Found(content, fb, k') ==>
         IndexOf(content, AllFeedback(fb)[k'].targetText) != h.start
  }

  lemma LocatedIsAllFeedback(content: Text, fb: TeacherFeedback)
    ensures forall k :: 0 <= k < |Located(content, fb)| ==>
      && Located(content, fb)[k].target == AllFeedback(fb)[k].targetText
      && (Keep(Located(content, fb)[k]) <==> Found(content, fb, k))
  {
  }

  /** The sweep's final spans: every highlight is claimed by a sorted entry. */
  lemma {:induction false} FinishClaimed(content: Text, sorted: seq<Match>, i: nat)
    requires SweepInput(content, sorted)
    requires i < |Finish(Sweep(sorted, |sorted|), |content|)|
    requires Finish(Sweep(sorted, |sorted|), |content|)[i].category != Plain
    ensures exists j :: Claims(sorted, j, Finish(Sweep(sorted, |sorted|), |content|)[i])
  {
    SweepInvariant(content, sorted, |sorted|);
    var c := Sweep(sorted, |sorted|);
    assert i < |c.parts| && Finish(c, |content|)[i] == c.parts[i];
    var j :| 0 <= j < |sorted| && Claims(sorted, j, c.parts[i]);
  }

  /** Each highlight shows the first occurrence of some found item's target;
      when several found items start there, it is the one listed first
      (errors before suggestions), because the sort keeps list order. */
  lemma HighlightsAreFirstOccurrences(content: Text, feedback: Option<TeacherFeedback>, i: nat)
    requires i < |GenerateHighlightedMarkup(content, feedback)|
    requires GenerateHighlightedMarkup(content, feedback)[i].category != Plain
    ensures feedback.Some?
    ensures var h := GenerateHighlightedMarkup(content, feedback)[i];
      exists k :: ShowsItem(content, feedback.value, k, h) && h.end <= |content|
        && content[h.start..h.end] == AllFeedback(feedback.value)[k].targetText
  {
    assert !NoFeedback(feedback);
    var fb := feedback.value;
    var h := GenerateHighlightedMarkup(content, feedback)[i];
    var j := HighlightClaimed(content, fb, i);
    ClaimShowsItem(content, fb, j, h);
    var k := SortedMatches(content, fb)[j].rank;
    ShownText(content, fb, k, h);
  }

  /** Every highlight of the final spans is claimed by a sorted entry. */
  lemma HighlightClaimed(content: Text, fb: TeacherFeedback, i: nat) returns (j: int)
    requires i < |GenerateHighlightedMarkup(content, Some(fb))|
    requires GenerateHighlightedMarkup(content, Some(fb))[i].category != Plain
    ensures Claims(SortedMatches(content, fb), j, GenerateHighlightedMarkup(content, Some(fb))[i])
  {
    var sorted := SortedMatches(content, fb);
    assert !NoFeedback(Some(fb));
    assert GenerateHighlightedMarkup(content, Some(fb)) == Finish(Sweep(sorted, |sorted|), |content|);
    SortedMatchesWellFormed(content, fb);
    FinishClaimed(content, sorted, i);
    j :| Claims(sorted, j, Finish(Sweep(sorted, |sorted|), |content|)[i]);
  }

  /** The text under a highlight that shows an item is that item's target. */
  lemma ShownText(content: Text, fb: TeacherFeedback, k: int, h: Span)
    requires ShowsItem(content, fb, k, h)
    ensures h.end <= |content| && content[h.start..h.end] == AllFeedback(fb)[k].targetText
  {
    assert OccursAt(content, AllFeedback(fb)[k].targetText, h.start);
  }

  /** The entry that claims a highlight is the item it shows. */
  lemma ClaimShowsItem(content: Text, fb: TeacherFeedback, j: int, h: Span)
    requires Claims(SortedMatches(content, fb), j, h)
    ensures ShowsItem(content, fb, SortedMatches(content, fb)[j].rank, h)
  {
    var sorted := SortedMatches(content, fb);
    var located := Located(content, fb);
    SortedMatchesWellFormed(content, fb);
    var k := sorted[j].rank;
    LocatedFacts(content, fb);
    assert sorted[j] in located;
    assert located[k] == sorted[j];
    LocatedIsAllFeedback(content, fb);
    forall k' | 0 <= k' < k && Found(content, fb, k')
      ensures IndexOf(content, AllFeedback(fb)[k'].targetText) != h.start
    {
      assert located[k'] in sorted;
      ClaimBeatsTies(sorted, j, h, located[k']);
    }
  }

  /** A claimed highlight starts strictly after every entry ranked before
      its own: entries sharing its start are ranked after it. */
  lemma ClaimBeatsTies(sorted: seq<Match>, j: int, h: Span, m: Match)
    requires SortedByStart(sorted) && Claims(sorted, j, h)
    requires m in sorted && m.rank < sorted[j].rank
    ensures m.index != h.start
  {
    var j' :| 0 <= j' < |sorted| && sorted[j'] == m;
    if j < j' {
      assert LexLess(sorted[j], sorted[j']);
    }
  }

  /** Some span of a tiling contains each position it spans. */
  lemma {:induction false} TilesLocate(spans: seq<Span>, lo: nat, hi: nat, x: int)
    requires Tiles(spans, lo, hi) && lo <= x < hi
    ensures exists i :: 0 <= i < |spans| && spans[i].start <= x < spans[i].end
    decreases |spans|
  {
    if x >= spans[0].end {
      var rest := spans[1..];
      assert |rest| > 0 && rest[0] == spans[1];
      assert spans[0].end == spans[1].start;
      TilesLocate(rest, spans[0].end, hi, x);
      var i :| 0 <= i < |rest| && rest[i].start <= x < rest[i].end;
      assert spans[i + 1] == rest[i];
    }
  }

  /** A found item that was dropped was dropped only because its target starts
      inside an earlier highlight: every found item's first occurrence starts
      inside some highlight. Overlapping items are never merged. */
  lemma EveryFoundItemCovered(content: Text, feedback: Option<TeacherFeedback>, k: nat)
    requires feedback.Some? && Found(content, feedback.value, k)
    ensures var spans := GenerateHighlightedMarkup(content, feedback);
      exists i :: 0 <= i < |spans| && spans[i].category != Plain
        && spans[i].start <= IndexOf(content, AllFeedback(feedback.value)[k].targetText) < spans[i].end
  {
    var fb := feedback.value;
    var sorted := SortedMatches(content, fb);
    var c := Sweep(sorted, |sorted|);
    var x := IndexOf(content, AllFeedback(fb)[k].targetText);
    FoundIsSwept(content, fb, k);
    TilesLocate(c.parts, 0, c.lastIndex, x);
    var i :| 0 <= i < |c.parts| && c.parts[i].start <= x < c.parts[i].end;
    assert !NoFeedback(feedback);
    assert GenerateHighlightedMarkup(content, feedback) == Finish(c, |content|);
    assert Finish(c, |content|)[i] == c.parts[i];
  }

  /** After the sweep, a found item's first occurrence lies before the cursor
      and inside no plain span. */
  lemma FoundIsSwept(content: Text, fb: TeacherFeedback, k: nat)
    requires Found(content, fb, k)
    ensures var sorted := SortedMatches(content, fb);
      var c := Sweep(sorted, |sorted|);
      var x := IndexOf(content, AllFeedback(fb)[k].targetText);
      && Tiles(c.parts, 0, c.lastIndex) && x < c.lastIndex && OutsidePlain(c.parts, x)
  {
    var sorted := SortedMatches(content, fb);
    var located := Located(content, fb);
    LocatedIsAllFeedback(content, fb);
    SortedMatchesWellFormed(content, fb);
    SweepInvariant(content, sorted, |sorted|);
    assert located[k] in sorted;
    var j :| 0 <= j < |sorted| && sorted[j] == located[k];
  }

  /** When no item has a non-empty target that occurs in the text, the text
      is one plain span, or no span at all when it is empty. */
  lemma NothingFoundIsPlain(content: Text, feedback: Option<TeacherFeedback>)
    requires feedback.Some? && forall k :: !Found(content, feedback.value, k)
    ensures GenerateHighlightedMarkup(content, feedback)
      == if NoFeedback(feedback) || |content| > 0 then [Span(0, |content|, Plain)] else []
  {
    if !NoFeedback(feedback) {
      var fb := feedback.value;
      var sorted := SortedMatches(content, fb);
      LocatedIsAllFeedback(content, fb);
      LocatedFacts(content, fb);
      SortedMatchesWellFormed(content, fb);
    }
  }

  /** The duplicate-start check never decides anything: whenever an entry's
      start is already in the set of highlighted starts, it also lies before
      the cursor, because each highlight moves the cursor past its start. */
  lemma ProcessedCheckRedundant(content: Text, feedback: TeacherFeedback, k: nat)
    requires k < |SortedMatches(content, feedback)|
    ensures var sorted := SortedMatches(content, feedback);
      var c := Sweep(sorted, k);
      sorted[k].index in c.processed ==> sorted[k].index < c.lastIndex
  {
    SortedMatchesWellFormed(content, feedback);
    SweepInvariant(content, SortedMatches(content, feedback), k);
  }

  /** There is only one list ordered by (start, list position) with the given
      entries: so the insertion sort agrees with any stable sort by start,
      which is what `Array.prototype.sort` is. */
  lemma {:induction false} StableSortUnique(a: seq<Match>, b: seq<Match>)
    requires multiset(a) == multiset(b)
    requires SortedByStart(a) && SortedByStart(b)
    ensures a == b
    decreases |a|
  {
    assert |a| == |multiset(a)| == |b|;
    if |a| > 0 {
      SortedHeadsAgree(a, b);
      TailsAgree(a, b);
      StableSortUnique(a[1..], b[1..]);
      assert a == [a[0]] + a[1..] && b == [b[0]] + b[1..];
    }
  }

  /** The least entry in (start, rank) order comes first in both lists. */
  lemma SortedHeadsAgree(a: seq<Match>, b: seq<Match>)
    requires multiset(a) == multiset(b) && |a| > 0
    requires SortedByStart(a) && SortedByStart(b)
    ensures |b| > 0 && a[0] == b[0]
  {
    assert a[0] in multiset(b);
    assert |b| > 0 && b[0] in multiset(a);
    var i :| 0 <= i < |b| && b[i] == a[0];
    var j :| 0 <= j < |a| && a[j] == b[0];
    if i > 0 {
      assert LexLess(b[0], b[i]);
    } else if j > 0 {
      assert LexLess(a[0], a[j]);
    }
  }

  lemma TailsAgree(a: seq<Match>, b: seq<Match>)
    requires multiset(a) == multiset(b) && |a| > 0 && |b| > 0 && a[0] == b[0]
    requires SortedByStart(a) && SortedByStart(b)
    ensures multiset(a[1..]) == multiset(b[1..])
    ensures SortedByStart(a[1..]) && SortedByStart(b[1..])
  {
    assert a == [a[0]] + a[1..] && b == [b[0]] + b[1..];
    assert multiset(a) == multiset{a[0]} + multiset(a[1..]);
    assert multiset(b) == multiset{b[0]} + multiset(b[1..]);
    assert multiset(a[1..]) == multiset(a) - multiset{a[0]};
    assert multiset(b[1..]) == multiset(b) - multiset{b[0]};
  }

  /** Any reordering of the entries by start that keeps list order among
      equal starts is exactly what the sort returns. */
  lemma SortIsTheStableSort(ms: seq<Match>, r: seq<Match>)
    requires RanksAscending(ms)
    requires multiset(r) == multiset(ms) && SortedByStart(r)
    ensures SortByIndex(ms) == r
  {
    SortByIndexStable(ms);
    StableSortUnique(SortByIndex(ms), r);
  }
}
