/** `$name` mentions outside fenced and inline code (pycodex/core/skills/resolver.py). */
module SkillMentions {
  import opened Prelude
  import Sorting

  type Range = (nat, nat)

  predicate AlphaNumeric(c: char) { '0' <= c <= '9' || 'A' <= c <= 'Z' || 'a' <= c <= 'z' }

  predicate NameChar(c: char) { AlphaNumeric(c) || c == '_' || c == '-' }

  /** One past the name characters from `i` on. */
  function NameEnd(text: string, i: nat): (end: nat)
    requires i <= |text|
    ensures i <= end <= |text|
    ensures forall j :: i <= j < end ==> NameChar(text[j])
    ensures end < |text| ==> !NameChar(text[end])
    decreases |text| - i
  {
    if i < |text| && NameChar(text[i]) then NameEnd(text, i + 1) else i
  }

  /** The mention pattern matches at `i`. */
  predicate MentionAt(text: string, i: nat) { i + 1 < |text| && text[i] == '$' && AlphaNumeric(text[i + 1]) }

  function Name(text: string, i: nat): string
    requires MentionAt(text, i)
  {
    text[i + 1..NameEnd(text, i + 1)]
  }

  predicate Covered(ranges: seq<Range>, p: int) { exists k :: 0 <= k < |ranges| && ranges[k].0 <= p < ranges[k].1 }

  ghost predicate Proper(ranges: seq<Range>) { forall k :: 0 <= k < |ranges| ==> ranges[k].0 < ranges[k].1 }

  // ---------------------------------------------------------------------------------------
  // Code ranges.

  predicate StartsAt(text: string, marker: string, i: nat) { i + |marker| <= |text| && text[i..i + |marker|] == marker }

  const BACKTICKS := "```"
  const TILDES := "~~~"

  function FenceMarkerAt(text: string, i: nat): Option<string> {
    if StartsAt(text, BACKTICKS, i) then Some(BACKTICKS) else if StartsAt(text, TILDES, i) then Some(TILDES) else None
  }

  /** `text.find(marker, from)`. */
  function FindFrom(text: string, marker: string, from: nat): (found: Option<nat>)
    ensures found.Some? ==> found.value >= from && StartsAt(text, marker, found.value)
    ensures found.Some? ==> forall j :: from <= j < found.value ==> !StartsAt(text, marker, j)
    ensures found.None? ==> forall j :: from <= j ==> !StartsAt(text, marker, j)
    decreases |text| - from
  {
    if from + |marker| > |text| then None
    else if StartsAt(text, marker, from) then Some(from)
    else if from < |text| then FindFrom(text, marker, from + 1) else None
  }

  /** A fence runs from its marker to behind the next equal marker, or to the end of the text. */
  ghost predicate IsFence(text: string, r: Range) {
    && r.0 < r.1 <= |text| && FenceMarkerAt(text, r.0).Some?
    && var marker := FenceMarkerAt(text, r.0).value;
       if r.1 == |text| && FindFrom(text, marker, r.0 + 3).None? then true
       else FindFrom(text, marker, r.0 + 3) == Some(r.1 - 3)
  }

  /** The fences, in order, cover every fence marker. */
  ghost predicate AreFences(text: string, ranges: seq<Range>) {
    && (forall k :: 0 <= k < |ranges| ==> IsFence(text, ranges[k]))
    && (forall k, l :: 0 <= k < l < |ranges| ==> ranges[k].1 <= ranges[l].0)
    && (forall p: nat {:trigger Covered(ranges, p)} :: FenceMarkerAt(text, p).Some? ==> Covered(ranges, p))
  }

  lemma CoverGrows(ranges: seq<Range>, r: Range)
    ensures forall p :: Covered(ranges + [r], p) <==> Covered(ranges, p) || r.0 <= p < r.1
  {
    forall p
      ensures Covered(ranges + [r], p) <==> Covered(ranges, p) || r.0 <= p < r.1
    {
      if Covered(ranges, p) {
        var k :| 0 <= k < |ranges| && ranges[k].0 <= p < ranges[k].1;
        assert (ranges + [r])[k] == ranges[k];
      }
      assert (ranges + [r])[|ranges|] == r;
    }
  }

  /** The ranges found so far, all before `index`, cover every fence marker before it. */
  ghost predicate FencesUpTo(text: string, ranges: seq<Range>, index: nat) {
    && (forall k :: 0 <= k < |ranges| ==> IsFence(text, ranges[k]) && ranges[k].1 <= index)
    && (forall k, l :: 0 <= k < l < |ranges| ==> ranges[k].1 <= ranges[l].0)
    && (forall p: nat {:trigger FenceMarkerAt(text, p)} :: p < index && FenceMarkerAt(text, p).Some? ==>
          Covered(ranges, p))
  }

  lemma FencesGrow(text: string, ranges: seq<Range>, r: Range)
    requires FencesUpTo(text, ranges, r.0) && IsFence(text, r)
    ensures FencesUpTo(text, ranges + [r], r.1)
  {
    CoverGrows(ranges, r);
  }

  lemma FencesSkip(text: string, ranges: seq<Range>, index: nat)
    requires FencesUpTo(text, ranges, index) && FenceMarkerAt(text, index).None?
    ensures FencesUpTo(text, ranges, index + 1)
  {}

  /** No marker starts at the end of the text. */
  lemma FencesComplete(text: string, ranges: seq<Range>, index: nat)
    requires FencesUpTo(text, ranges, index) && index >= |text|
    ensures AreFences(text, ranges)
  {}

  method FencedCodeRanges(text: string) returns (ranges: seq<Range>)
    ensures AreFences(text, ranges)
  {
    ranges := [];
    var index: nat := 0;
    while index < |text|
      invariant FencesUpTo(text, ranges, index)
      decreases |text| - index
    {
      var marker := FenceMarkerAt(text, index);
      if marker.None? {
        FencesSkip(text, ranges, index);
        index := index + 1;
        continue;
      }
      var end := FindFrom(text, marker.value, index + |marker.value|);
      var range := if end.None? then (index, |text|) else (index, end.value + |marker.value|);
      FencesGrow(text, ranges, range);
      ranges := ranges + [range];
      index := range.1;
    }
    FencesComplete(text, ranges, index);
  }

  /** An inline span runs from a backtick outside the fences to behind the next backtick. */
  ghost predicate IsInline(text: string, fences: seq<Range>, r: Range) {
    && r.0 + 1 < r.1 <= |text| && text[r.0] == '`' && text[r.1 - 1] == '`' && !Covered(fences, r.0)
    && forall j :: r.0 < j < r.1 - 1 ==> text[j] != '`'
  }

  /** The spans, in order, cover every backtick outside the fences that another backtick follows. */
  ghost predicate AreInlines(text: string, fences: seq<Range>, ranges: seq<Range>) {
    && (forall k :: 0 <= k < |ranges| ==> IsInline(text, fences, ranges[k]))
    && (forall k, l :: 0 <= k < l < |ranges| ==> ranges[k].1 <= ranges[l].0)
    && (forall p, q :: 0 <= p < q < |text| && text[p] == '`' && text[q] == '`' && !Covered(fences, p) ==>
          Covered(ranges, p))
  }

  ghost predicate InlinesUpTo(text: string, fences: seq<Range>, ranges: seq<Range>, index: nat) {
    && index <= |text|
    && (forall k :: 0 <= k < |ranges| ==> IsInline(text, fences, ranges[k]) && ranges[k].1 <= index)
    && (forall k, l :: 0 <= k < l < |ranges| ==> ranges[k].1 <= ranges[l].0)
    && (forall p :: 0 <= p < index && text[p] == '`' && !Covered(fences, p) ==> Covered(ranges, p))
  }

  lemma InlinesGrow(text: string, fences: seq<Range>, ranges: seq<Range>, r: Range)
    requires InlinesUpTo(text, fences, ranges, r.0) && IsInline(text, fences, r)
    ensures InlinesUpTo(text, fences, ranges + [r], r.1)
  {
    CoverGrows(ranges, r);
  }

  lemma InlinesSkip(text: string, fences: seq<Range>, ranges: seq<Range>, index: nat)
    requires InlinesUpTo(text, fences, ranges, index)
    requires index < |text| && (text[index] != '`' || Covered(fences, index))
    ensures InlinesUpTo(text, fences, ranges, index + 1)
  {}

  /** No backtick behind `index` has another one behind it. */
  lemma InlinesComplete(text: string, fences: seq<Range>, ranges: seq<Range>, index: nat)
    requires InlinesUpTo(text, fences, ranges, index)
    requires forall j :: index < j < |text| ==> text[j] != '`'
    ensures AreInlines(text, fences, ranges)
  {}

  /** `text.find("`", from)`. */
  function FindBacktick(text: string, from: nat): (found: Option<nat>)
    ensures found.Some? ==> from <= found.value < |text| && text[found.value] == '`'
    ensures found.Some? ==> forall j :: from <= j < found.value ==> text[j] != '`'
    ensures found.None? ==> forall j :: from <= j < |text| ==> text[j] != '`'
    decreases |text| - from
  {
    if from >= |text| then None else if text[from] == '`' then Some(from) else FindBacktick(text, from + 1)
  }

  method InlineCodeRanges(text: string, fences: seq<Range>) returns (ranges: seq<Range>)
    ensures AreInlines(text, fences, ranges)
  {
    ranges := [];
    var index: nat := 0;
    while index < |text|
      invariant InlinesUpTo(text, fences, ranges, index)
      decreases |text| - index
    {
      if text[index] != '`' || Covered(fences, index) {
        InlinesSkip(text, fences, ranges, index);
        index := index + 1;
        continue;
      }
      var end := FindBacktick(text, index + 1);
      if end.None? {
        InlinesComplete(text, fences, ranges, index);
        return;
      }
      InlinesGrow(text, fences, ranges, (index, end.value + 1));
      ranges := ranges + [(index, end.value + 1)];
      index := end.value + 1;
    }
    InlinesComplete(text, fences, ranges, index);
  }

  // ---------------------------------------------------------------------------------------
  // What is code is one relation: no two lists of ranges meet the descriptions above.

  /** Ranges in order, each from a beginning, that cover every beginning. */
  ghost predicate Scanned(ranges: seq<Range>, begins: set<nat>) {
    && Proper(ranges)
    && (forall k :: 0 <= k < |ranges| ==> ranges[k].0 in begins)
    && (forall k, l :: 0 <= k < l < |ranges| ==> ranges[k].1 <= ranges[l].0)
    && (forall p {:trigger Covered(ranges, p)} :: p in begins ==> Covered(ranges, p))
  }

  /** After a common start the next range of one list begins no earlier than that of the other. */
  lemma NextBegins(a: seq<Range>, b: seq<Range>, begins: set<nat>, n: nat)
    requires Scanned(a, begins) && Scanned(b, begins)
    requires n < |a| && n <= |b| && a[..n] == b[..n]
    ensures n < |b| && b[n].0 <= a[n].0
  {
    forall m | 0 <= m < n
      ensures a[m] == b[m]
    {
      assert a[..n][m] == b[..n][m];
    }
    assert Covered(b, a[n].0);
    var k :| 0 <= k < |b| && b[k].0 <= a[n].0 < b[k].1;
    assert k >= n;
  }

  lemma {:induction false} SameUpTo(a: seq<Range>, b: seq<Range>, begins: set<nat>, n: nat)
    requires Scanned(a, begins) && Scanned(b, begins) && n <= |a|
    requires forall k, l :: 0 <= k < |a| && 0 <= l < |b| && a[k].0 == b[l].0 ==> a[k] == b[l]
    ensures n <= |b| && a[..n] == b[..n]
  {
    if n > 0 {
      SameUpTo(a, b, begins, n - 1);
      NextBegins(a, b, begins, n - 1);
      NextBegins(b, a, begins, n - 1);
      assert a[..n] == a[..n - 1] + [a[n - 1]] && b[..n] == b[..n - 1] + [b[n - 1]];
    } else {
      assert a[..0] == b[..0];
    }
  }

  lemma SameRanges(a: seq<Range>, b: seq<Range>, begins: set<nat>)
    requires Scanned(a, begins) && Scanned(b, begins)
    requires forall k, l :: 0 <= k < |a| && 0 <= l < |b| && a[k].0 == b[l].0 ==> a[k] == b[l]
    ensures a == b
  {
    SameUpTo(a, b, begins, |a|);
    SameUpTo(b, a, begins, |b|);
    assert a == a[..|a|] == b[..|a|] == b;
  }

  ghost function FenceStarts(text: string): set<nat> {
    set p: nat | p < |text| && FenceMarkerAt(text, p).Some?
  }

  lemma FencesScan(text: string, ranges: seq<Range>)
    requires AreFences(text, ranges)
    ensures Scanned(ranges, FenceStarts(text))
  {
    assert forall k :: 0 <= k < |ranges| ==> IsFence(text, ranges[k]);
  }

  lemma FencesAreUnique(text: string, a: seq<Range>, b: seq<Range>)
    requires AreFences(text, a) && AreFences(text, b)
    ensures a == b
  {
    FencesScan(text, a);
    FencesScan(text, b);
    forall k, l | 0 <= k < |a| && 0 <= l < |b| && a[k].0 == b[l].0
      ensures a[k] == b[l]
    {
      assert IsFence(text, a[k]) && IsFence(text, b[l]);
    }
    SameRanges(a, b, FenceStarts(text));
  }

  /** The backticks outside the fences with another one behind them. */
  ghost function InlineStarts(text: string, fences: seq<Range>): set<nat> {
    set p: nat | p < |text| && text[p] == '`' && !Covered(fences, p) && exists q :: p < q < |text| && text[q] == '`'
  }

  lemma InlinesAreUnique(text: string, fences: seq<Range>, a: seq<Range>, b: seq<Range>)
    requires AreInlines(text, fences, a) && AreInlines(text, fences, b)
    ensures a == b
  {
    InlinesScan(text, fences, a);
    InlinesScan(text, fences, b);
    SameRanges(a, b, InlineStarts(text, fences));
  }

  lemma InlinesScan(text: string, fences: seq<Range>, ranges: seq<Range>)
    requires AreInlines(text, fences, ranges)
    ensures Scanned(ranges, InlineStarts(text, fences))
  {
    forall k | 0 <= k < |ranges|
      ensures ranges[k].0 in InlineStarts(text, fences)
    {
      assert IsInline(text, fences, ranges[k]);
      assert text[ranges[k].1 - 1] == '`';
    }
  }

  /** The two lists that the resolver masks are the only ones. */
  lemma CodeRangesAreUnique(text: string, fences: seq<Range>, inlines: seq<Range>,
                            fences': seq<Range>, inlines': seq<Range>)
    requires AreFences(text, fences) && AreInlines(text, fences, inlines)
    requires AreFences(text, fences') && AreInlines(text, fences', inlines')
    ensures fences == fences' && inlines == inlines'
  {
    FencesAreUnique(text, fences, fences');
    InlinesAreUnique(text, fences, inlines, inlines');
  }

  // ---------------------------------------------------------------------------------------
  // Merging.

  predicate RangeLe(a: Range, b: Range) { a.0 < b.0 || (a.0 == b.0 && a.1 <= b.1) }

  ghost predicate Separate(ranges: seq<Range>) { forall k, l :: 0 <= k < l < |ranges| ==> ranges[k].1 < ranges[l].0 }

  lemma SameElementsSameCover(a: seq<Range>, b: seq<Range>)
    requires multiset(a) == multiset(b)
    ensures forall p :: Covered(a, p) <==> Covered(b, p)
  {
    forall p
      ensures Covered(a, p) <==> Covered(b, p)
    {
      if k :| 0 <= k < |a| && a[k].0 <= p < a[k].1 {
        assert a[k] in multiset(b);
      }
      if k :| 0 <= k < |b| && b[k].0 <= p < b[k].1 {
        assert b[k] in multiset(a);
      }
    }
  }

  /** The merge of a sorted list whose last range starts at or before `start`. */
  ghost predicate MergedSoFar(merged: seq<Range>, done: seq<Range>, start: nat) {
    && merged != [] && Proper(merged) && Separate(merged) && merged[|merged| - 1].0 <= start
    && forall p :: Covered(merged, p) <==> Covered(done, p)
  }

  function MergeOne(merged: seq<Range>, r: Range): seq<Range>
    requires merged != []
  {
    var (lastStart, lastEnd) := merged[|merged| - 1];
    if r.0 <= lastEnd then merged[..|merged| - 1] + [(lastStart, Max(lastEnd, r.1))] else merged + [r]
  }

  lemma MergeOneKeeps(merged: seq<Range>, done: seq<Range>, r: Range)
    requires MergedSoFar(merged, done, r.0) && r.0 < r.1
    ensures MergedSoFar(MergeOne(merged, r), done + [r], r.0)
  {
    MergeOneCovers(merged, r);
    CoverGrows(done, r);
  }

  lemma MergeOneCovers(merged: seq<Range>, r: Range)
    requires merged != [] && Proper(merged) && merged[|merged| - 1].0 <= r.0 < r.1
    ensures forall p :: Covered(MergeOne(merged, r), p) <==> Covered(merged, p) || r.0 <= p < r.1
  {
    var init, last := merged[..|merged| - 1], merged[|merged| - 1];
    assert merged == init + [last];
    if r.0 <= last.1 {
      CoverGrows(init, last);
      CoverGrows(init, (last.0, Max(last.1, r.1)));
    } else {
      CoverGrows(merged, r);
    }
  }

  ghost predicate Ordered(ranges: seq<Range>) { forall k :: 0 < k < |ranges| ==> ranges[k - 1].0 <= ranges[k].0 }

  /** The loop of `_merge_ranges`, over sorted ranges. */
  method MergeSorted(ordered: seq<Range>) returns (merged: seq<Range>)
    requires ordered != [] && Proper(ordered) && Ordered(ordered)
    ensures MergedSoFar(merged, ordered, ordered[|ordered| - 1].0)
  {
    merged := [ordered[0]];
    assert ordered[..1] == [ordered[0]];
    for n := 1 to |ordered|
      invariant MergedSoFar(merged, ordered[..n], ordered[n - 1].0)
    {
      assert ordered[n - 1].0 <= ordered[n].0 && ordered[n].0 < ordered[n].1;
      assert ordered[..n + 1] == ordered[..n] + [ordered[n]];
      MergeOneKeeps(merged, ordered[..n], ordered[n]);
      merged := MergeOne(merged, ordered[n]);
    }
    assert ordered[..|ordered|] == ordered;
  }

  /** `_merge_ranges`: sorted, disjoint and not even touching, covering exactly the same positions. */
  method MergeRanges(ranges: seq<Range>) returns (merged: seq<Range>)
    requires Proper(ranges)
    ensures Proper(merged) && Separate(merged)
    ensures forall p :: Covered(merged, p) <==> Covered(ranges, p)
  {
    if ranges == [] { return []; }
    var ordered := Sorting.Sort(ranges, RangeLe);
    Sorting.SortSorts(ranges, RangeLe);
    SameElementsSameCover(ordered, ranges);
    ProperSorted(ranges, ordered);
    forall k | 0 < k < |ordered|
      ensures ordered[k - 1].0 <= ordered[k].0
    {
      assert RangeLe(ordered[k - 1], ordered[k]);
    }
    merged := MergeSorted(ordered);
  }

  lemma ProperSorted(ranges: seq<Range>, ordered: seq<Range>)
    requires Proper(ranges) && multiset(ranges) == multiset(ordered)
    ensures Proper(ordered)
  {
    forall k | 0 <= k < |ordered|
      ensures ordered[k].0 < ordered[k].1
    {
      assert ordered[k] in multiset(ranges);
    }
  }

  // ---------------------------------------------------------------------------------------
  // Extraction.

  predicate OverlapsMaskedRange(start: nat, end: nat, ranges: seq<Range>) {
    exists k :: 0 <= k < |ranges| && start < ranges[k].1 && end > ranges[k].0
  }

  lemma OverlapIsSharedPosition(start: nat, end: nat, ranges: seq<Range>)
    requires start < end && Proper(ranges)
    ensures OverlapsMaskedRange(start, end, ranges) <==> exists p :: start <= p < end && Covered(ranges, p)
  {
    if k :| 0 <= k < |ranges| && start < ranges[k].1 && end > ranges[k].0 {
      var p := Max(start, ranges[k].0);
      assert ranges[k].0 <= p < ranges[k].1 && start <= p < end;
      assert Covered(ranges, p);
    }
  }

  /** A mention none of whose characters is code. */
  ghost predicate Clear(text: string, fences: seq<Range>, inlines: seq<Range>, i: nat) {
    MentionAt(text, i) &&
    forall p :: i <= p < NameEnd(text, i + 1) ==> !Covered(fences, p) && !Covered(inlines, p)
  }

  /** `names[k]` is mentioned in the clear at `at[k]` and nowhere before it; the positions increase. */
  ghost predicate FirstMentions(
        text: string, fences: seq<Range>, inlines: seq<Range>, names: seq<string>, at: seq<nat>) {
    && |at| == |names|
    && (forall k :: 0 <= k < |at| ==> Clear(text, fences, inlines, at[k]) && Name(text, at[k]) == names[k])
    && (forall k, i :: 0 <= k < |at| && 0 <= i < at[k] && Clear(text, fences, inlines, i) ==> Name(text, i) != names[k])
    && (forall k, l :: 0 <= k < l < |at| ==> at[k] < at[l])
  }

  /** Every name mentioned in the clear before `n` is listed. */
  ghost predicate AllListed(text: string, fences: seq<Range>, inlines: seq<Range>, names: seq<string>, n: nat) {
    forall i :: 0 <= i < n && Clear(text, fences, inlines, i) ==> Name(text, i) in names
  }

  method MaskedCodeRanges(text: string)
    returns (masked: seq<Range>, ghost fences: seq<Range>, ghost inlines: seq<Range>)
    ensures AreFences(text, fences) && AreInlines(text, fences, inlines)
    ensures Proper(masked)
    ensures forall p :: Covered(masked, p) <==> Covered(fences, p) || Covered(inlines, p)
  {
    var fenced := FencedCodeRanges(text);
    var inlined := InlineCodeRanges(text, fenced);
    masked := MergeRanges(fenced + inlined);
    fences, inlines := fenced, inlined;
    CoverConcat(fenced, inlined);
  }

  lemma CoverConcat(a: seq<Range>, b: seq<Range>)
    ensures forall p :: Covered(a + b, p) <==> Covered(a, p) || Covered(b, p)
  {
    forall p
      ensures Covered(a + b, p) <==> Covered(a, p) || Covered(b, p)
    {
      if k :| 0 <= k < |a| && a[k].0 <= p < a[k].1 {
        assert (a + b)[k] == a[k];
      }
      if k :| 0 <= k < |b| && b[k].0 <= p < b[k].1 {
        assert (a + b)[|a| + k] == b[k];
      }
    }
  }

  /** The names found before `index` and where. */
  ghost predicate Extracted(
        text: string, fences: seq<Range>, inlines: seq<Range>, names: seq<string>, at: seq<nat>, index: nat) {
    && FirstMentions(text, fences, inlines, names, at) && (forall k :: 0 <= k < |at| ==> at[k] < index)
    && AllListed(text, fences, inlines, names, index)
    && (forall k, l :: 0 <= k < l < |names| ==> names[k] != names[l])
  }

  /** Nothing new is mentioned in the clear from `index` up to `next`. */
  lemma ExtractedSkips(
        text: string, fences: seq<Range>, inlines: seq<Range>, names: seq<string>, at: seq<nat>, index: nat, next: nat)
    requires Extracted(text, fences, inlines, names, at, index) && index < next
    requires Clear(text, fences, inlines, index) ==> Name(text, index) in names
    requires forall i :: index < i < next ==> !MentionAt(text, i)
    ensures Extracted(text, fences, inlines, names, at, next)
  {}

  lemma ExtractedAdds(
        text: string, fences: seq<Range>, inlines: seq<Range>, names: seq<string>, at: seq<nat>, index: nat, next: nat)
    requires Extracted(text, fences, inlines, names, at, index) && index < next
    requires Clear(text, fences, inlines, index) && Name(text, index) !in names
    requires forall i :: index < i < next ==> !MentionAt(text, i)
    ensures Extracted(text, fences, inlines, names + [Name(text, index)], at + [index], next)
  {}

  /** `extract_skill_mentions`: exactly the names with an occurrence that touches no code, each once, in
      the order of their first such occurrence. */
  method ExtractSkillMentions(text: string) returns (names: seq<string>)
    ensures exists fences, inlines, at ::
      && AreFences(text, fences) && AreInlines(text, fences, inlines)
      && FirstMentions(text, fences, inlines, names, at)
      && AllListed(text, fences, inlines, names, |text|)
    ensures forall k, l :: 0 <= k < l < |names| ==> names[k] != names[l]
  {
    var masked, fences, inlines := MaskedCodeRanges(text);
    names := [];
    ghost var at: seq<nat> := [];
    var index: nat := 0;
    while index < |text|
      invariant index <= |text| && Extracted(text, fences, inlines, names, at, index)
      decreases |text| - index
    {
      if !MentionAt(text, index) {
        ExtractedSkips(text, fences, inlines, names, at, index, index + 1);
        index := index + 1;
        continue;
      }
      var end := NameEnd(text, index + 1);
      var name := text[index + 1..end];
      OverlapIsSharedPosition(index, end, masked);
      assert OverlapsMaskedRange(index, end, masked) <==> !Clear(text, fences, inlines, index);
      if !OverlapsMaskedRange(index, end, masked) && name !in names {
        ExtractedAdds(text, fences, inlines, names, at, index, end);
        names, at := names + [name], at + [index];
      } else {
        ExtractedSkips(text, fences, inlines, names, at, index, end);
      }
      index := end;
    }
  }
}
