/** Whole texts of skill front matter. What the two-space text of a document parses back to, exactly when
    that is the document itself, and which values the parser can return at all. */
module SkillYamlRange {
  import opened Prelude
  import opened Text
  import opened SkillYaml
  import opened SkillYamlText
  import opened SkillYamlRoundTrip

  // ---------------------------------------------------------------------------------------
  // Texts.

  ghost predicate AllInline(lines: seq<string>) { forall line :: line in lines ==> Inline(line) }

  lemma {:induction false} MapLinesInline(entries: seq<Entry>, indent: nat)
    requires WritableEntries(entries)
    ensures AllInline(MapLines(entries, indent))
    decreases entries
  {
    if entries == [] {
    } else {
      var e := entries[0];
      EntryIsTrimmed(e);
      LineReads(indent, EntryText(e));
      ValueLinesInline(e.value, indent + 2);
      MapLinesInline(entries[1..], indent);
    }
  }

  lemma {:induction false} ValueLinesInline(v: Value, indent: nat)
    requires Writable(v)
    ensures AllInline(ValueLines(v, indent))
    decreases v, 1
  {
    match v
    case Map(entries) => MapLinesInline(entries, indent);
    case Seq(items) => SeqLinesInline(items, indent);
    case _ =>
  }

  lemma {:induction false} SeqLinesInline(items: seq<Value>, indent: nat)
    requires forall v :: v in items ==> WritableItem(v)
    ensures AllInline(SeqLines(items, indent))
    decreases items
  {
    if items == [] {
    } else {
      ItemLinesInline(items[0], indent);
      SeqLinesInline(items[1..], indent);
    }
  }

  lemma {:induction false} ItemLinesInline(item: Value, indent: nat)
    requires WritableItem(item)
    ensures AllInline(ItemLines(item, indent))
    decreases item, 1
  {
    DashLineInline(item, indent);
    if item.Map? {
      FirstEntryPlain(item);
      ValueLinesInline(item.entries[0].value, indent + 2);
      MapLinesInline(item.entries[1..], indent + 2);
    }
  }

  lemma DashLineInline(item: Value, indent: nat)
    requires WritableItem(item)
    ensures Inline(Spaces(indent) + "- " + ItemText(item))
  {
    var body := "- " + ItemText(item);
    ItemTextTrimmed(item);
    IndentedInline(indent, body);
    assert Spaces(indent) + "- " + ItemText(item) == Spaces(indent) + body;
  }

  function TextOf(lines: seq<string>): string { if lines == [] then "" else lines[0] + "\n" + TextOf(lines[1..]) }

  lemma {:induction false} LineEndIs(line: string, rest: string)
    requires Inline(line)
    ensures LineEnd(line + "\n" + rest) == |line|
  {
    if line == "" {
    } else {
      assert (line + "\n" + rest)[1..] == line[1..] + "\n" + rest;
      LineEndIs(line[1..], rest);
    }
  }

  lemma {:induction false} SplitLinesOfText(lines: seq<string>)
    requires AllInline(lines)
    ensures SplitLines(TextOf(lines)) == lines
  {
    if lines == [] {
    } else {
      var rest := TextOf(lines[1..]);
      var text := TextOf(lines);
      LineEndIs(lines[0], rest);
      assert text == lines[0] + "\n" + rest;
      assert text[..|lines[0]|] == lines[0] && text[|lines[0]| + 1..] == rest && text[|lines[0]|..][0] == '\n';
      SplitLinesOfText(lines[1..]);
    }
  }

  /** The two-space text of any value, each key written once, parses to what the value is absorbed into. */
  lemma TextReads(v: Value)
    requires Writable(v) && !IsScalar(v)
    ensures ParseYaml(TextOf(ValueLines(v, 0))) == Ok(Absorbed(v))
  {
    var lines := ValueLines(v, 0);
    ValueLinesInline(v, 0);
    SplitLinesOfText(lines);
    if v == Map([]) {
      assert lines == [];
    } else {
      assert lines[0..|lines|] == lines;
      FirstLineReads(lines, 0, |lines|, 0, v);
      BlockReads(lines, 0, |lines|, 0, v);
      WholeText(lines, Absorbed(v));
    }
  }

  lemma WholeText(lines: seq<string>, v: Value)
    requires lines != [] && !Ignored(lines[0]) && ParseBlock(lines, 0, 0) == Ok((v, |lines|))
    ensures ParseLines(lines) == Ok(v)
  {}

  // ---------------------------------------------------------------------------------------
  // When the text parses back to the value itself.

  /** An item with a map as first value and further keys. */
  predicate Absorbs(item: Value) { item.Map? && |item.entries| > 1 && item.entries[0].value.Map? }

  /** No item anywhere is such an item. */
  predicate AbsorptionFree(v: Value) {
    match v
    case Map(entries) => forall e :: e in entries ==> AbsorptionFree(e.value)
    case Seq(items) => forall item :: item in items ==> !Absorbs(item) && AbsorptionFree(item)
    case _ => true
  }

  lemma {:induction false} PutAllDistinct(done: seq<Entry>, more: seq<Entry>)
    requires DistinctKeys(done + more)
    ensures PutAll(done, more) == done + more
    decreases more
  {
    if more == [] {
      assert done + more == done;
    } else {
      var all := done + more;
      forall k | 0 <= k < |done|
        ensures done[k].key != more[0].key
      {
        assert all[k] == done[k] && all[|done|] == more[0];
      }
      PutNew(done, more[0].key, more[0].value);
      assert done + [more[0]] + more[1..] == all;
      PutAllDistinct(done + [more[0]], more[1..]);
    }
  }

  lemma {:induction false} PutNew(entries: seq<Entry>, key: string, value: Value)
    requires forall e :: e in entries ==> e.key != key
    ensures Put(entries, key, value) == entries + [Entry(key, value)]
  {
    if entries == [] {
    } else {
      PutNew(entries[1..], key, value);
    }
  }

  lemma {:induction false} AbsorbedEntriesAt(entries: seq<Entry>)
    ensures |AbsorbedEntries(entries)| == |entries|
    ensures forall k :: 0 <= k < |entries| ==>
      AbsorbedEntries(entries)[k] == Entry(entries[k].key, Absorbed(entries[k].value))
  {
    if entries == [] {
    } else {
      AbsorbedEntriesAt(entries[1..]);
    }
  }

  lemma {:induction false} AbsorbedItemsAt(items: seq<Value>)
    ensures |AbsorbedItems(items)| == |items|
    ensures forall k :: 0 <= k < |items| ==> AbsorbedItems(items)[k] == AbsorbedItem(items[k])
  {
    if items == [] {
    } else {
      AbsorbedItemsAt(items[1..]);
    }
  }

  /** Absorption inside the values leaves a map its keys. */
  lemma MapKeepsKeys(entries: seq<Entry>)
    requires DistinctKeys(entries)
    ensures PutAll([], AbsorbedEntries(entries)) == AbsorbedEntries(entries)
  {
    AbsorbedEntriesAt(entries);
    MapOf(AbsorbedEntries(entries));
  }

  lemma MapOf(entries: seq<Entry>)
    requires DistinctKeys(entries)
    ensures PutAll([], entries) == entries
  {
    assert [] + entries == entries;
    PutAllDistinct([], entries);
  }

  lemma EntriesKeptIff(entries: seq<Entry>)
    ensures AbsorbedEntries(entries) == entries <==> forall e :: e in entries ==> Absorbed(e.value) == e.value
  {
    AbsorbedEntriesAt(entries);
    if AbsorbedEntries(entries) == entries {
      forall e | e in entries
        ensures Absorbed(e.value) == e.value
      {
        var k :| 0 <= k < |entries| && entries[k] == e;
        assert AbsorbedEntries(entries)[k] == entries[k];
      }
    }
  }

  lemma {:induction false} AbsorbedIff(v: Value)
    requires Supported(v)
    ensures Absorbed(v) == v <==> AbsorptionFree(v)
    decreases v, 0
  {
    match v
    case Map(entries) =>
      MapKeepsKeys(entries);
      EntriesKeptIff(entries);
      forall e | e in entries
        ensures Absorbed(e.value) == e.value <==> AbsorptionFree(e.value)
      {
        AbsorbedIff(e.value);
      }
    case Seq(items) =>
      AbsorbedItemsAt(items);
      forall item | item in items
        ensures AbsorbedItem(item) == item <==> !Absorbs(item) && AbsorptionFree(item)
      {
        AbsorbedItemIff(item);
      }
      SeqKeptIff(items);
    case _ =>
  }

  lemma SeqKeptIff(items: seq<Value>)
    ensures AbsorbedItems(items) == items <==> forall item :: item in items ==> AbsorbedItem(item) == item
  {
    AbsorbedItemsAt(items);
    if AbsorbedItems(items) == items {
      forall item | item in items
        ensures AbsorbedItem(item) == item
      {
        var k :| 0 <= k < |items| && items[k] == item;
        assert AbsorbedItems(items)[k] == items[k];
      }
    }
  }

  lemma {:induction false} AbsorbedItemIff(item: Value)
    requires SupportedItem(item)
    ensures AbsorbedItem(item) == item <==> !Absorbs(item) && AbsorptionFree(item)
    decreases item, 1
  {
    if item.Map? && item.entries[0].value.Map? {
      var head, rest := item.entries[0], item.entries[1..];
      MapIsSupported(item);
      assert head in item.entries;
      AbsorbedIff(head.value);
      if rest == [] {
        assert item.entries == [head];
        assert AbsorbedEntries(head.value.entries) + [] == AbsorbedEntries(head.value.entries);
        assert AbsorbedItem(item) == Map([Entry(head.key, Absorbed(head.value))]);
      }
    } else {
      AbsorbedIff(item);
    }
  }

  /** The two-space text of a document, each key written once, parses back to the document exactly when no
      item anywhere has a map as its first value and further keys behind it. */
  lemma TextReadsBackIff(v: Value)
    requires Document(v)
    ensures ParseYaml(TextOf(ValueLines(v, 0))) == Ok(v) <==> AbsorptionFree(v)
  {
    TextReads(v);
    AbsorbedIff(v);
  }

  // ---------------------------------------------------------------------------------------
  // Every document has a text, if a first key may be written twice.

  /** The value with `null` put first under each key that would absorb what follows; the parser lets the
      second writing of a key replace the first. */
  function Doubled(v: Value): Value
    decreases v, 0
  {
    match v
    case Map(entries) => Map(DoubledEntries(entries))
    case Seq(items) => Seq(DoubledItems(items))
    case _ => v
  }

  function DoubledEntries(entries: seq<Entry>): seq<Entry> {
    if entries == [] then []
    else [Entry(entries[0].key, Doubled(entries[0].value))] + DoubledEntries(entries[1..])
  }

  function DoubledItems(items: seq<Value>): seq<Value> {
    if items == [] then [] else [DoubledItem(items[0])] + DoubledItems(items[1..])
  }

  function DoubledItem(item: Value): Value
    decreases item, 1
  {
    if Absorbs(item) then Map([Entry(item.entries[0].key, Null)] + DoubledEntries(item.entries)) else Doubled(item)
  }

  lemma {:induction false} DoubledReads(v: Value)
    requires Supported(v)
    ensures Writable(Doubled(v)) && Absorbed(Doubled(v)) == v
    ensures (IsScalar(v) <==> IsScalar(Doubled(v))) && (v.Map? <==> Doubled(v).Map?)
    decreases v, 0
  {
    match v
    case Map(entries) =>
      MapIsSupported(v);
      DoubledEntriesRead(entries);
      MapOf(entries);
    case Seq(items) =>
      DoubledItemsRead(items);
    case _ =>
  }

  lemma MapIsSupported(v: Value)
    requires Supported(v) && v.Map?
    ensures SupportedEntries(v.entries) && DistinctKeys(v.entries)
  {}

  lemma {:induction false} DoubledEntriesRead(entries: seq<Entry>)
    requires SupportedEntries(entries)
    ensures WritableEntries(DoubledEntries(entries)) && AbsorbedEntries(DoubledEntries(entries)) == entries
    decreases entries
  {
    if entries == [] {
    } else {
      var first := Entry(entries[0].key, Doubled(entries[0].value));
      DoubledReads(entries[0].value);
      DoubledEntriesRead(entries[1..]);
      assert DoubledEntries(entries)[1..] == DoubledEntries(entries[1..]);
      assert entries == [entries[0]] + entries[1..];
    }
  }

  lemma {:induction false} DoubledItemsRead(items: seq<Value>)
    requires forall item :: item in items ==> SupportedItem(item)
    ensures (forall item :: item in DoubledItems(items) ==> WritableItem(item))
    ensures AbsorbedItems(DoubledItems(items)) == items && |DoubledItems(items)| == |items|
    decreases items
  {
    if items == [] {
    } else {
      DoubledItemReads(items[0]);
      DoubledItemsRead(items[1..]);
      assert DoubledItems(items)[1..] == DoubledItems(items[1..]);
      assert items == [items[0]] + items[1..];
    }
  }

  lemma {:induction false} DoubledItemReads(item: Value)
    requires SupportedItem(item)
    ensures WritableItem(DoubledItem(item)) && AbsorbedItem(DoubledItem(item)) == item
    decreases item, 1
  {
    if !item.Map? {
      DoubledReads(item);
    } else {
      var entries := item.entries;
      MapIsSupported(item);
      DoubledEntriesRead(entries);
      MapOf(entries);
      assert entries[0] in entries;
      if Absorbs(item) {
        DoubledKeyReads(entries);
      } else {
        DoubledFirst(entries);
      }
    }
  }

  /** `null` first, then the entries: the second writing of the first key takes its place. */
  lemma DoubledKeyReads(entries: seq<Entry>)
    requires entries != [] && DistinctKeys(entries) && ItemKey(entries[0].key)
    requires WritableEntries(DoubledEntries(entries)) && AbsorbedEntries(DoubledEntries(entries)) == entries
    ensures var item := Map([Entry(entries[0].key, Null)] + DoubledEntries(entries));
      WritableItem(item) && AbsorbedItem(item) == Map(entries)
  {
    var shown := [Entry(entries[0].key, Null)];
    NullFirstWritable(entries[0].key, DoubledEntries(entries));
    AbsorbedAfter(shown[0], DoubledEntries(entries));
    SecondWritingCounts(entries);
  }

  lemma AbsorbedAfter(e: Entry, more: seq<Entry>)
    requires e.value == Null
    ensures AbsorbedItem(Map([e] + more)) == Map(PutAll([], [e] + AbsorbedEntries(more)))
  {
    var item := Map([e] + more);
    assert item.entries[1..] == more;
    assert Absorbed(e.value) == e.value && Entry(e.key, e.value) == e;
    assert AbsorbedEntries(item.entries) == [e] + AbsorbedEntries(more);
    assert AbsorbedItem(item) == Absorbed(item);
  }

  lemma NullFirstWritable(key: string, more: seq<Entry>)
    requires ItemKey(key) && WritableEntries(more)
    ensures WritableItem(Map([Entry(key, Null)] + more))
  {
    ItemKeyIsPlain(key);
  }

  lemma SecondWritingCounts(entries: seq<Entry>)
    requires entries != [] && DistinctKeys(entries)
    ensures PutAll([], [Entry(entries[0].key, Null)] + entries) == entries
  {
    var shown := [Entry(entries[0].key, Null)];
    PutAllConcat([], shown, entries);
    assert PutAll([], shown) == shown;
    assert Put(shown, entries[0].key, entries[0].value) == [entries[0]];
    assert [entries[0]] + entries[1..] == entries;
    PutAllDistinct([entries[0]], entries[1..]);
  }

  /** An item that absorbs nothing is written as it is. */
  lemma DoubledFirst(entries: seq<Entry>)
    requires entries != [] && ItemKey(entries[0].key) && Distinct(Map(entries)) && !Absorbs(Map(entries))
    requires WritableEntries(DoubledEntries(entries)) && AbsorbedEntries(DoubledEntries(entries)) == entries
    ensures var item := Map(DoubledEntries(entries));
      WritableItem(item) && AbsorbedItem(item) == Map(entries)
  {
    var doubled := DoubledEntries(entries);
    MapOf(entries);
    assert doubled[0] == Entry(entries[0].key, Doubled(entries[0].value));
    AbsorbedEntriesAt(doubled);
    if doubled[0].value.Map? {
      assert entries[0].value == Absorbed(doubled[0].value);
      assert entries == [entries[0]] && doubled == [doubled[0]];
      assert AbsorbedEntries(doubled[0].value.entries) + [] == AbsorbedEntries(doubled[0].value.entries);
    }
  }

  /** Every document the subset allows is the parse of a text. */
  lemma RoundTrip(v: Value)
    requires Document(v)
    ensures ParseYaml(TextOf(ValueLines(Doubled(v), 0))) == Ok(v)
  {
    DoubledReads(v);
    TextReads(Doubled(v));
  }

  // ---------------------------------------------------------------------------------------
  // Every result is a supported document.

  ghost predicate Unbroken(lines: seq<string>) {
    forall k :: 0 <= k < |lines| ==> forall c :: c in lines[k] ==> !LineBreak(c)
  }

  lemma {:induction false} SplitLinesUnbroken(text: string)
    ensures Unbroken(SplitLines(text))
  {
    if text == "" {
    } else {
      var end := LineEnd(text);
      if end == |text| {
        assert text[..end] == text;
      } else {
        SplitLinesUnbroken(text[end + if "\r\n" <= text[end..] then 2 else 1..]);
      }
    }
  }

  lemma {:induction false} LStripInline(s: string)
    requires Inline(s)
    ensures Inline(LStrip(s))
  {
    if s != "" && IsSpace(s[0]) { LStripInline(s[1..]); }
  }

  lemma SliceInline(s: string, from: nat, to: nat)
    requires Inline(s) && from <= to <= |s|
    ensures Inline(s[from..to]) && Inline(s[from..])
  {
    forall c | c in s[from..]
      ensures c in s
    {
      var k :| 0 <= k < |s| - from && s[from..][k] == c;
      assert s[from + k] == c;
    }
    forall c | c in s[from..to]
      ensures c in s
    {
      var k :| 0 <= k < to - from && s[from..to][k] == c;
      assert s[from + k] == c;
    }
  }

  lemma StripInline(s: string)
    requires Inline(s)
    ensures Inline(Strip(s)) && Trimmed(Strip(s))
  {
    LStripInline(s);
    RStripPrefix(LStrip(s));
    StripTrims(s);
  }

  lemma ScalarSupported(text: string)
    requires Inline(text)
    ensures Supported(ParseScalar(text)) && IsScalar(ParseScalar(text))
  {
    var v := ParseScalar(text);
    assert IsScalar(v) && (v.Float? ==> IsFloat(v.lexeme));
    if v.Str? && v.s != text {
      assert v.s == text[1..|text| - 1];
      SliceInline(text, 1, |text| - 1);
    }
  }

  /** A key the parser accepts is plain. */
  lemma SplitSupported(body: string, line: nat)
    requires Inline(body) && Trimmed(body) && body != "" && body[0] != '#' && !Dashed(body)
    requires SplitMappingEntry(body, line).Ok?
    ensures var (key, text) := SplitMappingEntry(body, line).value; PlainKey(key) && (text.Some? ==> Inline(text.value))
  {
    var colon := IndexOf(body, ':');
    var raw := body[..colon];
    SliceInline(body, 0, colon);
    SliceInline(body, colon + 1, |body|);
    StripInline(raw);
    StripInline(body[colon + 1..]);
    assert Strip("") == "";
    assert raw[0] == body[0];
    KeyStartsBody(raw);
    KeyHasNoColon(raw);
    assert Dashed(Strip(raw)) ==> Dashed(body);
  }

  lemma KeyStartsBody(raw: string)
    requires raw != "" && !IsSpace(raw[0])
    ensures Strip(raw) <= raw
  {
    RStripPrefix(raw);
  }

  lemma KeyHasNoColon(raw: string)
    requires raw != "" && !IsSpace(raw[0]) && ':' !in raw
    ensures ':' !in Strip(raw)
  {
    KeyStartsBody(raw);
  }

  lemma ItemSplitSupported(text: string, line: nat)
    requires Inline(text) && LooksLikeMappingEntry(text)
    ensures SplitMappingEntry(text, line).Ok?
    ensures var (key, rest) := SplitMappingEntry(text, line).value;
      ItemKey(key) && PlainKey(key) && (rest.Some? ==> Inline(rest.value))
  {
    var colon := IndexOf(text, ':');
    SliceInline(text, colon + 1, |text|);
    StripInline(text[colon + 1..]);
    ItemKeyIsPlain(Strip(text[..colon]));
  }

  lemma BodyInline(lines: seq<string>, i: nat)
    requires Unbroken(lines) && i < |lines| && '\t' !in lines[i] && !Ignored(lines[i])
    ensures var body := Body(lines[i]); Inline(body) && Trimmed(body) && body != "" && body[0] != '#'
  {
    BodyIsStripped(lines[i]);
    StripInline(lines[i]);
  }

  ghost predicate Mapping(entries: seq<Entry>) { DistinctKeys(entries) && SupportedEntries(entries) }

  lemma {:induction false} PutEntries(entries: seq<Entry>, key: string, value: Value)
    ensures forall e :: e in Put(entries, key, value) ==> e == Entry(key, value) || e in entries
    ensures entries != [] ==> Put(entries, key, value)[0].key == entries[0].key
  {
    if entries != [] && entries[0].key != key {
      PutEntries(entries[1..], key, value);
    }
  }

  lemma {:induction false} PutDistinct(entries: seq<Entry>, key: string, value: Value)
    requires DistinctKeys(entries)
    ensures DistinctKeys(Put(entries, key, value))
  {
    if entries != [] && entries[0].key != key {
      var rest := Put(entries[1..], key, value);
      PutDistinct(entries[1..], key, value);
      PutEntries(entries[1..], key, value);
      forall k | 0 <= k < |rest|
        ensures rest[k].key != entries[0].key
      {
        assert rest[k] in rest;
      }
    }
  }

  lemma PutKeeps(entries: seq<Entry>, key: string, value: Value)
    requires Mapping(entries) && PlainKey(key) && Supported(value)
    ensures Mapping(Put(entries, key, value))
  {
    PutEntries(entries, key, value);
    PutDistinct(entries, key, value);
  }

  lemma {:induction false} EntryValueSupported(lines: seq<string>, index: nat, base: nat, text: Option<string>)
    requires Unbroken(lines) && index <= |lines| && (text.Some? ==> Inline(text.value))
    requires ParseEntryValue(lines, index, base, text).Ok?
    ensures Supported(ParseEntryValue(lines, index, base, text).value.0)
    decreases |lines| - index, 3
  {
    var start := Skip(lines, index);
    if text.Some? {
      ScalarSupported(text.value);
    } else if start < |lines| && Indentation(lines[start]) > base {
      BlockSupported(lines, start, base + 2);
    }
  }

  lemma {:induction false} BlockSupported(lines: seq<string>, index: nat, indent: nat)
    requires Unbroken(lines) && index <= |lines| && ParseBlock(lines, index, indent).Ok?
    requires index < |lines| ==> !Ignored(lines[index])
    ensures Document(ParseBlock(lines, index, indent).value.0)
    decreases |lines| - index, 2
  {
    BodyIsStripped(lines[index]);
    if Dashed(Strip(lines[index])) {
      SequenceSupported(lines, index, indent, []);
    } else {
      MappingSupported(lines, index, indent, []);
    }
  }

  lemma {:induction false} MappingSupported(lines: seq<string>, index: nat, indent: nat, acc: seq<Entry>)
    requires Unbroken(lines) && index <= |lines| && Mapping(acc) && ParseMapping(lines, index, indent, acc).Ok?
    ensures Mapping(ParseMapping(lines, index, indent, acc).value.0)
    decreases |lines| - index, 1
  {
    if index < |lines| {
      if Ignored(lines[index]) {
        MappingSupported(lines, index + 1, indent, acc);
      } else if Indentation(lines[index]) == indent {
        BodyInline(lines, index);
        SplitSupported(Body(lines[index]), index + 1);
        var (key, text) := SplitMappingEntry(Body(lines[index]), index + 1).value;
        EntryValueSupported(lines, index + 1, indent, text);
        var (value, next) := ParseEntryValue(lines, index + 1, indent, text).value;
        PutKeeps(acc, key, value);
        MappingSupported(lines, next, indent, Put(acc, key, value));
      }
    }
  }

  ghost predicate KeepsFirst(acc: seq<Entry>, entries: seq<Entry>) {
    Mapping(entries) && acc != [] && entries != [] && entries[0].key == acc[0].key
  }

  lemma {:induction false} TailSupported(
        lines: seq<string>, index: nat, indent: nat, acc: seq<Entry>, r: (seq<Entry>, nat))
    requires Unbroken(lines) && index <= |lines| && Mapping(acc)
    requires acc != [] && ConsumeTail(lines, index, indent, acc) == Ok(r)
    ensures KeepsFirst(acc, r.0)
    decreases |lines| - index, 1
  {
    var start := Skip(lines, index);
    if start == |lines| || TailKey(lines, start, indent) == Ok(None) {
      TailEnds(lines, index, indent, acc);
    } else {
      TailUnfolds(lines, index, indent, acc);
      var (key, text) := TailKey(lines, start, indent).value.value;
      TailEntrySupported(lines, index, start, indent, key, text);
      var (value, next) := ParseEntryValue(lines, start + 1, indent + 2, text).value;
      KeepsFirstPut(acc, key, value);
      TailSupported(lines, next, indent, Put(acc, key, value), r);
    }
  }

  lemma TailEnds(lines: seq<string>, index: nat, indent: nat, acc: seq<Entry>)
    requires index <= |lines| && ConsumeTail(lines, index, indent, acc).Ok?
    requires var start := Skip(lines, index); start == |lines| || TailKey(lines, start, indent) == Ok(None)
    ensures ConsumeTail(lines, index, indent, acc).value.0 == acc
  {
    TailUnfolds(lines, index, indent, acc);
  }

  /** What the tail's line holds, when it is read without an error. */
  lemma TailKeySupported(lines: seq<string>, start: nat, indent: nat)
    requires Unbroken(lines) && start < |lines| && !Ignored(lines[start])
    requires TailKey(lines, start, indent).Ok? && TailKey(lines, start, indent).value.Some?
    ensures var (key, text) := TailKey(lines, start, indent).value.value;
      PlainKey(key) && (text.Some? ==> Inline(text.value))
  {
    BodyInline(lines, start);
    SplitSupported(Body(lines[start]), start + 1);
  }

  /** What the tail takes in next, when it is read without an error. */
  lemma {:induction false} TailEntrySupported(
      lines: seq<string>, index: nat, start: nat, indent: nat, key: string, text: Option<string>)
    requires Unbroken(lines) && index <= start < |lines| && !Ignored(lines[start])
    requires TailKey(lines, start, indent) == Ok(Some((key, text)))
    requires ParseEntryValue(lines, start + 1, indent + 2, text).Ok?
    ensures PlainKey(key) && Supported(ParseEntryValue(lines, start + 1, indent + 2, text).value.0)
    decreases |lines| - index, 0
  {
    TailKeySupported(lines, start, indent);
    EntryValueSupported(lines, start + 1, indent + 2, text);
  }

  lemma KeepsFirstPut(acc: seq<Entry>, key: string, value: Value)
    requires Mapping(acc) && acc != [] && PlainKey(key) && Supported(value)
    ensures KeepsFirst(acc, Put(acc, key, value))
  {
    PutKeeps(acc, key, value);
    PutEntries(acc, key, value);
  }

  lemma FirstEntryKeeps(key: string, value: Value)
    requires PlainKey(key) && Supported(value)
    ensures Mapping([Entry(key, value)])
  {}

  lemma {:induction false} ItemSupported(lines: seq<string>, index: nat, indent: nat)
    requires Unbroken(lines) && index < |lines| && '\t' !in lines[index]
    requires !Ignored(lines[index]) && Dashed(Body(lines[index]))
    requires ParseItem(lines, index, indent).Ok?
    ensures SupportedItem(ParseItem(lines, index, indent).value.0)
    decreases |lines| - index, 0
  {
    BodyInline(lines, index);
    var text := Strip(Body(lines[index])[2..]);
    SliceInline(Body(lines[index]), 2, 2);
    StripInline(Body(lines[index])[2..]);
    if LooksLikeMappingEntry(text) {
      ItemSplitSupported(text, index + 1);
      var (key, rest) := SplitMappingEntry(text, index + 1).value;
      EntryValueSupported(lines, index + 1, indent, rest);
      var (value, next) := ParseEntryValue(lines, index + 1, indent, rest).value;
      FirstEntryKeeps(key, value);
      TailSupported(lines, next, indent, [Entry(key, value)],
          ConsumeTail(lines, next, indent, [Entry(key, value)]).value);
    } else {
      ScalarSupported(text);
    }
  }

  lemma {:induction false} SequenceSupported(lines: seq<string>, index: nat, indent: nat, acc: seq<Value>)
    requires Unbroken(lines) && index <= |lines|
    requires (forall v :: v in acc ==> SupportedItem(v)) && ParseSequence(lines, index, indent, acc).Ok?
    requires acc != [] || (index < |lines| && !Ignored(lines[index]) && Indentation(lines[index]) == indent
        && Dashed(Body(lines[index])))
    ensures var items := ParseSequence(lines, index, indent, acc).value.0;
      items != [] && forall v :: v in items ==> SupportedItem(v)
    decreases |lines| - index, 1
  {
    if index < |lines| {
      if Ignored(lines[index]) {
        SequenceSupported(lines, index + 1, indent, acc);
      } else if Indentation(lines[index]) == indent && Dashed(Body(lines[index])) {
        ItemSupported(lines, index, indent);
        var (item, next) := ParseItem(lines, index, indent).value;
        SequenceSupported(lines, next, indent, acc + [item]);
      }
    }
  }

  /** The parser's range, exactly: a value is the parse of some text iff it is a supported document. Here
      the first key of an item consists of ASCII letters, digits, `_`, `-` and `.`; the source asks
      `str.isalnum`, which other alphabets satisfy as well, and so admits further first keys. */
  lemma ParsesIffSupported(v: Value)
    ensures (exists text :: ParseYaml(text) == Ok(v)) <==> Document(v)
  {
    if text :| ParseYaml(text) == Ok(v) {
      var lines := SplitLines(text);
      SplitLinesUnbroken(text);
      if Skip(lines, 0) < |lines| {
        BlockSupported(lines, Skip(lines, 0), 0);
      }
    }
    if Document(v) {
      RoundTrip(v);
    }
  }

  // ---------------------------------------------------------------------------------------
  // The usual depth.

  /** The usual YAML depth for a map below an item's first key, under the key, is refused. */
  lemma DeeperMapIsRefused(key: string, entries: seq<Entry>)
    requires ItemKey(key) && WritableEntries(entries) && entries != []
    ensures ParseLines(["- " + key + ":"] + MapLines(entries, 4)) == Err(InvalidIndentation(2))
  {
    var head, below := Entry(key, Map([])), MapLines(entries, 4);
    var lines := ["- " + key + ":"] + below;
    ItemKeyIsPlain(key);
    HeadLineReads(head);
    assert EntryText(head) == key + ":";
    assert "- " + EntryText(head) == "- " + key + ":";
    assert lines[1..|lines|] == below;
    var _ := EntrySplits(lines, 1, |lines|, 4, entries);
    EntryReads(head, 1);
    RefusedItem(lines, head);
  }

  /** How the parser sees a dash line with a map's first key. */
  lemma HeadLineReads(head: Entry)
    requires PlainKey(head.key) && Writable(head.value)
    ensures var line := "- " + EntryText(head);
      Reads(line, 0, line) && Dashed(Body(line)) && Strip(Body(line)[2..]) == EntryText(head)
  {
    EntryIsTrimmed(head);
    DashLineReads(0, EntryText(head));
    assert Spaces(0) + "- " + EntryText(head) == "- " + EntryText(head);
  }

  lemma RefusedItem(lines: seq<string>, head: Entry)
    requires |lines| > 1 && Reads(lines[0], 0, "- " + EntryText(head)) && Strip(Body(lines[0])[2..]) == EntryText(head)
    requires Reads(lines[1], 4, Body(lines[1]))
    requires SplitMappingEntry(EntryText(head), 1) == Ok((head.key, None)) && LooksLikeMappingEntry(EntryText(head))
    ensures ParseLines(lines) == Err(InvalidIndentation(2))
  {
    BodyIsStripped(lines[0]);
    assert ParseBlock(lines, 1, 2) == Err(InvalidIndentation(2));
    assert ParseEntryValue(lines, 1, 0, None) == Err(InvalidIndentation(2));
    assert ParseItem(lines, 0, 0) == Err(InvalidIndentation(2));
    assert ParseSequence(lines, 0, 0, []) == Err(InvalidIndentation(2));
  }
}
