/** How the parser reads written blocks back. A map below the first key of an item takes in the keys that
    follow the item's own; `Absorbed` says what becomes of a value in that way, at any depth. */
module SkillYamlRoundTrip {
  import opened Prelude
  import opened Text
  import opened SkillYaml
  import opened SkillYamlText

  // ---------------------------------------------------------------------------------------
  // What a written value reads back as.

  function PutAll(entries: seq<Entry>, more: seq<Entry>): seq<Entry>
    decreases more
  {
    if more == [] then entries else PutAll(Put(entries, more[0].key, more[0].value), more[1..])
  }

  function Absorbed(v: Value): Value
    decreases v, 0
  {
    match v
    case Map(entries) => Map(PutAll([], AbsorbedEntries(entries)))
    case Seq(items) => Seq(AbsorbedItems(items))
    case _ => v
  }

  function AbsorbedEntries(entries: seq<Entry>): seq<Entry> {
    if entries == [] then []
    else [Entry(entries[0].key, Absorbed(entries[0].value))] + AbsorbedEntries(entries[1..])
  }

  function AbsorbedItems(items: seq<Value>): seq<Value> {
    if items == [] then [] else [AbsorbedItem(items[0])] + AbsorbedItems(items[1..])
  }

  /** An item whose first value is a map becomes one key over that map and all further entries. */
  function AbsorbedItem(item: Value): Value
    decreases item, 1
  {
    if item.Map? && item.entries != [] && item.entries[0].value.Map? then
      var head, rest := item.entries[0], item.entries[1..];
      var all := PutAll([], AbsorbedEntries(head.value.entries) + AbsorbedEntries(rest));
      Map([Entry(head.key, Map(all))])
    else Absorbed(item)
  }

  lemma {:induction false} PutAllConcat(entries: seq<Entry>, a: seq<Entry>, b: seq<Entry>)
    ensures PutAll(entries, a + b) == PutAll(PutAll(entries, a), b)
    decreases a
  {
    if a == [] {
      assert a + b == b;
    } else {
      assert (a + b)[1..] == a[1..] + b;
      PutAllConcat(Put(entries, a[0].key, a[0].value), a[1..], b);
    }
  }

  // ---------------------------------------------------------------------------------------
  // Where the parts of a written block stand.

  /** `chunk` stands at `lines[i..j]`. */
  ghost predicate At(lines: seq<string>, i: nat, j: nat, chunk: seq<string>) {
    i <= j <= |lines| && lines[i..j] == chunk
  }

  lemma AtSplits(lines: seq<string>, i: nat, j: nat, a: seq<string>, b: seq<string>) returns (k: nat)
    requires At(lines, i, j, a + b)
    ensures At(lines, i, k, a) && At(lines, k, j, b)
  {
    k := i + |a|;
    assert |lines[i..j]| == |a + b|;
    assert lines[i..k] == (a + b)[..|a|];
    assert lines[k..j] == (a + b)[|a|..];
  }

  lemma AtNothing(lines: seq<string>, i: nat, j: nat)
    requires At(lines, i, j, [])
    ensures i == j
  {
    assert |lines[i..j]| == 0;
  }

  lemma AtSplitsFirst(lines: seq<string>, i: nat, j: nat, first: string, rest: seq<string>)
    requires At(lines, i, j, [first] + rest)
    ensures i < |lines| && lines[i] == first && At(lines, i + 1, j, rest)
  {
    var k := AtSplits(lines, i, j, [first], rest);
    assert |lines[i..k]| == 1 && lines[i] == lines[i..k][0];
  }

  /** The text ends at `j`, or goes on there with a line that the parser looks at. */
  ghost predicate Goes(lines: seq<string>, j: nat) {
    j <= |lines| && (j < |lines| ==> !Ignored(lines[j]) && '\t' !in lines[j])
  }

  /** ... and that line is indented by at most `indent`. */
  ghost predicate Closes(lines: seq<string>, j: nat, indent: nat) {
    Goes(lines, j) && (j < |lines| ==> Indentation(lines[j]) <= indent)
  }

  /** A block at depth `indent` is over at `j`; a sequence may be followed by a key at its own depth. */
  ghost predicate Over(lines: seq<string>, j: nat, indent: nat, sequence: bool) {
    && Goes(lines, j)
    && (j < |lines| ==>
          || Indentation(lines[j]) < indent
          || (sequence && Indentation(lines[j]) == indent && !Dashed(Body(lines[j]))))
  }

  /** The value of a key at depth `base` is over at `j`. */
  ghost predicate ValueOver(lines: seq<string>, j: nat, base: nat, v: Value) {
    Goes(lines, j) && (!IsScalar(v) ==> Over(lines, j, base + 2, v.Seq?) && (v.Map? ==> Closes(lines, j, base)))
  }

  lemma EntryLineReads(e: Entry, indent: nat)
    requires PlainKey(e.key) && Writable(e.value)
    ensures Reads(Spaces(indent) + EntryText(e), indent, EntryText(e)) && !Dashed(EntryText(e))
  {
    EntryIsTrimmed(e);
    LineReads(indent, EntryText(e));
  }

  /** Where the first of several written entries, its value and the rest stand. */
  lemma EntrySplits(lines: seq<string>, i: nat, j: nat, indent: nat, entries: seq<Entry>) returns (k: nat)
    requires entries != [] && WritableEntries(entries) && At(lines, i, j, MapLines(entries, indent))
    ensures i < |lines| && Reads(lines[i], indent, EntryText(entries[0])) && !Dashed(EntryText(entries[0]))
    ensures At(lines, i + 1, k, ValueLines(entries[0].value, indent + 2))
    ensures At(lines, k, j, MapLines(entries[1..], indent))
  {
    var e := entries[0];
    var first, below := Spaces(indent) + EntryText(e), ValueLines(e.value, indent + 2);
    var rest := MapLines(entries[1..], indent);
    assert MapLines(entries, indent) == [first] + (below + rest);
    AtSplitsFirst(lines, i, j, first, below + rest);
    k := AtSplits(lines, i + 1, j, below, rest);
    EntryLineReads(e, indent);
  }

  /** Behind an entry stands the end of the map or the line of its next entry. */
  lemma NextEntryCloses(lines: seq<string>, i: nat, j: nat, indent: nat, rest: seq<Entry>, v: Value)
    requires WritableEntries(rest) && At(lines, i, j, MapLines(rest, indent)) && Closes(lines, j, indent)
    ensures Closes(lines, i, indent) && ValueOver(lines, i, indent, v)
  {
    if rest != [] {
      var _ := EntrySplits(lines, i, j, indent, rest);
    } else {
      AtNothing(lines, i, j);
    }
  }

  /** What the parser is given for a value: the rest of the key's line, if anything stands there. */
  function LineText(v: Value): Option<string> { if IsScalar(v) then Some(ScalarText(v)) else None }

  /** The text on an item's dash line. */
  function ItemText(item: Value): string {
    if item.Map? && item.entries != [] then EntryText(item.entries[0]) else ScalarText(item)
  }

  lemma FirstEntryPlain(item: Value)
    requires WritableItem(item) && item.Map?
    ensures var head := item.entries[0]; ItemKey(head.key) && PlainKey(head.key) && Writable(head.value)
    ensures WritableEntries(item.entries[1..])
  {
    assert item.entries[0] in item.entries;
  }

  lemma ItemTextTrimmed(item: Value)
    requires WritableItem(item)
    ensures var text := ItemText(item); text != "" && Trimmed(text) && Inline(text)
  {
    if item.Map? {
      FirstEntryPlain(item);
      EntryIsTrimmed(item.entries[0]);
    } else {
      ScalarReads(item);
    }
  }

  lemma DashLineReads(indent: nat, text: string)
    requires text != "" && Trimmed(text) && Inline(text)
    ensures Reads(Spaces(indent) + "- " + text, indent, "- " + text) && Strip(("- " + text)[2..]) == text
  {
    LineReads(indent, "- " + text);
    StripTrims(text);
    assert ("- " + text)[2..] == text;
    assert Spaces(indent) + "- " + text == Spaces(indent) + ("- " + text);
  }

  /** Where an item's dash line, its first value and its further entries stand. */
  lemma ItemSplits(lines: seq<string>, i: nat, j: nat, indent: nat, item: Value) returns (k: nat)
    requires WritableItem(item) && At(lines, i, j, ItemLines(item, indent))
    ensures i < |lines| && Reads(lines[i], indent, Body(lines[i])) && Dashed(Body(lines[i]))
    ensures Strip(Body(lines[i])[2..]) == ItemText(item)
    ensures item.Map? ==>
      && At(lines, i + 1, k, ValueLines(item.entries[0].value, indent + 2))
      && At(lines, k, j, MapLines(item.entries[1..], indent + 2))
    ensures !item.Map? ==> j == i + 1
  {
    var line := Spaces(indent) + "- " + ItemText(item);
    ItemTextTrimmed(item);
    DashLineReads(indent, ItemText(item));
    k := j;
    if item.Map? {
      var below := ValueLines(item.entries[0].value, indent + 2);
      var further := MapLines(item.entries[1..], indent + 2);
      Regroup([line], below, further);
      AtSplitsFirst(lines, i, j, line, below + further);
      k := AtSplits(lines, i + 1, j, below, further);
    } else {
      assert ItemLines(item, indent) == [line] + [];
      AtSplitsFirst(lines, i, j, line, []);
      AtNothing(lines, i + 1, j);
    }
  }

  lemma Regroup(a: seq<string>, b: seq<string>, c: seq<string>)
    ensures a + b + c == a + (b + c)
  {}

  /** A nonempty block starts with a line at its own depth, with a dash if it is a sequence. */
  lemma FirstLineReads(lines: seq<string>, i: nat, j: nat, indent: nat, v: Value)
    requires Writable(v) && !IsScalar(v) && v != Map([]) && At(lines, i, j, ValueLines(v, indent))
    ensures i < |lines| && Reads(lines[i], indent, Body(lines[i])) && (Dashed(Body(lines[i])) <==> v.Seq?)
  {
    if v.Map? {
      var _ := EntrySplits(lines, i, j, indent, v.entries);
    } else {
      var first, rest := ItemLines(v.items[0], indent), SeqLines(v.items[1..], indent);
      assert SeqLines(v.items, indent) == first + rest;
      var k := AtSplits(lines, i, j, first, rest);
      var _ := ItemSplits(lines, i, k, indent, v.items[0]);
    }
  }

  // ---------------------------------------------------------------------------------------
  // Single turns of the parser's loops.

  /** One turn of the mapping loop. */
  lemma MappingStep(lines: seq<string>, i: nat, indent: nat, acc: seq<Entry>, e: Entry, value: Value, next: nat)
    requires PlainKey(e.key) && Writable(e.value) && next <= |lines|
    requires i < |lines| && Reads(lines[i], indent, EntryText(e))
    requires ParseEntryValue(lines, i + 1, indent, LineText(e.value)) == Ok((value, next))
    ensures ParseMapping(lines, i, indent, acc) == ParseMapping(lines, next, indent, Put(acc, e.key, value))
  {
    EntryReads(e, i + 1);
    EntryIsTrimmed(e);
  }

  /** The line of one of an item's further keys. */
  lemma TailLineReads(lines: seq<string>, i: nat, indent: nat, e: Entry)
    requires PlainKey(e.key) && Writable(e.value)
    requires i < |lines| && Reads(lines[i], indent + 2, EntryText(e))
    ensures Skip(lines, i) == i && TailKey(lines, i, indent) == Ok(Some((e.key, LineText(e.value))))
  {
    EntryReads(e, i + 1);
    EntryIsTrimmed(e);
  }

  /** One turn of the sequence loop. */
  lemma SequenceStep(lines: seq<string>, i: nat, indent: nat, acc: seq<Value>, item: Value, next: nat)
    requires i < |lines| && Reads(lines[i], indent, Body(lines[i])) && Dashed(Body(lines[i]))
    requires next <= |lines| && ParseItem(lines, i, indent) == Ok((item, next))
    ensures ParseSequence(lines, i, indent, acc) == ParseSequence(lines, next, indent, acc + [item])
  {}

  lemma MappingEnds(lines: seq<string>, j: nat, indent: nat, acc: seq<Entry>)
    requires Over(lines, j, indent, false)
    ensures ParseMapping(lines, j, indent, acc) == Ok((acc, j))
  {}

  lemma SequenceEnds(lines: seq<string>, j: nat, indent: nat, acc: seq<Value>)
    requires Over(lines, j, indent, true)
    ensures ParseSequence(lines, j, indent, acc) == Ok((acc, j))
  {}

  lemma TailEndsAt(lines: seq<string>, j: nat, indent: nat, acc: seq<Entry>)
    requires Closes(lines, j, indent)
    ensures ConsumeTail(lines, j, indent, acc) == Ok((acc, j))
  {}

  /** One item that starts with a key. */
  lemma MapItemStep(lines: seq<string>, i: nat, indent: nat, head: Entry, value: Value, k: nat, r: (seq<Entry>, nat))
    requires i < |lines| && Dashed(Body(lines[i])) && Strip(Body(lines[i])[2..]) == EntryText(head)
    requires ItemKey(head.key) && PlainKey(head.key) && Writable(head.value) && k <= |lines|
    requires ParseEntryValue(lines, i + 1, indent, LineText(head.value)) == Ok((value, k))
    requires ConsumeTail(lines, k, indent, [Entry(head.key, value)]) == Ok(r)
    ensures ParseItem(lines, i, indent) == Ok((Map(r.0), r.1))
  {
    EntryReads(head, i + 1);
  }

  /** A key without text on its line takes the deeper block below. */
  lemma BlockBelowKey(lines: seq<string>, i: nat, base: nat, r: (Value, nat))
    requires i < |lines| && !Ignored(lines[i]) && '\t' !in lines[i] && Indentation(lines[i]) == base + 2
    requires ParseBlock(lines, i, base + 2) == Ok(r)
    ensures ParseEntryValue(lines, i, base, None) == Ok(r)
  {}

  lemma MappingBlock(lines: seq<string>, i: nat, indent: nat, r: (seq<Entry>, nat))
    requires i < |lines| && Reads(lines[i], indent, Body(lines[i])) && !Dashed(Body(lines[i]))
    requires ParseMapping(lines, i, indent, []) == Ok(r)
    ensures ParseBlock(lines, i, indent) == Ok((Map(r.0), r.1))
  {
    BodyIsStripped(lines[i]);
  }

  lemma SequenceBlock(lines: seq<string>, i: nat, indent: nat, r: (seq<Value>, nat))
    requires i < |lines| && Reads(lines[i], indent, Body(lines[i])) && Dashed(Body(lines[i]))
    requires ParseSequence(lines, i, indent, []) == Ok(r)
    ensures ParseBlock(lines, i, indent) == Ok((Seq(r.0), r.1))
  {
    BodyIsStripped(lines[i]);
  }

  lemma EmptyMapReads(lines: seq<string>, j: nat, base: nat)
    requires Closes(lines, j, base)
    ensures ParseEntryValue(lines, j, base, None) == Ok((Map([]), j))
  {}

  lemma ScalarValueReads(lines: seq<string>, j: nat, base: nat, v: Value)
    requires Writable(v) && IsScalar(v) && Goes(lines, j)
    ensures ParseEntryValue(lines, j, base, LineText(v)) == Ok((v, j))
  {
    ScalarReads(v);
  }

  // ---------------------------------------------------------------------------------------
  // Whole blocks.

  lemma {:induction false} MapReads(
        lines: seq<string>, i: nat, j: nat, indent: nat, acc: seq<Entry>, entries: seq<Entry>)
    requires WritableEntries(entries) && At(lines, i, j, MapLines(entries, indent)) && Closes(lines, j, indent)
    ensures ParseMapping(lines, i, indent, acc) == ParseMapping(lines, j, indent, PutAll(acc, AbsorbedEntries(entries)))
    decreases entries
  {
    if entries == [] {
      AtNothing(lines, i, j);
    } else {
      var e, rest := entries[0], entries[1..];
      var next := EntrySplits(lines, i, j, indent, entries);
      NextEntryCloses(lines, next, j, indent, rest, e.value);
      EntryValueReads(lines, i + 1, next, indent, e.value);
      MappingStep(lines, i, indent, acc, e, Absorbed(e.value), next);
      MapReads(lines, next, j, indent, Put(acc, e.key, Absorbed(e.value)), rest);
      PutFirst(acc, entries);
    }
  }

  lemma PutFirst(acc: seq<Entry>, entries: seq<Entry>)
    requires entries != []
    ensures PutAll(acc, AbsorbedEntries(entries)) ==
      PutAll(Put(acc, entries[0].key, Absorbed(entries[0].value)), AbsorbedEntries(entries[1..]))
  {}

  lemma {:induction false} TailReads(
        lines: seq<string>, i: nat, j: nat, indent: nat, acc: seq<Entry>, entries: seq<Entry>)
    requires WritableEntries(entries) && At(lines, i, j, MapLines(entries, indent + 2)) && Closes(lines, j, indent)
    ensures ConsumeTail(lines, i, indent, acc) == Ok((PutAll(acc, AbsorbedEntries(entries)), j))
    decreases entries
  {
    if entries == [] {
      AtNothing(lines, i, j);
      TailEndsAt(lines, j, indent, acc);
    } else {
      var e, rest := entries[0], entries[1..];
      var next := EntrySplits(lines, i, j, indent + 2, entries);
      NextEntryCloses(lines, next, j, indent + 2, rest, e.value);
      EntryValueReads(lines, i + 1, next, indent + 2, e.value);
      TailLineReads(lines, i, indent, e);
      TailUnfolds(lines, i, indent, acc);
      TailReads(lines, next, j, indent, Put(acc, e.key, Absorbed(e.value)), rest);
      PutFirst(acc, entries);
    }
  }

  /** What follows a key, on its own line or below it. */
  lemma {:induction false} EntryValueReads(lines: seq<string>, i: nat, j: nat, base: nat, v: Value)
    requires Writable(v) && At(lines, i, j, ValueLines(v, base + 2)) && ValueOver(lines, j, base, v)
    ensures ParseEntryValue(lines, i, base, LineText(v)) == Ok((Absorbed(v), j))
    decreases v, 2
  {
    if IsScalar(v) {
      AtNothing(lines, i, j);
      ScalarValueReads(lines, j, base, v);
    } else if v == Map([]) {
      AtNothing(lines, i, j);
      EmptyMapReads(lines, j, base);
    } else {
      BlockReads(lines, i, j, base + 2, v);
      FirstLineReads(lines, i, j, base + 2, v);
      BlockBelowKey(lines, i, base, (Absorbed(v), j));
    }
  }

  lemma {:induction false} BlockReads(lines: seq<string>, i: nat, j: nat, indent: nat, v: Value)
    requires Writable(v) && !IsScalar(v) && v != Map([])
    requires At(lines, i, j, ValueLines(v, indent)) && Over(lines, j, indent, v.Seq?)
    ensures ParseBlock(lines, i, indent) == Ok((Absorbed(v), j))
    decreases v, 1
  {
    FirstLineReads(lines, i, j, indent, v);
    if v.Map? {
      MapReads(lines, i, j, indent, [], v.entries);
      MappingEnds(lines, j, indent, PutAll([], AbsorbedEntries(v.entries)));
      MappingBlock(lines, i, indent, (PutAll([], AbsorbedEntries(v.entries)), j));
    } else {
      SeqReads(lines, i, j, indent, [], v.items);
      assert [] + AbsorbedItems(v.items) == AbsorbedItems(v.items);
      SequenceBlock(lines, i, indent, (AbsorbedItems(v.items), j));
    }
  }

  lemma {:induction false} SeqReads(lines: seq<string>, i: nat, j: nat, indent: nat, acc: seq<Value>, items: seq<Value>)
    requires (forall v :: v in items ==> WritableItem(v))
    requires At(lines, i, j, SeqLines(items, indent)) && Over(lines, j, indent, true)
    ensures ParseSequence(lines, i, indent, acc) == Ok((acc + AbsorbedItems(items), j))
    decreases items
  {
    if items == [] {
      AtNothing(lines, i, j);
      SequenceEnds(lines, j, indent, acc);
      assert acc + [] == acc;
    } else {
      var item, rest := items[0], items[1..];
      var read := AbsorbedItem(item);
      assert acc + [read] + AbsorbedItems(rest) == acc + ([read] + AbsorbedItems(rest));
      assert SeqLines(items, indent) == ItemLines(item, indent) + SeqLines(rest, indent);
      var next := AtSplits(lines, i, j, ItemLines(item, indent), SeqLines(rest, indent));
      var _ := ItemSplits(lines, i, next, indent, item);
      NextItemCloses(lines, next, j, indent, rest);
      ItemReads(lines, i, next, indent, item);
      SequenceStep(lines, i, indent, acc, read, next);
      SeqReads(lines, next, j, indent, acc + [read], rest);
    }
  }

  lemma NextItemCloses(lines: seq<string>, i: nat, j: nat, indent: nat, rest: seq<Value>)
    requires (forall v :: v in rest ==> WritableItem(v))
    requires At(lines, i, j, SeqLines(rest, indent)) && Over(lines, j, indent, true)
    ensures Closes(lines, i, indent)
  {
    if rest != [] {
      assert SeqLines(rest, indent) == ItemLines(rest[0], indent) + SeqLines(rest[1..], indent);
      var k := AtSplits(lines, i, j, ItemLines(rest[0], indent), SeqLines(rest[1..], indent));
      var _ := ItemSplits(lines, i, k, indent, rest[0]);
    } else {
      AtNothing(lines, i, j);
    }
  }

  lemma {:induction false} ItemReads(lines: seq<string>, i: nat, j: nat, indent: nat, item: Value)
    requires WritableItem(item) && At(lines, i, j, ItemLines(item, indent)) && Closes(lines, j, indent)
    ensures i < |lines| && Dashed(Body(lines[i])) && ParseItem(lines, i, indent) == Ok((AbsorbedItem(item), j))
    decreases item, 3
  {
    var k := ItemSplits(lines, i, j, indent, item);
    if !item.Map? {
      ScalarReads(item);
      assert Skip(lines, j) == j;
    } else if item.entries[0].value.Map? {
      AbsorbingItemReads(lines, i, k, j, indent, item);
    } else {
      KeptItemReads(lines, i, k, j, indent, item);
    }
  }

  /** An item whose first value is no map. */
  lemma {:induction false} KeptItemReads(lines: seq<string>, i: nat, k: nat, j: nat, indent: nat, item: Value)
    requires WritableItem(item) && item.Map? && !item.entries[0].value.Map? && Closes(lines, j, indent)
    requires i < |lines| && Dashed(Body(lines[i])) && Strip(Body(lines[i])[2..]) == ItemText(item)
    requires At(lines, i + 1, k, ValueLines(item.entries[0].value, indent + 2))
    requires At(lines, k, j, MapLines(item.entries[1..], indent + 2))
    ensures ParseItem(lines, i, indent) == Ok((AbsorbedItem(item), j))
    decreases item, 2
  {
    var head, rest := item.entries[0], item.entries[1..];
    var first := [Entry(head.key, Absorbed(head.value))];
    FirstEntryPlain(item);
    FirstValueOver(lines, k, j, indent, item);
    EntryValueReads(lines, i + 1, k, indent, head.value);
    TailReads(lines, k, j, indent, first, rest);
    PutFirst([], item.entries);
    MapItemStep(lines, i, indent, head, Absorbed(head.value), k, (PutAll(first, AbsorbedEntries(rest)), j));
  }

  /** An item whose first value is a map. */
  lemma {:induction false} AbsorbingItemReads(lines: seq<string>, i: nat, k: nat, j: nat, indent: nat, item: Value)
    requires WritableItem(item) && item.Map? && item.entries[0].value.Map? && Closes(lines, j, indent)
    requires i < |lines| && Dashed(Body(lines[i])) && Strip(Body(lines[i])[2..]) == ItemText(item)
    requires At(lines, i + 1, k, ValueLines(item.entries[0].value, indent + 2))
    requires At(lines, k, j, MapLines(item.entries[1..], indent + 2))
    ensures ParseItem(lines, i, indent) == Ok((AbsorbedItem(item), j))
    decreases item, 2
  {
    var head, below, rest := item.entries[0], item.entries[0].value.entries, item.entries[1..];
    var all := PutAll([], AbsorbedEntries(below) + AbsorbedEntries(rest));
    FirstEntryPlain(item);
    BelowItemReads(lines, i + 1, k, j, indent, item, all);
    TailEndsAt(lines, j, indent, [Entry(head.key, Map(all))]);
    MapItemStep(lines, i, indent, head, Map(all), j, ([Entry(head.key, Map(all))], j));
  }

  /** The map below an item's first key takes in the entries behind it. */
  lemma {:induction false} BelowItemReads(lines: seq<string>, i: nat, k: nat, j: nat, indent: nat,
                                          item: Value, all: seq<Entry>)
    requires WritableItem(item) && item.Map? && item.entries[0].value.Map? && Closes(lines, j, indent)
    requires var below, rest := item.entries[0].value.entries, item.entries[1..];
      && all == PutAll([], AbsorbedEntries(below) + AbsorbedEntries(rest))
      && At(lines, i, k, MapLines(below, indent + 2)) && At(lines, k, j, MapLines(rest, indent + 2))
    ensures ParseEntryValue(lines, i, indent, None) == Ok((Map(all), j))
    decreases item, 1
  {
    var below, rest := item.entries[0].value.entries, item.entries[1..];
    FirstEntryPlain(item);
    if below == [] && rest == [] {
      NothingReads(lines, i, k, j, indent);
    } else {
      BelowItemMapping(lines, i, k, j, indent, item, all);
      AbsorbingStarts(lines, i, k, j, indent + 2, below, rest);
      MapBelowKey(lines, i, j, indent, all);
    }
  }

  lemma {:induction false} BelowItemMapping(lines: seq<string>, i: nat, k: nat, j: nat, indent: nat,
                                            item: Value, all: seq<Entry>)
    requires WritableItem(item) && item.Map? && item.entries[0].value.Map? && Closes(lines, j, indent)
    requires var below, rest := item.entries[0].value.entries, item.entries[1..];
      && all == PutAll([], AbsorbedEntries(below) + AbsorbedEntries(rest))
      && At(lines, i, k, MapLines(below, indent + 2)) && At(lines, k, j, MapLines(rest, indent + 2))
    ensures ParseMapping(lines, i, indent + 2, []) == ParseMapping(lines, j, indent + 2, all)
    decreases item, 0
  {
    var below, rest := item.entries[0].value.entries, item.entries[1..];
    FirstEntryPlain(item);
    NextEntryCloses(lines, k, j, indent + 2, rest, Null);
    PutAllConcat([], AbsorbedEntries(below), AbsorbedEntries(rest));
    MapReads(lines, i, k, indent + 2, [], below);
    MapReads(lines, k, j, indent + 2, PutAll([], AbsorbedEntries(below)), rest);
  }

  /** Nothing below an item's first key, nor behind it. */
  lemma NothingReads(lines: seq<string>, i: nat, k: nat, j: nat, indent: nat)
    requires At(lines, i, k, []) && At(lines, k, j, []) && Closes(lines, j, indent)
    ensures ParseEntryValue(lines, i, indent, None) == Ok((Map([]), j))
  {
    AtNothing(lines, i, k);
    AtNothing(lines, k, j);
    EmptyMapReads(lines, j, indent);
  }

  lemma MapBelowKey(lines: seq<string>, i: nat, j: nat, base: nat, entries: seq<Entry>)
    requires i < |lines| && Reads(lines[i], base + 2, Body(lines[i])) && !Dashed(Body(lines[i]))
    requires Closes(lines, j, base)
    requires ParseMapping(lines, i, base + 2, []) == ParseMapping(lines, j, base + 2, entries)
    ensures ParseEntryValue(lines, i, base, None) == Ok((Map(entries), j))
  {
    MappingEnds(lines, j, base + 2, entries);
    MappingBlock(lines, i, base + 2, (entries, j));
    BlockBelowKey(lines, i, base, (Map(entries), j));
  }

  lemma AbsorbingStarts(lines: seq<string>, i: nat, k: nat, j: nat, indent: nat, below: seq<Entry>, rest: seq<Entry>)
    requires WritableEntries(below) && WritableEntries(rest) && (below != [] || rest != [])
    requires At(lines, i, k, MapLines(below, indent)) && At(lines, k, j, MapLines(rest, indent))
    ensures i < |lines| && Reads(lines[i], indent, Body(lines[i])) && !Dashed(Body(lines[i]))
  {
    if below != [] {
      var _ := EntrySplits(lines, i, k, indent, below);
    } else {
      AtNothing(lines, i, k);
      var _ := EntrySplits(lines, k, j, indent, rest);
    }
  }

  /** Behind a first value that is no map, a further key may stand. */
  lemma FirstValueOver(lines: seq<string>, k: nat, j: nat, indent: nat, item: Value)
    requires WritableItem(item) && item.Map? && !item.entries[0].value.Map? && Closes(lines, j, indent)
    requires At(lines, k, j, MapLines(item.entries[1..], indent + 2))
    ensures ValueOver(lines, k, indent, item.entries[0].value)
  {
    var rest := item.entries[1..];
    if rest == [] {
      AtNothing(lines, k, j);
    } else {
      FirstEntryPlain(item);
      var _ := EntrySplits(lines, k, j, indent + 2, rest);
    }
  }
}
