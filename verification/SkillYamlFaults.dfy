/** What a refused front matter is blamed for, and what an accepted one is free of
    (pycodex/core/skills/parser.py). */
module SkillYamlFaults {
  import opened Prelude
  import opened Text
  import opened SkillYaml

  /** Line `n`, counted from one, is a line with content. */
  predicate Content(lines: seq<string>, n: nat) { 1 <= n <= |lines| && !Ignored(lines[n - 1]) }

  /** The line an error names shows the fault; no error speaks of the end of the input. */
  predicate Blames(lines: seq<string>, e: Error) {
    match e
    case EndOfInput => false
    case TabsNotSupported(n) => Content(lines, n) && '\t' in lines[n - 1]
    case InvalidIndentation(n) => Content(lines, n) && '\t' !in lines[n - 1]
    case SequenceItemNotAllowed(n) => Content(lines, n) && "- " <= Strip(lines[n - 1])
    case UnexpectedNestedSequence(n) => Content(lines, n) && "- " <= Strip(lines[n - 1])
    case ExpectedMapping(n) => Content(lines, n) && ':' !in Strip(lines[n - 1])
    case MissingKey(n) => Content(lines, n) && Strip(lines[n - 1])[0] == ':'
    case TrailingContent(n) => Content(lines, n)
  }

  /** No line with content between `from` and `to` has a tab. */
  ghost predicate NoTabs(lines: seq<string>, from: nat, to: nat) {
    forall i {:trigger lines[i]} :: from <= i < to && i < |lines| && !Ignored(lines[i]) ==> '\t' !in lines[i]
  }

  /** A part of the parser read lines without tabs, or stopped at a fault. */
  ghost predicate Fair<T>(lines: seq<string>, from: nat, r: Result<(T, nat), Error>) {
    match r
    case Ok(read) => NoTabs(lines, from, read.1)
    case Err(e) => Blames(lines, e)
  }

  lemma FairJoins<T>(lines: seq<string>, from: nat, middle: nat, r: Result<(T, nat), Error>)
    requires NoTabs(lines, from, middle) && Fair(lines, middle, r)
    ensures Fair(lines, from, r)
  {}

  lemma {:induction false} SkipsIgnored(lines: seq<string>, index: nat)
    requires index <= |lines|
    ensures forall i {:trigger lines[i]} :: index <= i < Skip(lines, index) ==> Ignored(lines[i])
    decreases |lines| - index
  {
    if index < |lines| && Ignored(lines[index]) {
      SkipsIgnored(lines, index + 1);
    }
  }

  /** A line that does not split has no colon, or nothing before it. */
  lemma EntryFaults(lines: seq<string>, index: nat)
    requires index < |lines| && !Ignored(lines[index])
    ensures var r := SplitMappingEntry(Body(lines[index]), index + 1); r.Err? ==> Blames(lines, r.error)
  {
    var body := Body(lines[index]);
    BodyIsStripped(lines[index]);
    StripTrims(lines[index]);
    var colon := IndexOf(body, ':');
    if 0 < colon < |body| {
      assert body[..colon][0] == body[0];
      SpaceOnlyIfBlank(body[..colon]);
    }
  }

  lemma SpaceOnlyIfBlank(s: string)
    requires s != "" && !IsSpace(s[0])
    ensures Strip(s) != ""
  {
    assert LStrip(s) == s;
    NeverStripsFirst(s);
  }

  lemma {:induction false} NeverStripsFirst(s: string)
    requires s != "" && !IsSpace(s[0])
    ensures RStrip(s) != ""
  {
    if IsSpace(s[|s| - 1]) {
      NeverStripsFirst(s[..|s| - 1]);
    }
  }

  lemma {:induction false} EntryValueIsFair(lines: seq<string>, index: nat, base: nat, text: Option<string>)
    requires index <= |lines|
    ensures Fair(lines, index, ParseEntryValue(lines, index, base, text))
    decreases |lines| - index, 3
  {
    var start := Skip(lines, index);
    SkipsIgnored(lines, index);
    if text.None? && start < |lines| && LeadingSpaces(lines, start).Ok? && LeadingSpaces(lines, start).value > base {
      BlockIsFair(lines, start, base + 2);
    }
  }

  lemma {:induction false} BlockIsFair(lines: seq<string>, index: nat, indent: nat)
    requires index < |lines| && !Ignored(lines[index])
    ensures Fair(lines, index, ParseBlock(lines, index, indent))
    decreases |lines| - index, 2
  {
    if LeadingSpaces(lines, index) == Ok(indent) {
      BodyIsStripped(lines[index]);
      if Dashed(Strip(lines[index])) {
        SequenceIsFair(lines, index, indent, []);
      } else {
        MappingIsFair(lines, index, indent, []);
      }
    }
  }

  lemma {:induction false} MappingIsFair(lines: seq<string>, index: nat, indent: nat, mapping: seq<Entry>)
    requires index <= |lines|
    ensures Fair(lines, index, ParseMapping(lines, index, indent, mapping))
    decreases |lines| - index, 1
  {
    if index == |lines| {
    } else if Ignored(lines[index]) {
      MappingIsFair(lines, index + 1, indent, mapping);
    } else {
      BodyIsStripped(lines[index]);
      EntryFaults(lines, index);
      var entry := SplitMappingEntry(Body(lines[index]), index + 1);
      if LeadingSpaces(lines, index) == Ok(indent) && !Dashed(Body(lines[index])) && entry.Ok? {
        FurtherMappingIsFair(lines, index, indent, mapping, entry.value.0, entry.value.1);
      }
    }
  }

  /** The mapping from one of its keys on. */
  lemma {:induction false} FurtherMappingIsFair(
      lines: seq<string>, index: nat, indent: nat, mapping: seq<Entry>, key: string, text: Option<string>)
    requires index < |lines| && '\t' !in lines[index]
    ensures Fair(lines, index, match ParseEntryValue(lines, index + 1, indent, text)
                               case Err(e) => Err(e)
                               case Ok(value) => ParseMapping(lines, value.1, indent, Put(mapping, key, value.0)))
    decreases |lines| - index, 0
  {
    EntryValueIsFair(lines, index + 1, indent, text);
    var value := ParseEntryValue(lines, index + 1, indent, text);
    if value.Ok? {
      var more := Put(mapping, key, value.value.0);
      MappingIsFair(lines, value.value.1, indent, more);
      FairJoins(lines, index, value.value.1, ParseMapping(lines, value.value.1, indent, more));
    }
  }

  lemma {:induction false} SequenceIsFair(lines: seq<string>, index: nat, indent: nat, items: seq<Value>)
    requires index <= |lines|
    ensures Fair(lines, index, ParseSequence(lines, index, indent, items))
    decreases |lines| - index, 1
  {
    if index == |lines| {
    } else if Ignored(lines[index]) {
      SequenceIsFair(lines, index + 1, indent, items);
    } else if LeadingSpaces(lines, index) == Ok(indent) && Dashed(Body(lines[index])) {
      ItemIsFair(lines, index, indent);
      var item := ParseItem(lines, index, indent);
      if item.Ok? {
        SequenceIsFair(lines, item.value.1, indent, items + [item.value.0]);
      }
    }
  }

  lemma {:induction false} ItemIsFair(lines: seq<string>, index: nat, indent: nat)
    requires index < |lines| && Dashed(Body(lines[index])) && '\t' !in lines[index]
    ensures Fair(lines, index, ParseItem(lines, index, indent))
    decreases |lines| - index, 0
  {
    var text := Strip(Body(lines[index])[2..]);
    SkipsIgnored(lines, index + 1);
    if LooksLikeMappingEntry(text) {
      var (key, rest) := SplitMappingEntry(text, index + 1).value;
      EntryValueIsFair(lines, index + 1, indent, rest);
      var value := ParseEntryValue(lines, index + 1, indent, rest);
      if value.Ok? {
        TailIsFair(lines, value.value.1, indent, [Entry(key, value.value.0)]);
      }
    }
  }

  lemma {:induction false} TailIsFair(lines: seq<string>, index: nat, indent: nat, mapping: seq<Entry>)
    requires index <= |lines|
    ensures Fair(lines, index, ConsumeTail(lines, index, indent, mapping))
    decreases |lines| - index, 1
  {
    var start := Skip(lines, index);
    SkipsIgnored(lines, index);
    TailUnfolds(lines, index, indent, mapping);
    if start < |lines| {
      TailKeyIsFair(lines, start, indent);
      var entry := TailKey(lines, start, indent);
      if entry.Ok? && entry.value.Some? {
        FurtherTailIsFair(lines, start, indent, mapping, entry.value.value.0, entry.value.value.1);
        FairJoins(lines, index, start, ConsumeTail(lines, index, indent, mapping));
      }
    }
  }

  /** The tail from one of its keys on. */
  lemma {:induction false} FurtherTailIsFair(
      lines: seq<string>, start: nat, indent: nat, mapping: seq<Entry>, key: string, text: Option<string>)
    requires start < |lines| && '\t' !in lines[start]
    ensures Fair(lines, start, match ParseEntryValue(lines, start + 1, indent + 2, text)
                               case Err(e) => Err(e)
                               case Ok(value) => ConsumeTail(lines, value.1, indent, Put(mapping, key, value.0)))
    decreases |lines| - start, 0
  {
    EntryValueIsFair(lines, start + 1, indent + 2, text);
    var value := ParseEntryValue(lines, start + 1, indent + 2, text);
    if value.Ok? {
      var more := Put(mapping, key, value.value.0);
      TailIsFair(lines, value.value.1, indent, more);
      FairJoins(lines, start, value.value.1, ConsumeTail(lines, value.value.1, indent, more));
    }
  }

  lemma TailKeyIsFair(lines: seq<string>, start: nat, indent: nat)
    requires start < |lines| && !Ignored(lines[start])
    ensures var entry := TailKey(lines, start, indent);
      (entry.Err? ==> Blames(lines, entry.error)) && (entry.Ok? ==> '\t' !in lines[start])
  {
    BodyIsStripped(lines[start]);
    EntryFaults(lines, start);
  }

  /** Every text: a parse that succeeds has read all its lines, and none with content has a tab; one that
      fails names a line with content that shows the fault. */
  lemma FaultsAreShown(lines: seq<string>)
    ensures ParseLines(lines).Ok? ==> forall i {:trigger lines[i]} :: 0 <= i < |lines| ==>
      Ignored(lines[i]) || '\t' !in lines[i]
    ensures ParseLines(lines).Err? ==> Blames(lines, ParseLines(lines).error)
  {
    var index := Skip(lines, 0);
    SkipsIgnored(lines, 0);
    if index < |lines| {
      BlockIsFair(lines, index, 0);
      var block := ParseBlock(lines, index, 0);
      if block.Ok? {
        SkipsIgnored(lines, block.value.1);
      }
    }
  }
}
