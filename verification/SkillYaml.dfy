/** The YAML subset of skill front matter (pycodex/core/skills/parser.py): values, lexing, and the
    line-index parser. */
module SkillYaml {
  import opened Prelude
  import opened Text

  /** A float stays the digits it was written with. A map keeps its entries in insertion order. */
  datatype Value =
    | Null
    | Bool(b: bool)
    | Int(n: int)
    | Float(lexeme: string)
    | Str(s: string)
    | Map(entries: seq<Entry>)
    | Seq(items: seq<Value>)

  datatype Entry = Entry(key: string, value: Value)

  datatype Error =
    | EndOfInput
    | TabsNotSupported(line: nat)
    | InvalidIndentation(line: nat)
    | SequenceItemNotAllowed(line: nat)
    | UnexpectedNestedSequence(line: nat)
    | ExpectedMapping(line: nat)
    | MissingKey(line: nat)
    | TrailingContent(line: nat)

  predicate IsScalar(v: Value) { !v.Map? && !v.Seq? }

  // ---------------------------------------------------------------------------------------
  // Characters and scalars.

  predicate LineBreak(c: char) {
    '\n' <= c <= '\r' || '\U{1c}' <= c <= '\U{1e}' || c == '\U{85}' || c == '\U{2028}' || c == '\U{2029}'
  }

  predicate Digit(c: char) { '0' <= c <= '9' }

  predicate AllDigits(s: string) { forall c :: c in s ==> Digit(c) }

  predicate KeyChar(c: char) { Digit(c) || 'A' <= c <= 'Z' || 'a' <= c <= 'z' || c == '_' || c == '-' || c == '.' }

  function IndexOf(s: string, c: char): (i: nat)
    ensures i <= |s| && c !in s[..i]
    ensures i < |s| ==> s[i] == c
  {
    if s == "" || s[0] == c then 0
    else
      var i := 1 + IndexOf(s[1..], c);
      assert s[..i] == [s[0]] + s[1..][..i - 1];
      i
  }

  function Lowered(s: string): string {
    seq(|s|, i requires 0 <= i < |s| => if 'A' <= s[i] <= 'Z' then 'a' + (s[i] - 'A') else s[i])
  }

  function Unsigned(s: string): string { if s != "" && s[0] == '-' then s[1..] else s }

  predicate IsInt(s: string) { Unsigned(s) != "" && AllDigits(Unsigned(s)) }

  predicate IsFloat(s: string) {
    var u := Unsigned(s);
    var dot := IndexOf(u, '.');
    dot < |u| && |u| >= 2 && AllDigits(u[..dot]) && AllDigits(u[dot + 1..])
  }

  function NatOf(s: string): nat
    requires AllDigits(s)
  {
    if s == "" then 0
    else
      assert Digit(s[|s| - 1]);
      10 * NatOf(s[..|s| - 1]) + (s[|s| - 1] - '0') as nat
  }

  function IntOf(s: string): int
    requires IsInt(s)
  {
    if s[0] == '-' then -(NatOf(Unsigned(s)) as int) else NatOf(Unsigned(s))
  }

  function ParseScalar(text: string): Value {
    var lowered := Lowered(text);
    if lowered == "true" then Bool(true)
    else if lowered == "false" then Bool(false)
    else if lowered == "null" || lowered == "~" then Null
    else if IsInt(text) then Int(IntOf(text))
    else if IsFloat(text) then Float(text)
    else if |text| >= 2 && text[0] == text[|text| - 1] && (text[0] == '\'' || text[0] == '"') then
      Str(text[1..|text| - 1])
    else Str(text)
  }

  // ---------------------------------------------------------------------------------------
  // Lines.

  /** `text.splitlines()`. */
  function SplitLines(text: string): seq<string> {
    if text == "" then []
    else
      var end := LineEnd(text);
      if end == |text| then [text]
      else [text[..end]] + SplitLines(text[end + if "\r\n" <= text[end..] then 2 else 1..])
  }

  function LineEnd(text: string): (i: nat)
    ensures i <= |text| && forall c :: c in text[..i] ==> !LineBreak(c)
    ensures i < |text| ==> LineBreak(text[i])
  {
    if text == "" || LineBreak(text[0]) then 0
    else
      var i := 1 + LineEnd(text[1..]);
      assert text[..i] == [text[0]] + text[1..][..i - 1];
      i
  }

  predicate Ignored(line: string) { Strip(line) == "" || Strip(line)[0] == '#' }

  function Skip(lines: seq<string>, index: nat): (next: nat)
    requires index <= |lines|
    ensures index <= next <= |lines|
    ensures next < |lines| ==> !Ignored(lines[next])
    decreases |lines| - index
  {
    if index < |lines| && Ignored(lines[index]) then Skip(lines, index + 1) else index
  }

  function Indentation(line: string): (n: nat)
    ensures n <= |line|
  {
    if line != "" && line[0] == ' ' then 1 + Indentation(line[1..]) else 0
  }

  function LeadingSpaces(lines: seq<string>, index: nat): Result<nat, Error>
    requires index < |lines|
  {
    if '\t' in lines[index] then Err(TabsNotSupported(index + 1)) else Ok(Indentation(lines[index]))
  }

  function Body(line: string): string { Strip(line[Indentation(line)..]) }

  predicate Dashed(body: string) { "- " <= body }

  function SplitMappingEntry(body: string, line: nat): Result<(string, Option<string>), Error> {
    var colon := IndexOf(body, ':');
    if colon == |body| then Err(ExpectedMapping(line))
    else
      var key, value := Strip(body[..colon]), Strip(body[colon + 1..]);
      if key == "" then Err(MissingKey(line))
      else Ok((key, if value == "" then None else Some(value)))
  }

  /** The keys an item may start with. */
  predicate ItemKey(key: string) { key != "" && forall c :: c in key ==> KeyChar(c) }

  predicate LooksLikeMappingEntry(text: string) {
    var colon := IndexOf(text, ':');
    colon < |text| && ItemKey(Strip(text[..colon]))
  }

  /** `mapping[key] = value`: a known key keeps its place. */
  function Put(entries: seq<Entry>, key: string, value: Value): (updated: seq<Entry>)
    ensures |entries| <= |updated|
  {
    if entries == [] then [Entry(key, value)]
    else if entries[0].key == key then [Entry(key, value)] + entries[1..]
    else [entries[0]] + Put(entries[1..], key, value)
  }

  // ---------------------------------------------------------------------------------------
  // The parser. Every function takes the index of the next unread line and returns the index
  // after what it consumed; the accumulators are what the source's loops have collected so far.

  /** What follows a key: the scalar on its line, or the deeper block below it, or nothing. */
  function ParseEntryValue(
        lines: seq<string>, index: nat, base: nat, text: Option<string>): (r: Result<(Value, nat), Error>)
    requires index <= |lines|
    ensures r.Ok? ==> index <= r.value.1 <= |lines|
    decreases |lines| - index, 3
  {
    var start := Skip(lines, index);
    if text.Some? then Ok((ParseScalar(text.value), start))
    else if start == |lines| then Ok((Map([]), start))
    else
      var nested :- LeadingSpaces(lines, start);
      if nested > base then ParseBlock(lines, start, base + 2) else Ok((Map([]), start))
  }

  function ParseBlock(lines: seq<string>, index: nat, indent: nat): (r: Result<(Value, nat), Error>)
    requires index <= |lines|
    ensures r.Ok? ==> index < r.value.1 <= |lines|
    decreases |lines| - index, 2
  {
    if index == |lines| then Err(EndOfInput)
    else
      var found :- LeadingSpaces(lines, index);
      if found != indent then Err(InvalidIndentation(index + 1))
      else if Dashed(Strip(lines[index])) then
        BodyIsStripped(lines[index]);
        var (items, next) :- ParseSequence(lines, index, indent, []);
        Ok((Seq(items), next))
      else
        var (entries, next) :- ParseMapping(lines, index, indent, []);
        Ok((Map(entries), next))
  }

  function ParseMapping(
        lines: seq<string>, index: nat, indent: nat, mapping: seq<Entry>): (r: Result<(seq<Entry>, nat), Error>)
    requires index <= |lines|
    ensures r.Ok? ==> index <= r.value.1 <= |lines|
    ensures r.Ok? && index < |lines| && Indentation(lines[index]) == indent ==> index < r.value.1
    decreases |lines| - index, 1
  {
    if index == |lines| then Ok((mapping, index))
    else if Ignored(lines[index]) then ParseMapping(lines, index + 1, indent, mapping)
    else
      var found :- LeadingSpaces(lines, index);
      if found < indent then Ok((mapping, index))
      else if found > indent then Err(InvalidIndentation(index + 1))
      else if Dashed(Body(lines[index])) then Err(SequenceItemNotAllowed(index + 1))
      else
        var (key, text) :- SplitMappingEntry(Body(lines[index]), index + 1);
        var (value, next) :- ParseEntryValue(lines, index + 1, indent, text);
        ParseMapping(lines, next, indent, Put(mapping, key, value))
  }

  function ParseSequence(
        lines: seq<string>, index: nat, indent: nat, items: seq<Value>): (r: Result<(seq<Value>, nat), Error>)
    requires index <= |lines|
    ensures r.Ok? ==> index <= r.value.1 <= |lines|
    ensures r.Ok? && index < |lines| && Indentation(lines[index]) == indent && Dashed(Body(lines[index])) ==>
        index < r.value.1
    decreases |lines| - index, 1
  {
    if index == |lines| then Ok((items, index))
    else if Ignored(lines[index]) then ParseSequence(lines, index + 1, indent, items)
    else
      var found :- LeadingSpaces(lines, index);
      if found < indent then Ok((items, index))
      else if found > indent then Err(InvalidIndentation(index + 1))
      else if !Dashed(Body(lines[index])) then Ok((items, index))
      else
        var (item, next) :- ParseItem(lines, index, indent);
        ParseSequence(lines, next, indent, items + [item])
  }

  /** One `- ` line and what belongs to it. The source's branch for an empty item text is never
      taken (`ItemTextIsNeverEmpty`). */
  function ParseItem(lines: seq<string>, index: nat, indent: nat): (r: Result<(Value, nat), Error>)
    requires index < |lines| && Dashed(Body(lines[index]))
    ensures r.Ok? ==> index < r.value.1 <= |lines|
    decreases |lines| - index, 0
  {
    var text := Strip(Body(lines[index])[2..]);
    if LooksLikeMappingEntry(text) then
      var (key, rest) := SplitMappingEntry(text, index + 1).value;
      var (value, next) :- ParseEntryValue(lines, index + 1, indent, rest);
      var (entries, end) :- ConsumeTail(lines, next, indent, [Entry(key, value)]);
      Ok((Map(entries), end))
    else
      Ok((ParseScalar(text), Skip(lines, index + 1)))
  }

  /** The next of an item's further keys with the rest of its line; `None` where the item ends. */
  function TailKey(lines: seq<string>, start: nat, indent: nat): Result<Option<(string, Option<string>)>, Error>
    requires start < |lines|
  {
    var found :- LeadingSpaces(lines, start);
    if found <= indent then Ok(None)
    else if found != indent + 2 then Err(InvalidIndentation(start + 1))
    else if Dashed(Body(lines[start])) then Err(UnexpectedNestedSequence(start + 1))
    else
      var entry :- SplitMappingEntry(Body(lines[start]), start + 1);
      Ok(Some(entry))
  }

  /** `_consume_inline_mapping_tail`: the further keys of a map that began on a `- ` line. */
  function ConsumeTail(
        lines: seq<string>, index: nat, indent: nat, mapping: seq<Entry>): (r: Result<(seq<Entry>, nat), Error>)
    requires index <= |lines|
    ensures r.Ok? ==> index <= r.value.1 <= |lines|
    decreases |lines| - index, 0
  {
    var start := Skip(lines, index);
    if start == |lines| then Ok((mapping, start))
    else
      var entry :- TailKey(lines, start, indent);
      if entry.None? then Ok((mapping, start))
      else
        var (value, next) :- ParseEntryValue(lines, start + 1, indent + 2, entry.value.1);
        ConsumeTail(lines, next, indent, Put(mapping, entry.value.0, value))
  }

  function ParseLines(lines: seq<string>): Result<Value, Error> {
    var index := Skip(lines, 0);
    if index == |lines| then Ok(Map([]))
    else
      var (value, next) :- ParseBlock(lines, index, 0);
      var tail := Skip(lines, next);
      if tail == |lines| then Ok(value) else Err(TrailingContent(tail + 1))
  }

  /** `_parse_yaml`. */
  function ParseYaml(text: string): Result<Value, Error> { ParseLines(SplitLines(text)) }

  // ---------------------------------------------------------------------------------------
  // Facts about lines.

  lemma {:induction false} BodyIsStripped(line: string)
    ensures Body(line) == Strip(line)
  {
    if line != "" && line[0] == ' ' {
      BodyIsStripped(line[1..]);
      assert line[Indentation(line)..] == line[1..][Indentation(line[1..])..];
    }
  }

  /** A dash line always has text behind the dash: `if not item_text` is unreachable. */
  lemma ItemTextIsNeverEmpty(line: string)
    requires Dashed(Body(line))
    ensures Strip(Body(line)[2..]) != ""
  {
    var body := Body(line);
    StripTrims(line[Indentation(line)..]);
    assert |body| > 2;
    var rest := body[2..];
    LStripSuffix(rest);
    StripKeepsLast(rest);
  }

  lemma {:induction false} StripKeepsLast(s: string)
    requires s != "" && !IsSpace(s[|s| - 1])
    ensures Strip(s) != ""
  {
    if IsSpace(s[0]) {
      StripKeepsLast(s[1..]);
    }
  }

  // ---------------------------------------------------------------------------------------
  // The parser as it runs: mutually recursive procedures whose loops advance an index.

  method ParseEntryValueFrom(lines: seq<string>, index: nat, base: nat, text: Option<string>)
    returns (r: Result<(Value, nat), Error>)
    requires index <= |lines|
    ensures r == ParseEntryValue(lines, index, base, text)
    decreases |lines| - index, 3
  {
    var start := Skip(lines, index);
    if text.Some? { return Ok((ParseScalar(text.value), start)); }
    if start == |lines| { return Ok((Map([]), start)); }
    var nested :- LeadingSpaces(lines, start);
    if nested <= base { return Ok((Map([]), start)); }
    r := ParseBlockFrom(lines, start, base + 2);
  }

  method ParseBlockFrom(lines: seq<string>, index: nat, indent: nat) returns (r: Result<(Value, nat), Error>)
    requires index <= |lines|
    ensures r == ParseBlock(lines, index, indent)
    decreases |lines| - index, 2
  {
    if index == |lines| { return Err(EndOfInput); }
    var found :- LeadingSpaces(lines, index);
    if found != indent { return Err(InvalidIndentation(index + 1)); }
    if Dashed(Strip(lines[index])) {
      var items :- ParseSequenceFrom(lines, index, indent);
      return Ok((Seq(items.0), items.1));
    }
    var entries :- ParseMappingFrom(lines, index, indent);
    return Ok((Map(entries.0), entries.1));
  }

  method ParseMappingFrom(lines: seq<string>, from: nat, indent: nat) returns (r: Result<(seq<Entry>, nat), Error>)
    requires from <= |lines|
    ensures r == ParseMapping(lines, from, indent, [])
    decreases |lines| - from, 1
  {
    var index, mapping := from, [];
    while index < |lines|
      invariant from <= index <= |lines|
      invariant ParseMapping(lines, from, indent, []) == ParseMapping(lines, index, indent, mapping)
      decreases |lines| - index
    {
      if Ignored(lines[index]) {
        index := index + 1;
        continue;
      }
      var found :- LeadingSpaces(lines, index);
      if found < indent { break; }
      if found > indent { return Err(InvalidIndentation(index + 1)); }
      var body := Strip(lines[index][found..]);
      if Dashed(body) { return Err(SequenceItemNotAllowed(index + 1)); }
      var entry :- SplitMappingEntry(body, index + 1);
      var value :- ParseEntryValueFrom(lines, index + 1, indent, entry.1);
      index, mapping := value.1, Put(mapping, entry.0, value.0);
    }
    return Ok((mapping, index));
  }

  method ParseSequenceFrom(lines: seq<string>, from: nat, indent: nat) returns (r: Result<(seq<Value>, nat), Error>)
    requires from <= |lines|
    ensures r == ParseSequence(lines, from, indent, [])
    decreases |lines| - from, 1
  {
    var index, items := from, [];
    while index < |lines|
      invariant from <= index <= |lines|
      invariant ParseSequence(lines, from, indent, []) == ParseSequence(lines, index, indent, items)
      decreases |lines| - index
    {
      if Ignored(lines[index]) {
        index := index + 1;
        continue;
      }
      var found :- LeadingSpaces(lines, index);
      if found < indent { break; }
      if found > indent { return Err(InvalidIndentation(index + 1)); }
      var body := Strip(lines[index][found..]);
      if !Dashed(body) { break; }
      var text := Strip(body[2..]);
      if LooksLikeMappingEntry(text) {
        var entry := SplitMappingEntry(text, index + 1).value;
        var value :- ParseEntryValueFrom(lines, index + 1, indent, entry.1);
        var rest :- ConsumeTailFrom(lines, value.1, indent, [Entry(entry.0, value.0)]);
        index, items := rest.1, items + [Map(rest.0)];
      } else {
        index, items := Skip(lines, index + 1), items + [ParseScalar(text)];
      }
    }
    return Ok((items, index));
  }

  method ConsumeTailFrom(lines: seq<string>, from: nat, indent: nat, first: seq<Entry>)
    returns (r: Result<(seq<Entry>, nat), Error>)
    requires from <= |lines|
    ensures r == ConsumeTail(lines, from, indent, first)
    decreases |lines| - from, 0
  {
    var index, mapping := from, first;
    while true
      invariant from <= index <= |lines|
      invariant ConsumeTail(lines, from, indent, first) == ConsumeTail(lines, index, indent, mapping)
      decreases |lines| - index
    {
      var start := Skip(lines, index);
      TailUnfolds(lines, index, indent, mapping);
      if start == |lines| { return Ok((mapping, start)); }
      var entry :- TailKey(lines, start, indent);
      if entry.None? { return Ok((mapping, start)); }
      var value :- ParseEntryValueFrom(lines, start + 1, indent + 2, entry.value.1);
      index, mapping := value.1, Put(mapping, entry.value.0, value.0);
    }
  }

  /** One turn of the loop over an item's further keys. */
  lemma TailUnfolds(lines: seq<string>, index: nat, indent: nat, mapping: seq<Entry>)
    requires index <= |lines|
    ensures var start, r := Skip(lines, index), ConsumeTail(lines, index, indent, mapping);
      if start == |lines| then r == Ok((mapping, start))
      else
        var entry := TailKey(lines, start, indent);
        if entry.Err? then r == Err(entry.error)
        else if entry.value.None? then r == Ok((mapping, start))
        else
          var value := ParseEntryValue(lines, start + 1, indent + 2, entry.value.value.1);
          if value.Err? then r == Err(value.error)
          else r == ConsumeTail(lines, value.value.1, indent, Put(mapping, entry.value.value.0, value.value.0))
    ensures var start, r := Skip(lines, index), ConsumeTail(lines, index, indent, mapping);
      r.Ok? && start < |lines| && TailKey(lines, start, indent).Ok? && TailKey(lines, start, indent).value.Some? ==>
        ParseEntryValue(lines, start + 1, indent + 2, TailKey(lines, start, indent).value.value.1).Ok?
  {
    var start := Skip(lines, index);
    if start < |lines| && TailKey(lines, start, indent).Ok? && TailKey(lines, start, indent).value.Some? {
      var value := ParseEntryValue(lines, start + 1, indent + 2, TailKey(lines, start, indent).value.value.1);
    }
  }
}
