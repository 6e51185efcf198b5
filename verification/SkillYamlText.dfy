/** The supported subset of skill front matter, its canonical two-space text, and how the parser reads a
    single line of it back. */
module SkillYamlText {
  import opened Prelude
  import opened Text
  import opened SkillYaml

  // ---------------------------------------------------------------------------------------
  // The supported subset.

  predicate Inline(s: string) { forall c :: c in s ==> c != '\t' && !LineBreak(c) }

  predicate PlainKey(key: string) {
    key != "" && Trimmed(key) && Inline(key) && ':' !in key && key[0] != '#' && !Dashed(key)
  }

  predicate DistinctKeys(entries: seq<Entry>) {
    forall k, l :: 0 <= k < l < |entries| ==> entries[k].key != entries[l].key
  }

  /** What can be written. A sequence holds scalars and nonempty maps whose first key is a plain word. A
      map's entries may still repeat a key. */
  predicate Writable(v: Value)
    decreases v, 0
  {
    match v
    case Null => true
    case Bool(_) => true
    case Int(_) => true
    case Float(lexeme) => IsFloat(lexeme)
    case Str(s) => Inline(s)
    case Map(entries) => forall e :: e in entries ==> PlainKey(e.key) && Writable(e.value)
    case Seq(items) => items != [] && forall item :: item in items ==> WritableItem(item)
  }

  predicate WritableItem(v: Value)
    decreases v, 1
  {
    Writable(v) && !v.Seq? && (v.Map? ==> v.entries != [] && ItemKey(v.entries[0].key))
  }

  predicate WritableEntries(entries: seq<Entry>) {
    forall e :: e in entries ==> PlainKey(e.key) && Writable(e.value)
  }

  /** A real value: no map has a key twice. */
  predicate Distinct(v: Value) {
    match v
    case Map(entries) => DistinctKeys(entries) && forall e :: e in entries ==> Distinct(e.value)
    case Seq(items) => forall item :: item in items ==> Distinct(item)
    case _ => true
  }

  predicate Supported(v: Value) { Writable(v) && Distinct(v) }

  predicate SupportedItem(v: Value) { WritableItem(v) && Distinct(v) }

  predicate SupportedEntries(entries: seq<Entry>) {
    forall e :: e in entries ==> PlainKey(e.key) && Supported(e.value)
  }

  predicate Document(v: Value) { Supported(v) && !IsScalar(v) }

  // ---------------------------------------------------------------------------------------
  // Writing.

  function Digits(n: nat): string { (if n < 10 then "" else Digits(n / 10)) + ['0' + (n % 10) as char] }

  function IntText(n: int): string { if n < 0 then "-" + Digits(-n) else Digits(n) }

  function ScalarText(v: Value): string {
    match v
    case Null => "null"
    case Bool(b) => if b then "true" else "false"
    case Int(n) => IntText(n)
    case Float(lexeme) => lexeme
    case Str(s) => "\"" + s + "\""
    case Map(_) => "{}"
    case Seq(_) => "[]"
  }

  function Spaces(n: nat): string { seq(n, _ => ' ') }

  /** The part of an entry's line behind the colon. */
  function ValueText(v: Value): string { if IsScalar(v) then " " + ScalarText(v) else "" }

  function EntryText(e: Entry): string { e.key + ":" + ValueText(e.value) }

  /** The lines below a key, or a whole document. */
  function ValueLines(v: Value, indent: nat): seq<string>
    decreases v, 1
  {
    match v
    case Map(entries) => MapLines(entries, indent)
    case Seq(items) => SeqLines(items, indent)
    case _ => []
  }

  function MapLines(entries: seq<Entry>, indent: nat): seq<string> {
    if entries == [] then []
    else
      [Spaces(indent) + EntryText(entries[0])]
      + ValueLines(entries[0].value, indent + 2) + MapLines(entries[1..], indent)
  }

  function SeqLines(items: seq<Value>, indent: nat): seq<string> {
    if items == [] then [] else ItemLines(items[0], indent) + SeqLines(items[1..], indent)
  }

  /** The first key stands on the dash line, its value and the further keys below. */
  function ItemLines(item: Value, indent: nat): seq<string>
    decreases item, 1
  {
    if item.Map? && item.entries != [] then
      [Spaces(indent) + "- " + EntryText(item.entries[0])]
      + ValueLines(item.entries[0].value, indent + 2) + MapLines(item.entries[1..], indent + 2)
    else [Spaces(indent) + "- " + ScalarText(item)]
  }

  // ---------------------------------------------------------------------------------------
  // Reading one line back.

  lemma {:induction false} DigitsRead(n: nat)
    ensures Digits(n) != "" && AllDigits(Digits(n)) && NatOf(Digits(n)) == n
  {
    if n >= 10 {
      DigitsRead(n / 10);
    }
    var init, last := if n < 10 then "" else Digits(n / 10), '0' + (n % 10) as char;
    assert Digits(n) == init + [last] && Digits(n)[..|Digits(n)| - 1] == init;
    assert (last - '0') as nat == n % 10;
  }

  lemma UnsignedReads(digits: string)
    requires digits != "" && AllDigits(digits)
    ensures IsInt(digits) && IntOf(digits) == NatOf(digits)
  {
    assert digits[0] in digits && Digit(digits[0]);
    assert Unsigned(digits) == digits;
  }

  lemma SignedReads(digits: string)
    requires digits != "" && AllDigits(digits)
    ensures IsInt("-" + digits) && IntOf("-" + digits) == -(NatOf(digits) as int)
  {
    var text := "-" + digits;
    assert text[0] == '-' && text[1..] == digits;
    assert Unsigned(text) == digits;
  }

  lemma IntTextReads(n: int)
    ensures IsInt(IntText(n)) && IntOf(IntText(n)) == n
  {
    if n < 0 {
      DigitsRead(-n);
      SignedReads(Digits(-n));
    } else {
      DigitsRead(n);
      UnsignedReads(Digits(n));
    }
  }

  lemma IntReads(n: int)
    ensures var text := IntText(n);
      ParseScalar(text) == Int(n) && text != "" && Trimmed(text) && Inline(text) && !LooksLikeMappingEntry(text)
  {
    IntTextReads(n);
    NumberReads(IntText(n));
  }

  lemma LoweredAt(s: string, i: nat)
    requires i < |s| && !('A' <= s[i] <= 'Z')
    ensures |Lowered(s)| == |s| && Lowered(s)[i] == s[i]
  {}

  /** Written scalars are one trimmed word that parses back and is never taken for a map entry. */
  lemma ScalarReads(v: Value)
    requires Writable(v) && IsScalar(v)
    ensures ParseScalar(ScalarText(v)) == v
    ensures ScalarText(v) != "" && Trimmed(ScalarText(v)) && Inline(ScalarText(v))
    ensures !LooksLikeMappingEntry(ScalarText(v))
  {
    match v
    case Null => WordReads(v);
    case Bool(_) => WordReads(v);
    case Int(n) => IntReads(n);
    case Float(lexeme) =>
      FloatIsNumber(lexeme);
      NumberReads(lexeme);
    case Str(s) =>
      QuotedReads(s);
      QuotedIsNoEntry(s);
  }

  lemma WordReads(v: Value)
    requires v == Null || v.Bool?
    ensures var text := ScalarText(v);
      ParseScalar(text) == v && Trimmed(text) && Inline(text) && !LooksLikeMappingEntry(text)
  {
    assert Lowered(ScalarText(v)) == ScalarText(v);
    assert IndexOf(ScalarText(v), ':') == |ScalarText(v)|;
  }

  lemma QuotedReads(s: string)
    ensures ParseScalar("\"" + s + "\"") == Str(s)
  {
    var text := "\"" + s + "\"";
    LoweredAt(text, 0);
    QuotedIsNoNumber(text);
    assert text[1..|text| - 1] == s;
  }

  predicate Numeric(s: string) {
    s != "" && forall k :: 0 <= k < |s| ==> Digit(s[k]) || s[k] == '.' || (k == 0 && s[k] == '-')
  }

  lemma FloatIsNumber(s: string)
    requires IsFloat(s)
    ensures Numeric(s) && !IsInt(s)
  {
    var u := Unsigned(s);
    var dot := IndexOf(u, '.');
    assert '.' in u && !Digit('.');
    forall k | 0 <= k < |u|
      ensures Digit(u[k]) || u[k] == '.'
    {
      if k < dot {
        assert u[k] in u[..dot];
      } else if k > dot {
        assert u[k] in u[dot + 1..];
      }
    }
  }

  lemma NumberReads(s: string)
    requires Numeric(s) || IsInt(s)
    ensures Lowered(s) !in {"true", "false", "null", "~"}
    ensures s != "" && Trimmed(s) && Inline(s) && !LooksLikeMappingEntry(s)
  {
    if IsInt(s) {
      forall k | 0 <= k < |s|
        ensures Digit(s[k]) || (k == 0 && s[k] == '-')
      {
        if s[0] == '-' && k > 0 {
          assert s[k] == Unsigned(s)[k - 1];
        }
      }
    }
    assert Numeric(s);
    LoweredAt(s, 0);
  }

  lemma QuotedIsNoNumber(s: string)
    requires s != "" && s[0] == '"'
    ensures !IsInt(s) && !IsFloat(s)
  {
    assert Unsigned(s) == s && s[0] in s && !Digit('"');
    var dot := IndexOf(s, '.');
    if 0 < dot {
      assert s[0] in s[..dot];
    }
  }

  lemma QuotedIsNoEntry(s: string)
    ensures !LooksLikeMappingEntry("\"" + s + "\"")
  {
    var text := "\"" + s + "\"";
    var colon := IndexOf(text, ':');
    if 0 < colon < |text| {
      var key := Strip(text[..colon]);
      assert text[..colon][0] == '"';
      StripKeepsFirst(text[..colon]);
      assert key[0] in key && !KeyChar('"');
    }
  }

  lemma {:induction false} StripKeepsFirst(s: string)
    requires s != "" && !IsSpace(s[0])
    ensures Strip(s) != "" && Strip(s)[0] == s[0]
  {
    if IsSpace(s[|s| - 1]) {
      StripKeepsFirst(s[..|s| - 1]);
    }
  }

  lemma {:induction false} IndexIs(s: string, c: char, rest: string)
    requires c !in s
    ensures IndexOf(s + [c] + rest, c) == |s|
  {
    if s == "" {
    } else {
      IndexIs(s[1..], c, rest);
      assert (s + [c] + rest)[1..] == s[1..] + [c] + rest;
    }
  }

  lemma ItemKeyIsPlain(key: string)
    requires ItemKey(key)
    ensures PlainKey(key)
  {
    assert forall k :: 0 <= k < |key| ==> KeyChar(key[k]);
    assert "- "[1] == ' ';
  }

  lemma ValueTextReads(v: Value)
    requires Writable(v)
    ensures Strip(ValueText(v)) == if IsScalar(v) then ScalarText(v) else ""
    ensures IsScalar(v) ==> ScalarText(v) != ""
    ensures Inline(ValueText(v)) && (ValueText(v) != "" ==> !IsSpace(ValueText(v)[|ValueText(v)| - 1]))
  {
    if IsScalar(v) {
      var text := ScalarText(v);
      ScalarReads(v);
      assert (" " + text)[1..] == text;
      assert LStrip(" " + text) == LStrip(text);
      StripTrims(text);
    }
  }

  lemma SplitReads(key: string, rest: string, line: nat)
    requires PlainKey(key)
    ensures var value := Strip(rest);
      SplitMappingEntry(key + ":" + rest, line) == Ok((key, if value == "" then None else Some(value)))
    ensures ItemKey(key) ==> LooksLikeMappingEntry(key + ":" + rest)
  {
    var text := key + ":" + rest;
    assert text == key + [':'] + rest;
    IndexIs(key, ':', rest);
    assert text[..|key|] == key && text[|key| + 1..] == rest;
    StripTrims(key);
  }

  /** A written entry splits into its key and its value text. */
  lemma EntryReads(e: Entry, line: nat)
    requires PlainKey(e.key) && Writable(e.value)
    ensures SplitMappingEntry(EntryText(e), line)
      == Ok((e.key, if IsScalar(e.value) then Some(ScalarText(e.value)) else None))
    ensures ItemKey(e.key) ==> LooksLikeMappingEntry(EntryText(e))
  {
    ValueTextReads(e.value);
    SplitReads(e.key, ValueText(e.value), line);
  }

  lemma EntryIsTrimmed(e: Entry)
    requires PlainKey(e.key) && Writable(e.value)
    ensures var text := EntryText(e);
      text != "" && Trimmed(text) && Inline(text) && text[0] == e.key[0] && !Dashed(text)
  {
    ValueTextReads(e.value);
    var text := e.key + ":" + ValueText(e.value);
    assert text[0] == e.key[0];
    assert |e.key| >= 2 ==> text[1] == e.key[1];
    assert |e.key| == 1 ==> text[1] == ':';
  }

  /** How the parser sees an indented line. */
  ghost predicate Reads(line: string, indent: nat, body: string) {
    !Ignored(line) && '\t' !in line && Indentation(line) == indent && Body(line) == body
  }

  lemma {:induction false} LineReads(indent: nat, body: string)
    requires body != "" && Trimmed(body) && Inline(body) && body[0] != '#'
    ensures Reads(Spaces(indent) + body, indent, body) && Inline(Spaces(indent) + body)
  {
    IndentedInline(indent, body);
    if indent == 0 {
      assert Spaces(0) + body == body;
      StripTrims(body);
      BodyIsStripped(body);
    } else {
      var line := Spaces(indent) + body;
      LineReads(indent - 1, body);
      assert line[0] == ' ' && line[1..] == Spaces(indent - 1) + body;
      SpaceBefore(line);
    }
  }

  lemma IndentedInline(indent: nat, body: string)
    requires Inline(body)
    ensures Inline(Spaces(indent) + body)
  {}

  lemma SpaceBefore(line: string)
    requires line != "" && line[0] == ' '
    ensures Strip(line) == Strip(line[1..])
    ensures Indentation(line) == 1 + Indentation(line[1..]) && Body(line) == Body(line[1..])
  {
    BodyIsStripped(line);
    BodyIsStripped(line[1..]);
  }
}
