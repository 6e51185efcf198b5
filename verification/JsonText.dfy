/** JSON texts as RFC 8259 builds them (sections 2 to 5 and 7), and why an object's text has no proper
    prefix that is an object's text. */
module JsonText {

  type byte = x: int | 0 <= x < 256

  type bytes = seq<byte>

  const LF: byte := 10
  const CR: byte := 13
  const QUOTE: byte := 0x22
  const BACKSLASH: byte := 0x5c
  const OPEN_OBJECT: byte := 0x7b
  const CLOSE_OBJECT: byte := 0x7d
  const OPEN_ARRAY: byte := 0x5b
  const CLOSE_ARRAY: byte := 0x5d
  const COMMA: byte := 0x2c
  const COLON: byte := 0x3a

  /** Section 7: an unescaped byte, or a backslash with the character it escapes. The four digits of a
      \u escape follow it as unescaped bytes. */
  datatype StringPart = Raw(b: byte) | Escape(b: byte)

  /** Section 3: numbers and the three names are one token of letters, digits and the signs `+-.`. */
  datatype Value =
    | Token(text: bytes)
    | String(parts: seq<StringPart>)
    | Array(blank: bytes, elements: seq<Element>)
    | Object(blank: bytes, members: seq<Member>)

  datatype Element = Element(before: bytes, value: Value, after: bytes)

  datatype Member = Member(before: bytes, key: seq<StringPart>, afterKey: bytes, element: Element)

  predicate Blank(s: bytes) { forall i :: 0 <= i < |s| ==> s[i] == 0x20 || s[i] == 0x09 || s[i] == LF || s[i] == CR }

  predicate TokenByte(b: byte) {
    || 0x30 <= b <= 0x39 || 0x41 <= b <= 0x5a || 0x61 <= b <= 0x7a || b == 0x2b || b == 0x2d || b == 0x2e
  }

  predicate ValidParts(parts: seq<StringPart>) {
    forall i :: 0 <= i < |parts| ==> parts[i].Raw? ==>
        parts[i].b >= 0x20 && parts[i].b != QUOTE && parts[i].b != BACKSLASH
  }

  predicate ValidElement(e: Element) { Blank(e.before) && Blank(e.after) && Valid(e.value) }

  predicate Valid(v: Value) {
    match v
    case Token(text) => text != [] && forall i :: 0 <= i < |text| ==> TokenByte(text[i])
    case String(parts) => ValidParts(parts)
    case Array(blank, elements) => Blank(blank) && forall i :: 0 <= i < |elements| ==> ValidElement(elements[i])
    case Object(blank, members) =>
      Blank(blank) && forall i :: 0 <= i < |members| ==>
        Blank(members[i].before) && ValidParts(members[i].key) && Blank(members[i].afterKey)
            && ValidElement(members[i].element)
  }

  function RenderParts(parts: seq<StringPart>): bytes {
    if parts == [] then []
    else (if parts[0].Raw? then [parts[0].b] else [BACKSLASH, parts[0].b]) + RenderParts(parts[1..])
  }

  function RenderString(parts: seq<StringPart>): bytes { [QUOTE] + RenderParts(parts) + [QUOTE] }

  function RenderElement(e: Element): bytes { e.before + Render(e.value) + e.after }

  function RenderElements(elements: seq<Element>): bytes {
    if elements == [] then []
    else if |elements| == 1 then RenderElement(elements[0])
    else RenderElement(elements[0]) + [COMMA] + RenderElements(elements[1..])
  }

  function RenderMember(m: Member): bytes {
    m.before + RenderString(m.key) + m.afterKey + [COLON] + RenderElement(m.element)
  }

  function RenderMembers(members: seq<Member>): bytes {
    if members == [] then []
    else if |members| == 1 then RenderMember(members[0])
    else RenderMember(members[0]) + [COMMA] + RenderMembers(members[1..])
  }

  function Render(v: Value): bytes {
    match v
    case Token(text) => text
    case String(parts) => RenderString(parts)
    case Array(blank, elements) =>
      [OPEN_ARRAY] + (if elements == [] then blank else RenderElements(elements)) + [CLOSE_ARRAY]
    case Object(blank, members) =>
      [OPEN_OBJECT] + (if members == [] then blank else RenderMembers(members)) + [CLOSE_OBJECT]
  }

  ghost predicate IsObjectText(t: bytes) { exists v: Value :: v.Object? && Valid(v) && Render(v) == t }

  // ---------------------------------------------------------------------------------------
  // A scanner that only counts brackets outside strings.

  datatype Mode = Outside | InString | Escaped

  datatype Scan = Scan(depth: int, mode: Mode)

  function Read(s: Scan, b: byte): Scan {
    match s.mode
    case Escaped => s.(mode := InString)
    case InString => if b == QUOTE then s.(mode := Outside) else if b == BACKSLASH then s.(mode := Escaped) else s
    case Outside =>
      if b == QUOTE then s.(mode := InString)
      else if b == OPEN_OBJECT || b == OPEN_ARRAY then s.(depth := s.depth + 1)
      else if b == CLOSE_OBJECT || b == CLOSE_ARRAY then s.(depth := s.depth - 1)
      else s
  }

  function ReadAll(s: Scan, t: bytes): Scan
    decreases t
  {
    if t == [] then s else ReadAll(Read(s, t[0]), t[1..])
  }

  /** Reading `t` from `s` ends in `s'` and never falls below depth `floor` on the way. */
  ghost predicate Passes(s: Scan, t: bytes, s': Scan, floor: int) {
    ReadAll(s, t) == s' && forall n :: 0 <= n <= |t| ==> ReadAll(s, t[..n]).depth >= floor
  }

  lemma {:induction false} ReadConcat(s: Scan, a: bytes, b: bytes)
    ensures ReadAll(s, a + b) == ReadAll(ReadAll(s, a), b)
    decreases a
  {
    if a == [] {
      assert a + b == b;
    } else {
      assert (a + b)[1..] == a[1..] + b;
      ReadConcat(Read(s, a[0]), a[1..], b);
    }
  }

  lemma PassesConcat(s: Scan, a: bytes, s': Scan, b: bytes, s'': Scan, floor: int)
    requires Passes(s, a, s', floor) && Passes(s', b, s'', floor)
    ensures Passes(s, a + b, s'', floor)
  {
    ReadConcat(s, a, b);
    forall n | 0 <= n <= |a + b|
      ensures ReadAll(s, (a + b)[..n]).depth >= floor
    {
      if n <= |a| {
        assert (a + b)[..n] == a[..n];
      } else {
        assert (a + b)[..n] == a + b[..n - |a|];
        ReadConcat(s, a, b[..n - |a|]);
      }
    }
  }

  lemma PassesByte(s: Scan, b: byte, floor: int)
    requires s.depth >= floor && Read(s, b).depth >= floor
    ensures Passes(s, [b], Read(s, b), floor)
  {
    assert [b][..0] == [] && [b][..1] == [b] && [b][1..] == [];
  }

  /** Bytes that mean nothing outside strings. */
  lemma {:induction false} PassesNeutral(t: bytes, d: int)
    requires forall i :: 0 <= i < |t| ==> t[i] != QUOTE && t[i] !in {OPEN_OBJECT, CLOSE_OBJECT, OPEN_ARRAY, CLOSE_ARRAY}
    ensures Passes(Scan(d, Outside), t, Scan(d, Outside), d)
  {
    if t == [] {
    } else {
      PassesByte(Scan(d, Outside), t[0], d);
      PassesNeutral(t[1..], d);
      PassesConcat(Scan(d, Outside), [t[0]], Scan(d, Outside), t[1..], Scan(d, Outside), d);
      assert [t[0]] + t[1..] == t;
    }
  }

  lemma {:induction false} PassesParts(parts: seq<StringPart>, d: int)
    requires ValidParts(parts)
    ensures Passes(Scan(d, InString), RenderParts(parts), Scan(d, InString), d)
  {
    var s := Scan(d, InString);
    if parts == [] {
    } else {
      var head := if parts[0].Raw? then [parts[0].b] else [BACKSLASH, parts[0].b];
      PassesByte(s, head[0], d);
      if parts[0].Escape? {
        PassesByte(Scan(d, Escaped), parts[0].b, d);
        PassesConcat(s, [BACKSLASH], Scan(d, Escaped), [parts[0].b], s, d);
        assert head == [BACKSLASH] + [parts[0].b];
      }
      PassesParts(parts[1..], d);
      PassesConcat(s, head, s, RenderParts(parts[1..]), s, d);
    }
  }

  lemma PassesString(parts: seq<StringPart>, d: int)
    requires ValidParts(parts)
    ensures Passes(Scan(d, Outside), RenderString(parts), Scan(d, Outside), d)
  {
    PassesParts(parts, d);
    PassesByte(Scan(d, Outside), QUOTE, d);
    PassesByte(Scan(d, InString), QUOTE, d);
    PassesConcat(Scan(d, Outside), [QUOTE], Scan(d, InString), RenderParts(parts), Scan(d, InString), d);
    PassesConcat(Scan(d, Outside), [QUOTE] + RenderParts(parts), Scan(d, InString), [QUOTE], Scan(d, Outside), d);
  }

  lemma {:induction false} PassesElement(e: Element, d: int)
    requires ValidElement(e)
    ensures Passes(Scan(d, Outside), RenderElement(e), Scan(d, Outside), d)
    decreases e, 0
  {
    var s := Scan(d, Outside);
    PassesNeutral(e.before, d);
    PassesValue(e.value, d);
    PassesNeutral(e.after, d);
    PassesConcat(s, e.before, s, Render(e.value), s, d);
    PassesConcat(s, e.before + Render(e.value), s, e.after, s, d);
  }

  lemma {:induction false} PassesElements(elements: seq<Element>, d: int)
    requires forall i :: 0 <= i < |elements| ==> ValidElement(elements[i])
    ensures Passes(Scan(d, Outside), RenderElements(elements), Scan(d, Outside), d)
    decreases elements
  {
    var s := Scan(d, Outside);
    if elements == [] {
    } else {
      var head := RenderElement(elements[0]);
      PassesElement(elements[0], d);
      if |elements| > 1 {
        PassesElements(elements[1..], d);
        PassesByte(s, COMMA, d);
        PassesConcat(s, head, s, [COMMA], s, d);
        PassesConcat(s, head + [COMMA], s, RenderElements(elements[1..]), s, d);
      }
    }
  }

  lemma {:induction false} PassesMember(m: Member, d: int)
    requires Blank(m.before) && ValidParts(m.key) && Blank(m.afterKey) && ValidElement(m.element)
    ensures Passes(Scan(d, Outside), RenderMember(m), Scan(d, Outside), d)
    decreases m
  {
    var s := Scan(d, Outside);
    PassesNeutral(m.before, d);
    PassesString(m.key, d);
    PassesNeutral(m.afterKey, d);
    PassesByte(s, COLON, d);
    PassesElement(m.element, d);
    PassesConcat(s, m.before, s, RenderString(m.key), s, d);
    PassesConcat(s, m.before + RenderString(m.key), s, m.afterKey, s, d);
    PassesConcat(s, m.before + RenderString(m.key) + m.afterKey, s, [COLON], s, d);
    PassesConcat(s, m.before + RenderString(m.key) + m.afterKey + [COLON], s, RenderElement(m.element), s, d);
  }

  lemma {:induction false} PassesMembers(members: seq<Member>, d: int)
    requires forall i :: 0 <= i < |members| ==>
      Blank(members[i].before) && ValidParts(members[i].key) && Blank(members[i].afterKey)
          && ValidElement(members[i].element)
    ensures Passes(Scan(d, Outside), RenderMembers(members), Scan(d, Outside), d)
    decreases members
  {
    var s := Scan(d, Outside);
    if members == [] {
    } else {
      var head := RenderMember(members[0]);
      PassesMember(members[0], d);
      if |members| > 1 {
        PassesMembers(members[1..], d);
        PassesByte(s, COMMA, d);
        PassesConcat(s, head, s, [COMMA], s, d);
        PassesConcat(s, head + [COMMA], s, RenderMembers(members[1..]), s, d);
      }
    }
  }

  /** The inside of brackets, one level up, and the brackets around it. */
  lemma PassesBrackets(opening: byte, inside: bytes, closing: byte, d: int)
    requires (opening == OPEN_OBJECT && closing == CLOSE_OBJECT) || (opening == OPEN_ARRAY && closing == CLOSE_ARRAY)
    requires Passes(Scan(d + 1, Outside), inside, Scan(d + 1, Outside), d + 1)
    ensures Passes(Scan(d, Outside), [opening] + inside + [closing], Scan(d, Outside), d)
    ensures forall n :: 0 < n < |inside| + 2 ==>
        ReadAll(Scan(d, Outside), ([opening] + inside + [closing])[..n]).depth > d
  {
    var s, up, t := Scan(d, Outside), Scan(d + 1, Outside), [opening] + inside + [closing];
    PassesByte(s, opening, d);
    PassesByte(up, closing, d);
    PassesConcat(s, [opening], up, inside, up, d);
    PassesConcat(s, [opening] + inside, up, [closing], s, d);
    forall n | 0 < n < |inside| + 2
      ensures ReadAll(s, t[..n]).depth > d
    {
      assert t[..n] == [opening] + inside[..n - 1];
      ReadConcat(s, [opening], inside[..n - 1]);
    }
  }

  /** Every value leaves the scanner at the depth it found it. */
  lemma {:induction false} PassesValue(v: Value, d: int)
    requires Valid(v)
    ensures Passes(Scan(d, Outside), Render(v), Scan(d, Outside), d)
    decreases v
  {
    match v
    case Token(text) => PassesNeutral(text, d);
    case String(parts) => PassesString(parts, d);
    case Array(blank, elements) =>
      PassesNeutral(blank, d + 1);
      PassesElements(elements, d + 1);
      PassesBrackets(OPEN_ARRAY, if elements == [] then blank else RenderElements(elements), CLOSE_ARRAY, d);
    case Object(blank, members) =>
      PassesNeutral(blank, d + 1);
      PassesMembers(members, d + 1);
      PassesBrackets(OPEN_OBJECT, if members == [] then blank else RenderMembers(members), CLOSE_OBJECT, d);
  }

  /** No proper prefix of an object's text is an object's text. */
  lemma NoObjectInsideAnother(t: bytes, n: nat)
    requires IsObjectText(t) && n < |t|
    ensures !IsObjectText(t[..n])
  {
    var v: Value :| v.Object? && Valid(v) && Render(v) == t;
    PassesNeutral(v.blank, 1);
    PassesMembers(v.members, 1);
    PassesBrackets(OPEN_OBJECT, if v.members == [] then v.blank else RenderMembers(v.members), CLOSE_OBJECT, 0);
    assert n > 0 ==> ReadAll(Scan(0, Outside), t[..n]).depth > 0;
    if IsObjectText(t[..n]) {
      var w: Value :| w.Object? && Valid(w) && Render(w) == t[..n];
      PassesValue(w, 0);
      assert false;
    }
  }

  lemma ObjectTextStarts(t: bytes)
    requires IsObjectText(t)
    ensures |t| >= 2 && t[0] == OPEN_OBJECT
  {}
}
