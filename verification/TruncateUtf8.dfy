/** Cutting a text to a byte budget without splitting a character (pycodex/core/project_doc.py). */
module TruncateUtf8 {
  import opened Prelude
  import opened JsonText

  const TRUNCATED_MARKER := "\n[truncated]"

  /** Section 3 of RFC 3629. */
  function EncodeChar(c: char): (encoded: bytes)
    ensures 1 <= |encoded| <= 4
  {
    var n := c as int;
    if n < 0x80 then [n]
    else if n < 0x800 then [0xc0 + n / 64, 0x80 + n % 64]
    else if n < 0x10000 then [0xe0 + n / 4096, 0x80 + n / 64 % 64, 0x80 + n % 64]
    else [0xf0 + n / 262144, 0x80 + n / 4096 % 64, 0x80 + n / 64 % 64, 0x80 + n % 64]
  }

  /** The table of section 3: how long an encoding is, which bytes may stand where, and the bits they carry. */
  lemma EncodingTable(c: char)
    ensures var e, n := EncodeChar(c), c as int;
      && (|e| == 1 <==> n <= 0x7f)
      && (|e| == 2 <==> 0x80 <= n <= 0x7ff)
      && (|e| == 3 <==> 0x800 <= n <= 0xffff)
      && (|e| == 4 <==> 0x10000 <= n)
      && (|e| == 1 ==> e[0] as int == n)
      && (|e| == 2 ==> 0xc2 <= e[0] <= 0xdf && n == (e[0] as int - 0xc0) * 0x40 + (e[1] as int - 0x80))
      && (|e| == 3 ==>
            && 0xe0 <= e[0] <= 0xef
            && n == (e[0] as int - 0xe0) * 0x1000 + (e[1] as int - 0x80) * 0x40 + (e[2] as int - 0x80))
      && (|e| == 4 ==>
            && 0xf0 <= e[0] <= 0xf4
            && n == (e[0] as int - 0xf0) * 0x40000 + (e[1] as int - 0x80) * 0x1000
                    + (e[2] as int - 0x80) * 0x40 + (e[3] as int - 0x80))
      && forall i :: 1 <= i < |e| ==> 0x80 <= e[i] <= 0xbf
  {
    var n := c as int;
    assert n / 4096 == n / 64 / 64 && n / 262144 == n / 4096 / 64;
  }

  function Encode(s: string): bytes { if s == "" then [] else EncodeChar(s[0]) + Encode(s[1..]) }

  /** The six payload bits of a continuation byte. */
  function Payload(b: byte): int { (b as int) - 0x80 }

  /** Length and code point a leading byte announces; `None` for a byte that cannot lead. */
  function Announced(b: bytes): (announced: Option<(nat, int)>)
    requires b != []
    ensures announced.Some? ==> announced.value.0 <= |b|
  {
    var lead: int := b[0];
    if lead < 0x80 then Some((1, lead))
    else if 0xc0 <= lead < 0xe0 && |b| >= 2 then Some((2, (lead - 0xc0) * 64 + Payload(b[1])))
    else if 0xe0 <= lead < 0xf0 && |b| >= 3 then Some((3, (lead - 0xe0) * 4096 + Payload(b[1]) * 64 + Payload(b[2])))
    else if 0xf0 <= lead < 0xf8 && |b| >= 4 then
      Some((4, (lead - 0xf0) * 262144 + Payload(b[1]) * 4096 + Payload(b[2]) * 64 + Payload(b[3])))
    else None
  }

  predicate ScalarValue(n: int) { 0 <= n < 0xd800 || 0xe000 <= n < 0x110000 }

  /** The first character; section 4 of RFC 3629 allows only its one shortest encoding. */
  function DecodeFirst(b: bytes): (first: Option<char>)
    requires b != []
    ensures first.Some? ==> EncodeChar(first.value) <= b
  {
    match Announced(b)
    case None => None
    case Some((length, n)) =>
      if ScalarValue(n) && EncodeChar(n as char) == b[..length] then Some(n as char) else None
  }

  function Decode(b: bytes): Option<string>
    decreases |b|
  {
    if b == [] then Some("")
    else
      match DecodeFirst(b)
      case None => None
      case Some(c) =>
        match Decode(b[|EncodeChar(c)|..])
        case None => None
        case Some(rest) => Some([c] + rest)
  }

  lemma AnnouncedByEncoding(c: char, rest: bytes)
    ensures Announced(EncodeChar(c) + rest) == Some((|EncodeChar(c)|, c as int))
  {
    var n := c as int;
    assert n / 4096 == n / 64 / 64 && n / 262144 == n / 4096 / 64;
  }

  lemma DecodeFirstOfEncoding(c: char, rest: bytes)
    ensures DecodeFirst(EncodeChar(c) + rest) == Some(c)
  {
    AnnouncedByEncoding(c, rest);
    assert (EncodeChar(c) + rest)[..|EncodeChar(c)|] == EncodeChar(c);
  }

  /** Decoding accepts exactly the encodings, and inverts them. */
  lemma {:induction false} DecodeEncode(s: string)
    ensures Decode(Encode(s)) == Some(s)
  {
    if s == "" {
    } else {
      DecodeFirstOfEncoding(s[0], Encode(s[1..]));
      assert Encode(s)[|EncodeChar(s[0])|..] == Encode(s[1..]);
      DecodeEncode(s[1..]);
      assert [s[0]] + s[1..] == s;
    }
  }

  lemma EncodeCons(c: char, rest: string)
    ensures Encode([c] + rest) == EncodeChar(c) + Encode(rest)
  {
    assert ([c] + rest)[1..] == rest;
  }

  lemma PrefixAndRest(prefix: bytes, b: bytes)
    requires prefix <= b
    ensures prefix + b[|prefix|..] == b
  {}

  lemma {:induction false} EncodeDecode(b: bytes)
    ensures Decode(b).Some? ==> Encode(Decode(b).value) == b
    decreases |b|
  {
    if b != [] && DecodeFirst(b).Some? {
      var c := DecodeFirst(b).value;
      var first := EncodeChar(c);
      PrefixAndRest(first, b);
      EncodeDecode(b[|first|..]);
      if Decode(b[|first|..]).Some? {
        EncodeCons(c, Decode(b[|first|..]).value);
      }
    }
  }

  /** No encoding is a prefix of another text's encoding unless the text is a prefix too. */
  lemma {:induction false} PrefixOfEncoding(s: string, t: string)
    requires Encode(s) <= Encode(t)
    ensures s <= t
  {
    if s != "" && t != "" {
      var tail := Encode(t)[|EncodeChar(s[0])|..];
      assert EncodeChar(s[0]) + tail == Encode(t);
      DecodeFirstOfEncoding(s[0], tail);
      DecodeFirstOfEncoding(t[0], Encode(t[1..]));
      assert tail == Encode(t[1..]);
      assert Encode(s)[|EncodeChar(s[0])|..] == Encode(s[1..]);
      PrefixOfEncoding(s[1..], t[1..]);
    }
  }

  lemma {:induction false} EncodeConcat(s: string, t: string)
    ensures Encode(s + t) == Encode(s) + Encode(t)
    decreases s
  {
    if s == "" {
      assert s + t == t;
    } else {
      assert (s + t)[1..] == s[1..] + t;
      EncodeConcat(s[1..], t);
    }
  }

  /** How many leading characters fit a byte budget. */
  function Fit(text: string, budget: nat): (k: nat)
    ensures k <= |text|
  {
    if text == "" || |EncodeChar(text[0])| > budget then 0 else 1 + Fit(text[1..], budget - |EncodeChar(text[0])|)
  }

  /** The longest whole-character prefix that fits; at most three bytes of the budget stay unused before
      a text that goes on. */
  lemma {:induction false} FitIsLongest(text: string, budget: nat)
    ensures |Encode(text[..Fit(text, budget)])| <= budget
    ensures forall k :: Fit(text, budget) < k <= |text| ==> |Encode(text[..k])| > budget
    ensures Fit(text, budget) < |text| ==> budget - |Encode(text[..Fit(text, budget)])| <= 3
  {
    if text == "" {
    } else {
      if |EncodeChar(text[0])| <= budget {
        FitIsLongest(text[1..], budget - |EncodeChar(text[0])|);
      }
      forall k | 0 < k <= |text|
        ensures |Encode(text[..k])| == |EncodeChar(text[0])| + |Encode(text[1..][..k - 1])|
      {
        assert text[..k][1..] == text[1..][..k - 1];
      }
    }
  }

  lemma EncodeGrows(text: string, j: nat, k: nat)
    requires j <= |text| && k <= |text|
    ensures j <= k ==> |Encode(text[..j])| <= |Encode(text[..k])|
  {
    if j <= k {
      EncodeConcat(text[..j], text[j..k]);
      assert text[..j] + text[j..k] == text[..k];
    }
  }

  /** Between the longest fitting prefix and the budget nothing decodes. */
  lemma OnlyPrefixDecodes(text: string, budget: nat, m: nat)
    requires m <= |Encode(text)| && |Encode(text[..Fit(text, budget)])| <= m <= budget
    ensures Decode(Encode(text)[..m]).Some? <==> m == |Encode(text[..Fit(text, budget)])|
    ensures m == |Encode(text[..Fit(text, budget)])| ==> Decode(Encode(text)[..m]) == Some(text[..Fit(text, budget)])
  {
    var k := Fit(text, budget);
    FitIsLongest(text, budget);
    EncodeConcat(text[..k], text[k..]);
    assert text[..k] + text[k..] == text;
    DecodeEncode(text[..k]);
    var cut := Encode(text)[..m];
    EncodeDecode(cut);
    if Decode(cut).Some? {
      var s := Decode(cut).value;
      PrefixOfEncoding(s, text);
      assert s == text[..|s|];
      EncodeGrows(text, |s|, k);
    }
  }

  /** One retry loop: shorten until it decodes. */
  method DecodeShortened(text: string, keep: nat) returns (prefix: string, dropped: nat)
    requires keep < |Encode(text)|
    ensures prefix == text[..Fit(text, keep)]
    ensures dropped <= 3
  {
    var encoded := Encode(text);
    var truncated := encoded[..keep];
    FitIsLongest(text, keep);
    ghost var target := |Encode(text[..Fit(text, keep)])|;
    assert text[..|text|] == text;
    dropped := 0;
    while Decode(truncated).None?
      invariant target <= |truncated| <= keep && truncated == encoded[..|truncated|]
      invariant dropped == keep - |truncated|
      decreases |truncated|
    {
      OnlyPrefixDecodes(text, keep, |truncated|);
      truncated := truncated[..|truncated| - 1];
      dropped := dropped + 1;
    }
    OnlyPrefixDecodes(text, keep, |truncated|);
    prefix := Decode(truncated).value;
  }

  /** `_truncate_utf8`: the whole text if it fits; otherwise its longest fitting prefix, followed by the
      marker when the budget has room for more than the marker. Never more than `maxBytes`. */
  method Truncate(text: string, maxBytes: nat) returns (result: string)
    ensures |Encode(text)| <= maxBytes ==> result == text
    ensures |Encode(text)| > maxBytes ==>
      var marker := |Encode(TRUNCATED_MARKER)|;
      result == if maxBytes <= marker then text[..Fit(text, maxBytes)]
                else text[..Fit(text, maxBytes - marker)] + TRUNCATED_MARKER
    ensures |Encode(result)| <= maxBytes
  {
    result := TruncateWith(text, maxBytes, TRUNCATED_MARKER);
  }

  method TruncateWith(text: string, maxBytes: nat, marker: string) returns (result: string)
    ensures |Encode(text)| <= maxBytes ==> result == text
    ensures |Encode(text)| > maxBytes ==>
      result == if maxBytes <= |Encode(marker)| then text[..Fit(text, maxBytes)]
                else text[..Fit(text, maxBytes - |Encode(marker)|)] + marker
    ensures |Encode(result)| <= maxBytes
  {
    if |Encode(text)| <= maxBytes { return text; }
    var markerBytes := Encode(marker);
    if maxBytes <= |markerBytes| {
      var prefix, _ := DecodeShortened(text, maxBytes);
      FitIsLongest(text, maxBytes);
      return prefix;
    }
    var prefix, _ := DecodeShortened(text, maxBytes - |markerBytes|);
    FitIsLongest(text, maxBytes - |markerBytes|);
    EncodeConcat(prefix, marker);
    return prefix + marker;
  }
}
