/** What a scalar of the front matter is read as (pycodex/core/skills/parser.py). */
module SkillScalars {
  import opened SkillYaml

  /** `word` in any mixture of ASCII letter case. */
  predicate IsWord(text: string, word: string) {
    |text| == |word| && forall i :: 0 <= i < |word| ==> text[i] == word[i] || IsCapital(text[i], word[i])
  }

  predicate IsCapital(upper: char, lower: char) { 'A' <= upper <= 'Z' && lower as int == upper as int + 32 }

  lemma LoweredIsWord(text: string, word: string)
    requires forall i :: 0 <= i < |word| ==> 'a' <= word[i] <= 'z'
    ensures Lowered(text) == word <==> IsWord(text, word)
  {
    assert |Lowered(text)| == |text|;
    forall i | 0 <= i < |text|
      ensures Lowered(text)[i] == if 'A' <= text[i] <= 'Z' then 'a' + (text[i] - 'A') else text[i]
    {}
  }

  predicate IsQuoted(text: string, quote: char) { |text| >= 2 && text[0] == quote == text[|text| - 1] }

  lemma TildeIsItself(text: string)
    ensures Lowered(text) == "~" <==> text == "~"
  {
    assert |Lowered(text)| == |text|;
    assert text != "" ==> Lowered(text)[0] == if 'A' <= text[0] <= 'Z' then 'a' + (text[0] - 'A') else text[0];
  }

  /** No number is a word, and neither is quoted. */
  lemma NumbersStart(text: string)
    requires IsInt(text) || IsFloat(text)
    ensures text != "" && (Digit(text[0]) || text[0] in "-.")
  {
    var u := Unsigned(text);
    if u == text && IndexOf(u, '.') != 0 {
      assert IsFloat(text) ==> u[0] in u[..IndexOf(u, '.')];
      assert u[0] in u;
    }
  }

  lemma WordsStart(text: string, word: string)
    requires word in {"true", "false", "null"} && Lowered(text) == word
    ensures text != "" && ('A' <= text[0] <= 'Z' || 'a' <= text[0] <= 'z')
  {
    assert |Lowered(text)| == |text|;
    assert Lowered(text)[0] == word[0];
  }

  lemma {:induction false} FirstIndex(s: string, c: char, i: nat)
    requires i < |s| && s[i] == c
    ensures IndexOf(s, c) <= i
  {
    if s[0] != c {
      FirstIndex(s[1..], c, i - 1);
    }
  }

  /** A float is digits around one dot, at least one of them, behind an optional minus. */
  lemma FloatsAre(text: string)
    ensures var u := if text != "" && text[0] == '-' then text[1..] else text;
      IsFloat(text) <==>
      |u| >= 2 && exists dot :: 0 <= dot < |u| && u[dot] == '.' && forall i :: 0 <= i < |u| && i != dot ==> Digit(u[i])
  {
    var u := Unsigned(text);
    var first := IndexOf(u, '.');
    if IsFloat(text) {
      forall i | 0 <= i < |u| && i != first
        ensures Digit(u[i])
      {
        assert if i < first then u[i] in u[..first] else u[i] in u[first + 1..];
      }
    }
    if dot :| 0 <= dot < |u| && u[dot] == '.' && forall i :: 0 <= i < |u| && i != dot ==> Digit(u[i]) {
      FirstIndex(u, '.', dot);
      assert first == dot;
    }
  }

  /** Which texts are read as what. */
  lemma ScalarTable(text: string)
    ensures var v := ParseScalar(text);
      && (v == Bool(true) <==> IsWord(text, "true"))
      && (v == Bool(false) <==> IsWord(text, "false"))
      && (v == Null <==> IsWord(text, "null") || text == "~")
      && (v.Int? <==> IsInt(text))
      && (v.Float? <==> IsFloat(text) && !IsInt(text))
      && (v.Float? ==> v.lexeme == text)
      && (IsQuoted(text, '\'') || IsQuoted(text, '"') ==> v == Str(text[1..|text| - 1]))
      && (v.Str? && !IsQuoted(text, '\'') && !IsQuoted(text, '"') ==> v == Str(text))
      && IsScalar(v)
  {
    LoweredIsWord(text, "true");
    LoweredIsWord(text, "false");
    LoweredIsWord(text, "null");
    TildeIsItself(text);
    if IsInt(text) || IsFloat(text) { NumbersStart(text); }
    if Lowered(text) in {"true", "false", "null"} { WordsStart(text, Lowered(text)); }
  }

  lemma NumberReads(text: string)
    requires IsInt(text)
    ensures ParseScalar(text) == Int(IntOf(text))
  {
    ScalarTable(text);
  }

  lemma LongerNumber(text: string, digit: char)
    requires IsInt(text) && Digit(digit)
    ensures IsInt(text + [digit])
    ensures IntOf(text + [digit]) ==
      10 * IntOf(text) + (if text[0] == '-' then -1 else 1) * (digit as int - '0' as int)
  {
    var u := Unsigned(text);
    assert Unsigned(text + [digit]) == u + [digit];
    assert (u + [digit])[..|u|] == u;
  }

  lemma OneDigit(digit: char)
    requires Digit(digit)
    ensures ParseScalar([digit]) == Int(digit as int - '0' as int)
    ensures ParseScalar(['-', digit]) == Int('0' as int - digit as int)
  {
    var positive, negative := [digit], ['-', digit];
    assert Unsigned(positive) == positive && Unsigned(negative) == positive;
    assert positive[..0] == "" && NatOf("") == 0;
    assert NatOf(positive) == (digit - '0') as nat;
    NumberReads(positive);
    NumberReads(negative);
  }

  /** A number is read digit by digit, base ten, the sign first. */
  lemma IntegersRead(text: string, digit: char)
    requires Digit(digit)
    ensures ParseScalar([digit]) == Int(digit as int - '0' as int)
    ensures ParseScalar(['-', digit]) == Int('0' as int - digit as int)
    ensures ParseScalar(text).Int? ==>
      ParseScalar(text + [digit]) ==
      Int(10 * ParseScalar(text).n + (if text[0] == '-' then -1 else 1) * (digit as int - '0' as int))
  {
    OneDigit(digit);
    if ParseScalar(text).Int? {
      ScalarTable(text);
      NumberReads(text);
      LongerNumber(text, digit);
      NumberReads(text + [digit]);
    }
  }
}
