/**
 * The two pieces of Rust's string library that the command layer leans on:
 * `str::split_ascii_whitespace` (tokenising a chat message) and
 * `u32::from_str` (reading the duration argument of `/start`).
 */
module RustStr {
  import opened Wrappers

  /** `u32::MAX`. */
  const MaxU32: nat := 4294967295

  /** `u8::is_ascii_whitespace`: space, tab, line feed, form feed and carriage return (not vertical tab). */
  predicate IsAsciiWhitespace(c: char) {
    c == ' ' || c == '\t' || c == '\n' || c == '\U{000C}' || c == '\r'
  }

  predicate NoWhitespace(s: string) {
    forall i :: 0 <= i < |s| ==> !IsAsciiWhitespace(s[i])
  }

  /** Length of the longest prefix of `s` holding no ASCII whitespace. */
  function LeadingTokenLength(s: string): (n: nat)
    ensures n <= |s|
    ensures NoWhitespace(s[..n])
    ensures n < |s| ==> IsAsciiWhitespace(s[n])
  {
    if s == [] || IsAsciiWhitespace(s[0]) then 0 else 1 + LeadingTokenLength(s[1..])
  }

  /** The items `s.split_ascii_whitespace()` yields, in order: maximal runs of non-whitespace characters. */
  function Tokens(s: string): (ts: seq<string>)
    decreases |s|
    ensures forall k :: 0 <= k < |ts| ==> |ts[k]| > 0 && NoWhitespace(ts[k])
  {
    if s == [] then []
    else if IsAsciiWhitespace(s[0]) then Tokens(s[1..])
    else
      var n := LeadingTokenLength(s);
      [s[..n]] + Tokens(s[n..])
  }

  /** `s.split_ascii_whitespace().next()`. */
  function FirstToken(s: string): (t: Option<string>)
    ensures t.Some? ==> |t.value| > 0 && NoWhitespace(t.value)
  {
    var ts := Tokens(s);
    if |ts| == 0 then None else Some(ts[0])
  }

  function Concat(ts: seq<string>): string {
    if ts == [] then [] else ts[0] + Concat(ts[1..])
  }

  /** `s` with every ASCII whitespace character dropped. */
  function RemoveWhitespace(s: string): string {
    if s == [] then []
    else if IsAsciiWhitespace(s[0]) then RemoveWhitespace(s[1..])
    else [s[0]] + RemoveWhitespace(s[1..])
  }

  lemma {:induction false} RemoveWhitespaceAppend(a: string, b: string)
    ensures RemoveWhitespace(a + b) == RemoveWhitespace(a) + RemoveWhitespace(b)
  {
    if a != [] {
      assert (a + b)[1..] == a[1..] + b;
      RemoveWhitespaceAppend(a[1..], b);
    } else {
      assert a + b == b;
    }
  }

  lemma {:induction false} RemoveWhitespaceOfToken(t: string)
    requires NoWhitespace(t)
    ensures RemoveWhitespace(t) == t
  {
    if t != [] {
      assert NoWhitespace(t[1..]) by {
        forall i | 0 <= i < |t[1..]| ensures !IsAsciiWhitespace(t[1..][i]) {
          assert t[1..][i] == t[i + 1];
        }
      }
      RemoveWhitespaceOfToken(t[1..]);
    }
  }

  /** Tokenising loses nothing but whitespace: the tokens, glued together, are the message minus its whitespace. */
  lemma {:induction false} TokensKeepEveryOtherChar(s: string)
    ensures Concat(Tokens(s)) == RemoveWhitespace(s)
    decreases |s|
  {
    if s == [] {
    } else if IsAsciiWhitespace(s[0]) {
      TokensKeepEveryOtherChar(s[1..]);
    } else {
      var n := LeadingTokenLength(s);
      assert [s[..n]] + Tokens(s[n..]) == Tokens(s);
      assert ([s[..n]] + Tokens(s[n..]))[1..] == Tokens(s[n..]);
      TokensKeepEveryOtherChar(s[n..]);
      RemoveWhitespaceOfToken(s[..n]);
      RemoveWhitespaceAppend(s[..n], s[n..]);
      assert s[..n] + s[n..] == s;
    }
  }

  /** A first token exists exactly when the message holds a non-whitespace character. */
  lemma {:induction false} FirstTokenExists(s: string)
    ensures FirstToken(s).Some? <==> exists i :: 0 <= i < |s| && !IsAsciiWhitespace(s[i])
    decreases |s|
  {
    if s == [] {
    } else if IsAsciiWhitespace(s[0]) {
      FirstTokenExists(s[1..]);
      if exists i :: 0 <= i < |s| && !IsAsciiWhitespace(s[i]) {
        var i :| 0 <= i < |s| && !IsAsciiWhitespace(s[i]);
        assert s[1..][i - 1] == s[i];
      }
      if exists i :: 0 <= i < |s[1..]| && !IsAsciiWhitespace(s[1..][i]) {
        var i :| 0 <= i < |s[1..]| && !IsAsciiWhitespace(s[1..][i]);
        assert s[i + 1] == s[1..][i];
      }
    } else {
      assert !IsAsciiWhitespace(s[0]);
    }
  }

  /** When the message does not open with whitespace, its first token is its longest whitespace-free prefix. */
  lemma FirstTokenAtStart(s: string)
    requires |s| > 0 && !IsAsciiWhitespace(s[0])
    ensures FirstToken(s) == Some(s[..LeadingTokenLength(s)])
    ensures LeadingTokenLength(s) >= 1
  {
  }

  lemma {:induction false} LeadingTokenOfJoin(t: string, u: string)
    requires NoWhitespace(t)
    requires u == [] || IsAsciiWhitespace(u[0])
    ensures LeadingTokenLength(t + u) == |t|
  {
    if t != [] {
      assert (t + u)[1..] == t[1..] + u;
      assert NoWhitespace(t[1..]) by {
        forall i | 0 <= i < |t[1..]| ensures !IsAsciiWhitespace(t[1..][i]) {
          assert t[1..][i] == t[i + 1];
        }
      }
      LeadingTokenOfJoin(t[1..], u);
    } else {
      assert t + u == u;
    }
  }

  predicate AllWhitespace(w: string) {
    forall i :: 0 <= i < |w| ==> IsAsciiWhitespace(w[i])
  }

  /** A run of whitespace in front of the rest yields no token of its own. */
  lemma {:induction false} TokensSkipWhitespace(w: string, rest: string)
    requires AllWhitespace(w)
    ensures Tokens(w + rest) == Tokens(rest)
    decreases |w|
  {
    if w != [] {
      assert (w + rest)[0] == w[0];
      assert (w + rest)[1..] == w[1..] + rest;
      assert AllWhitespace(w[1..]) by {
        forall i | 0 <= i < |w[1..]| ensures IsAsciiWhitespace(w[1..][i]) {
          assert w[1..][i] == w[i + 1];
        }
      }
      TokensSkipWhitespace(w[1..], rest);
    } else {
      assert w + rest == rest;
    }
  }

  /**
   * A whitespace-free word, a non-empty run of whitespace and anything: that
   * word is the first token and the rest is tokenised on its own. With
   * `TokensSkipWhitespace` and `TokensOfWord` this fixes `Tokens` on every
   * input: tokens are exactly the maximal whitespace-free runs.
   */
  lemma TokensOfSeparated(t: string, w: string, rest: string)
    requires |t| > 0 && NoWhitespace(t)
    requires |w| > 0 && AllWhitespace(w)
    ensures Tokens(t + w + rest) == [t] + Tokens(rest)
  {
    var s := t + w + rest;
    LeadingTokenOfJoin(t, w + rest);
    assert s == t + (w + rest);
    assert s[..|t|] == t;
    assert s[|t|..] == w + rest;
    TokensSkipWhitespace(w, rest);
  }

  /** A lone whitespace-free word is a single token. */
  lemma TokensOfWord(t: string)
    requires |t| > 0 && NoWhitespace(t)
    ensures Tokens(t) == [t]
  {
    LeadingTokenOfJoin(t, []);
    assert t + [] == t;
    assert t[..|t|] == t;
    assert t[|t|..] == [];
  }

  // ---- u32::from_str ----

  predicate IsDigit(c: char) {
    '0' <= c <= '9'
  }

  predicate AllDigits(s: string) {
    forall i :: 0 <= i < |s| ==> IsDigit(s[i])
  }

  function DigitValue(c: char): nat
    requires IsDigit(c)
  {
    (c as int - '0' as int) as nat
  }

  function DigitChar(d: nat): (c: char)
    requires d < 10
    ensures IsDigit(c) && DigitValue(c) == d
  {
    ('0' as int + d) as char
  }

  /** The number a string of decimal digits denotes (most significant first). */
  function DigitsValue(s: string): nat
    requires AllDigits(s)
  {
    if s == [] then 0 else DigitsValue(s[..|s| - 1]) * 10 + DigitValue(s[|s| - 1])
  }

  /** The canonical decimal rendering of `n`, as `format!("{}", n)` writes it. */
  function Decimal(n: nat): (s: string)
    ensures |s| > 0 && AllDigits(s)
  {
    if n < 10 then [DigitChar(n)] else Decimal(n / 10) + [DigitChar(n % 10)]
  }

  /**
   * `t.parse::<u32>()`: an optional single leading `+`, then at least one
   * decimal digit, the value at most `u32::MAX`. A leading `-`, an empty
   * string, a lone `+`, any other character and overflow are all errors.
   */
  function ParseU32(t: string): (r: Option<nat>)
    ensures r.Some? ==> r.value <= MaxU32
  {
    var digits := if |t| > 0 && t[0] == '+' then t[1..] else t;
    if |digits| == 0 || !AllDigits(digits) then None
    else if DigitsValue(digits) <= MaxU32 then Some(DigitsValue(digits))
    else None
  }

  lemma {:induction false} DigitsValueOfDecimal(n: nat)
    ensures DigitsValue(Decimal(n)) == n
  {
    var s := Decimal(n);
    if n >= 10 {
      DigitsValueOfDecimal(n / 10);
      assert s[..|s| - 1] == Decimal(n / 10);
    }
  }

  lemma {:induction false} DigitsValueLeadingZero(s: string)
    requires AllDigits(s)
    ensures AllDigits("0" + s) && DigitsValue("0" + s) == DigitsValue(s)
  {
    var z := "0" + s;
    assert AllDigits(z) by {
      forall i | 0 <= i < |z| ensures IsDigit(z[i]) {
        if i > 0 { assert z[i] == s[i - 1]; }
      }
    }
    if s != [] {
      var p := s[..|s| - 1];
      assert z[..|z| - 1] == "0" + p;
      DigitsValueLeadingZero(p);
    }
  }

  /** Every u32, written in decimal (with or without a leading `+` or leading zero), parses back to itself. */
  lemma ParseU32OfDecimal(n: nat)
    requires n <= MaxU32
    ensures ParseU32(Decimal(n)) == Some(n)
    ensures ParseU32("+" + Decimal(n)) == Some(n)
    ensures ParseU32("0" + Decimal(n)) == Some(n)
  {
    var d := Decimal(n);
    DigitsValueOfDecimal(n);
    assert d[0] != '+';
    assert ("+" + d)[1..] == d;
    DigitsValueLeadingZero(d);
  }

  /** A decimal number beyond `u32::MAX` is an overflow error. */
  lemma ParseU32Overflow(n: nat)
    requires n > MaxU32
    ensures ParseU32(Decimal(n)) == None
  {
    DigitsValueOfDecimal(n);
    assert Decimal(n)[0] != '+';
  }

  /**
   * Any character other than a decimal digit, apart from one leading `+`,
   * makes the parse fail (`"abc"`, `"5s"`, `"-5"`, `"1.5"`); so does a lone `+`.
   */
  lemma ParseU32RejectsNonDigit(t: string, i: nat)
    requires i < |t| && !IsDigit(t[i])
    requires i > 0 || t[0] != '+'
    ensures ParseU32(t) == None
    ensures ParseU32("+") == None
  {
    if t[0] == '+' {
      assert t[1..][i - 1] == t[i];
    }
    assert "+"[1..] == [];
  }

  /** An unsigned parse rejects every leading `-`, even `-0`. */
  lemma ParseU32RejectsMinus(t: string)
    ensures ParseU32("-" + t) == None
  {
    assert ("-" + t)[0] == '-';
    assert !IsDigit('-');
  }
}
