/** The few JavaScript string built-ins the components rely on:
    `String.prototype.trim`, `toLowerCase`, `startsWith`, `split(" ")`,
    `Number.parseInt` and the decimal rendering of a small number.
    Strings are `seq<char>`: one element per Dafny character, where JavaScript
    counts UTF-16 code units (the two agree inside the Basic Multilingual
    Plane). */
module JsString {
  import opened Optional

  /** The ECMAScript WhiteSpace and LineTerminator code points: the set that
      `trim` removes and that `parseInt` skips before a number. */
  predicate IsJsSpace(c: char) {
    || c == '\U{0009}' || c == '\U{000A}' || c == '\U{000B}' || c == '\U{000C}'
    || c == '\U{000D}' || c == ' ' || c == '\U{00A0}' || c == '\U{1680}'
    || ('\U{2000}' <= c <= '\U{200A}')
    || c == '\U{2028}' || c == '\U{2029}' || c == '\U{202F}' || c == '\U{205F}'
    || c == '\U{3000}' || c == '\U{FEFF}'
  }

  /** Every character of `s` is white space (the empty string counts). */
  predicate AllSpace(s: string) {
    forall i :: 0 <= i < |s| ==> IsJsSpace(s[i])
  }

  /** `s` with its maximal white-space prefix removed. */
  function TrimStart(s: string): string
  {
    if s != [] && IsJsSpace(s[0]) then TrimStart(s[1..]) else s
  }

  /** `s` with its maximal white-space suffix removed. */
  function TrimEnd(s: string): string
  {
    if s != [] && IsJsSpace(s[|s| - 1]) then TrimEnd(s[..|s| - 1]) else s
  }

  /** `String.prototype.trim`. */
  function Trim(s: string): string
  {
    TrimEnd(TrimStart(s))
  }

  /** `TrimStart` removes exactly the maximal white-space prefix. */
  lemma {:induction false} TrimStartSpec(s: string)
    ensures |TrimStart(s)| <= |s| && TrimStart(s) == s[|s| - |TrimStart(s)|..]
    ensures AllSpace(s[..|s| - |TrimStart(s)|])
    ensures TrimStart(s) == [] || !IsJsSpace(TrimStart(s)[0])
  {
    if s != [] && IsJsSpace(s[0]) {
      TrimStartSpec(s[1..]);
      var n := |s| - |TrimStart(s)|;
      assert s[1..][..n - 1] == s[1..n];
      assert forall i :: 1 <= i < n ==> s[i] == s[1..][..n - 1][i - 1];
    } else {
      assert s[..0] == [];
    }
  }

  /** `TrimEnd` removes exactly the maximal white-space suffix. */
  lemma {:induction false} TrimEndSpec(s: string)
    ensures |TrimEnd(s)| <= |s| && TrimEnd(s) == s[..|TrimEnd(s)|]
    ensures AllSpace(s[|TrimEnd(s)|..])
    ensures TrimEnd(s) == [] || !IsJsSpace(TrimEnd(s)[|TrimEnd(s)| - 1])
  {
    if s != [] && IsJsSpace(s[|s| - 1]) {
      var p := s[..|s| - 1];
      TrimEndSpec(p);
      var m := |TrimEnd(s)|;
      assert s[..m] == p[..m];
      assert forall i :: m <= i < |s| - 1 ==> s[i] == p[m..][i - m];
    } else {
      assert s[|s|..] == [];
    }
  }

  /** The trimmed string keeps a middle stretch of the input and drops only
      white space around it; it starts and ends with a non-space character. */
  lemma TrimSpec(s: string)
    ensures |Trim(s)| <= |s|
    ensures exists i :: 0 <= i <= |s| - |Trim(s)| && Trim(s) == s[i..i + |Trim(s)|]
              && AllSpace(s[..i]) && AllSpace(s[i + |Trim(s)|..])
    ensures Trim(s) == [] || (!IsJsSpace(Trim(s)[0]) && !IsJsSpace(Trim(s)[|Trim(s)| - 1]))
  {
    var t := TrimStart(s);
    TrimStartSpec(s);
    TrimEndSpec(t);
    var r := Trim(s);
    var i := |s| - |t|;
    assert r == s[i..i + |r|];
    assert s[i + |r|..] == t[|r|..];
    if r != [] {
      assert r[0] == t[0];
    }
  }

  /** The trimmed string is empty exactly when the input is all white space. */
  lemma TrimEmptyIffBlank(s: string)
    ensures Trim(s) == [] <==> AllSpace(s)
  {
    var t := TrimStart(s);
    TrimStartSpec(s);
    TrimEndSpec(t);
    if Trim(s) == [] {
      assert s[..|s|] == s;
    }
  }

  /** Trimming twice is trimming once. */
  lemma TrimIdempotent(s: string)
    ensures Trim(Trim(s)) == Trim(s)
  {
    TrimSpec(s);
    var r := Trim(s);
    if r != [] {
      TrimKeepsTrimmed(r);
    }
  }

  /** Trimming leaves a string that has non-space characters at both ends unchanged. */
  lemma TrimKeepsTrimmed(s: string)
    requires s != [] && !IsJsSpace(s[0]) && !IsJsSpace(s[|s| - 1])
    ensures Trim(s) == s
  {
    assert TrimStart(s) == s;
  }

  /** `toLowerCase` on the ASCII letters; every other character is kept. */
  function LowerChar(c: char): (d: char)
  {
    if 'A' <= c <= 'Z' then (c as int + 32) as char else c
  }

  /** `String.prototype.toLowerCase`, character by character. */
  function Lower(s: string): string
  {
    if s == [] then [] else [LowerChar(s[0])] + Lower(s[1..])
  }

  /** Lower-casing keeps the length and maps every character on its own. */
  lemma {:induction false} LowerSpec(s: string)
    ensures |Lower(s)| == |s|
    ensures forall i :: 0 <= i < |s| ==> Lower(s)[i] == LowerChar(s[i])
  {
    if s != [] {
      LowerSpec(s[1..]);
    }
  }

  /** A string without ASCII capitals is its own lower-case form. */
  lemma LowerNoUpper(s: string)
    requires forall i :: 0 <= i < |s| ==> !('A' <= s[i] <= 'Z')
    ensures Lower(s) == s
  {
    LowerSpec(s);
  }

  /** `String.prototype.startsWith`. */
  predicate StartsWith(s: string, prefix: string) {
    |prefix| <= |s| && s[..|prefix|] == prefix
  }

  /** `s.split(" ")`: the pieces between single spaces, always at least one. */
  function SplitSpace(s: string): (parts: seq<string>)
    ensures |parts| >= 1
  {
    if s == [] then [""]
    else
      var rest := SplitSpace(s[1..]);
      if s[0] == ' ' then [""] + rest
      else [[s[0]] + rest[0]] + rest[1..]
  }

  /** `parts.join(" ")`. */
  function JoinSpace(parts: seq<string>): string
    requires |parts| >= 1
  {
    if |parts| == 1 then parts[0] else parts[0] + " " + JoinSpace(parts[1..])
  }

  /** No piece of a split holds a space. */
  lemma {:induction false} SplitPiecesHaveNoSpace(s: string)
    ensures forall k :: 0 <= k < |SplitSpace(s)| ==> ' ' !in SplitSpace(s)[k]
  {
    if s != [] {
      SplitPiecesHaveNoSpace(s[1..]);
    }
  }

  /** A string without spaces splits into itself alone. */
  lemma {:induction false} SplitNoSpace(s: string)
    requires ' ' !in s
    ensures SplitSpace(s) == [s]
  {
    if s != [] {
      assert ' ' !in s[1..] by {
        forall i | 0 <= i < |s| - 1 ensures s[1..][i] != ' ' { assert s[1..][i] == s[i + 1]; }
      }
      SplitNoSpace(s[1..]);
      assert [s[0]] + s[1..] == s;
    }
  }

  /** Joining the pieces back with single spaces gives the original string. */
  lemma {:induction false} JoinSplit(s: string)
    ensures JoinSpace(SplitSpace(s)) == s
  {
    if s != [] {
      var rest := SplitSpace(s[1..]);
      JoinSplit(s[1..]);
      if s[0] == ' ' {
        assert SplitSpace(s) == [""] + rest;
        assert JoinSpace(SplitSpace(s)) == "" + " " + JoinSpace(rest);
      } else {
        var parts := SplitSpace(s);
        assert parts == [[s[0]] + rest[0]] + rest[1..];
        if |rest| == 1 {
          assert JoinSpace(parts) == [s[0]] + rest[0];
        } else {
          assert parts[1..] == rest[1..];
          assert JoinSpace(rest) == rest[0] + " " + JoinSpace(rest[1..]);
          assert JoinSpace(parts) == [s[0]] + rest[0] + " " + JoinSpace(rest[1..]);
        }
        assert [s[0]] + s[1..] == s;
      }
    }
  }

  /** The field extracted by `split(" ")[k]` of a string that starts with a
      space-free word and a space is field `k - 1` of what follows. */
  lemma SplitAfterWord(word: string, rest: string)
    requires ' ' !in word
    ensures SplitSpace(word + " " + rest) == [word] + SplitSpace(rest)
  {
    if word == [] {
      assert word + " " + rest == [' '] + rest;
    } else {
      assert (word + " " + rest)[1..] == word[1..] + " " + rest;
      SplitAfterWord(word[1..], rest);
      assert [word[0]] + word[1..] == word;
    }
  }

  /** The digit value of a character in bases up to 36, or 36 when it is no digit. */
  function DigitOf(c: char): (d: nat)
    ensures d <= 36
  {
    if '0' <= c <= '9' then c as int - '0' as int
    else if 'a' <= c <= 'z' then c as int - 'a' as int + 10
    else if 'A' <= c <= 'Z' then c as int - 'A' as int + 10
    else 36
  }

  predicate IsDigit(c: char, radix: nat) {
    DigitOf(c) < radix
  }

  /** The maximal prefix of `s` made of digits in `radix`. */
  function DigitPrefix(s: string, radix: nat): (z: string)
    ensures |z| <= |s| && z == s[..|z|]
    ensures forall i :: 0 <= i < |z| ==> IsDigit(z[i], radix)
    ensures |z| < |s| ==> !IsDigit(s[|z|], radix)
  {
    if s != [] && IsDigit(s[0], radix) then [s[0]] + DigitPrefix(s[1..], radix) else []
  }

  /** The number a string of digits denotes, most significant first. */
  function DigitsValue(z: string, radix: nat): nat
  {
    if z == [] then 0
    else DigitsValue(z[..|z| - 1], radix) * radix + DigitOf(z[|z| - 1])
  }

  /** `Number.parseInt` with no radix: leading white space is skipped, then an
      optional sign, then a `0x`/`0X` prefix selects base 16 (else base 10),
      then the maximal digit prefix is read; no digit at all gives `NaN`,
      modelled as `None`. */
  function ParseInt(s: string): Option<int>
  {
    var t := TrimStart(s);
    if t != [] && t[0] == '-' then
      match ParseUnsigned(t[1..])
      case None => None
      case Some(m) => Some(-m)
    else if t != [] && t[0] == '+' then ParseUnsigned(t[1..])
    else ParseUnsigned(t)
  }

  predicate HasHexPrefix(u: string) {
    |u| >= 2 && u[0] == '0' && (u[1] == 'x' || u[1] == 'X')
  }

  /** The unsigned part of `parseInt`, after white space and sign. */
  function ParseUnsigned(u: string): Option<int>
  {
    if HasHexPrefix(u) then ParseDigits(u[2..], 16) else ParseDigits(u, 10)
  }

  /** The value of the maximal digit prefix, or `None` when it is empty. */
  function ParseDigits(v: string, radix: nat): (r: Option<int>)
    ensures r.None? <==> (v == [] || !IsDigit(v[0], radix))
  {
    var z := DigitPrefix(v, radix);
    if z == [] then None else Some(DigitsValue(z, radix))
  }

  function DecimalDigit(d: nat): (c: char)
    requires d < 10
    ensures DigitOf(c) == d
  {
    ('0' as int + d) as char
  }

  /** The decimal rendering of a natural number, as `${n}` gives it. */
  function DecimalString(n: nat): (s: string)
    ensures s != []
    ensures forall i :: 0 <= i < |s| ==> IsDigit(s[i], 10)
  {
    if n < 10 then [DecimalDigit(n)] else DecimalString(n / 10) + [DecimalDigit(n % 10)]
  }

  lemma {:induction false} DecimalValue(n: nat)
    ensures DigitsValue(DecimalString(n), 10) == n
  {
    var s := DecimalString(n);
    if n < 10 {
      assert s[..0] == [];
    } else {
      DecimalValue(n / 10);
      assert s[..|s| - 1] == DecimalString(n / 10);
    }
  }

  /** A string of decimal digits is its own maximal digit prefix. */
  lemma {:induction false} DigitPrefixAll(s: string, radix: nat)
    requires forall i :: 0 <= i < |s| ==> IsDigit(s[i], radix)
    ensures DigitPrefix(s, radix) == s
  {
    if s != [] {
      DigitPrefixAll(s[1..], radix);
    }
  }

  /** `parseInt` reads back what decimal rendering writes, and a trailing
      non-digit tail is ignored (unless it turns a leading `0` into the hex
      prefix `0x`). */
  lemma ParseDecimal(n: nat, tail: string)
    requires tail == [] || (!IsDigit(tail[0], 10) && (n == 0 ==> tail[0] != 'x' && tail[0] != 'X'))
    ensures ParseInt(DecimalString(n) + tail) == Some(n)
  {
    var s := DecimalString(n);
    var t := s + tail;
    assert t[0] == s[0];
    assert TrimStart(t) == t by { assert !IsJsSpace(t[0]); }
    assert !HasHexPrefix(t) by {
      if |t| >= 2 {
        if |s| >= 2 {
          assert t[1] == s[1];
        } else {
          assert t[1] == tail[0];
          if n != 0 { assert s == [DecimalDigit(n)]; }
        }
      }
    }
    DigitPrefixTail(s, tail);
    DecimalValue(n);
  }

  lemma {:induction false} DigitPrefixTail(s: string, tail: string)
    requires forall i :: 0 <= i < |s| ==> IsDigit(s[i], 10)
    requires tail == [] || !IsDigit(tail[0], 10)
    ensures DigitPrefix(s + tail, 10) == s
  {
    if s == [] {
      assert s + tail == tail;
    } else {
      assert (s + tail)[1..] == s[1..] + tail;
      DigitPrefixTail(s[1..], tail);
    }
  }

  /** A minus sign before a decimal rendering gives the negated number. */
  lemma ParseNegative(n: nat)
    ensures ParseInt("-" + DecimalString(n)) == Some(-(n as int))
  {
    var d := DecimalString(n);
    var t := "-" + d;
    assert t[0] == '-' && t[1..] == d;
    assert TrimStart(t) == t;
    assert !HasHexPrefix(d) by {
      if |d| >= 2 { assert IsDigit(d[1], 10); }
    }
    DigitPrefixAll(d, 10);
    DecimalValue(n);
  }

  /** After a `0x` prefix the digits are read in base 16. */
  lemma ParseHex(z: string)
    requires z != [] && forall i :: 0 <= i < |z| ==> IsDigit(z[i], 16)
    ensures ParseInt("0x" + z) == Some(DigitsValue(z, 16))
  {
    var t := "0x" + z;
    assert t[0] == '0' && t[1] == 'x';
    assert TrimStart(t) == t;
    assert HasHexPrefix(t);
    assert t[2..] == z;
    DigitPrefixAll(z, 16);
  }

  /** A string with no digit after its optional sign is `NaN`. */
  lemma ParseNoDigit(s: string)
    requires s != [] && !IsJsSpace(s[0]) && s[0] != '-' && s[0] != '+' && !IsDigit(s[0], 10)
    ensures ParseInt(s) == None
  {
  }
}
