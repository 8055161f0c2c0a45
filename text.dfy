/**
 * The string and number primitives of JavaScript and Python that the CRM relies on:
 * `String(n)`, `parseInt(s, 10)`, `padStart`, `toLowerCase`/`toUpperCase` (ASCII letters),
 * `includes`/`in`, `join`, `split` and Python's `str.replace`.
 */
module Text {
  import opened Wrappers

  predicate IsDigit(c: char) { '0' <= c <= '9' }

  predicate AllDigits(s: string) { forall i :: 0 <= i < |s| ==> IsDigit(s[i]) }

  function DigitChar(d: nat): (c: char)
    requires d < 10
    ensures IsDigit(c) && c as int - '0' as int == d
  {
    ('0' as int + d) as char
  }

  /** `String(n)` for a non-negative integer: decimal digits, no sign, no leading zero. */
  function Digits(n: nat): (s: string)
    ensures 1 <= |s| && AllDigits(s)
    ensures s[0] == '0' ==> n == 0
    decreases n
  {
    if n < 10 then [DigitChar(n)] else Digits(n / 10) + [DigitChar(n % 10)]
  }

  /** The number a string of decimal digits denotes. */
  function DigitsValue(s: string): nat
    requires AllDigits(s)
  {
    if s == [] then 0 else 10 * DigitsValue(s[..|s| - 1]) + (s[|s| - 1] as int - '0' as int)
  }

  lemma {:induction false} DigitsValueOfDigits(n: nat)
    ensures DigitsValue(Digits(n)) == n
    decreases n
  {
    if n >= 10 {
      DigitsValueOfDigits(n / 10);
      var s := Digits(n);
      assert s[..|s| - 1] == Digits(n / 10);
    }
  }

  /** Distinct numbers have distinct decimal texts. */
  lemma DigitsInjective(m: nat, n: nat)
    requires Digits(m) == Digits(n)
    ensures m == n
  {
    DigitsValueOfDigits(m);
    DigitsValueOfDigits(n);
  }

  /** `String(i)` for any integer. */
  function IntToString(i: int): (s: string)
    ensures 1 <= |s| && (s[0] == '-' || IsDigit(s[0]))
    ensures AllDigits(s) <==> i >= 0
  {
    if i < 0 then "-" + Digits(-i) else Digits(i)
  }

  /** The whitespace `parseInt` skips before the number (its ASCII members). */
  predicate IsSpace(c: char) {
    c == ' ' || c == '\t' || c == '\n' || c == '\r' || c == '\U{B}' || c == '\U{C}'
  }

  function TrimStart(s: string): string {
    if s != [] && IsSpace(s[0]) then TrimStart(s[1..]) else s
  }

  /** Trimming leaves a suffix of the text that does not start with whitespace. */
  lemma {:induction false} TrimStartSuffix(s: string)
    ensures var r := TrimStart(s);
            (r == [] || !IsSpace(r[0])) && |r| <= |s| && r == s[|s| - |r|..]
  {
    if s != [] && IsSpace(s[0]) {
      TrimStartSuffix(s[1..]);
      var r := TrimStart(s[1..]);
      assert s[1..][|s[1..]| - |r|..] == s[|s| - |r|..];
    }
  }

  /** Text made only of whitespace trims to nothing. */
  lemma {:induction false} TrimStartBlank(s: string)
    requires forall k :: 0 <= k < |s| ==> IsSpace(s[k])
    ensures TrimStart(s) == []
  {
    if s != [] {
      assert forall k :: 0 <= k < |s[1..]| ==> s[1..][k] == s[k + 1];
      TrimStartBlank(s[1..]);
    }
  }

  /** Trimming a concatenation trims the first part, and reaches the second only when the first is all whitespace. */
  lemma {:induction false} TrimStartConcat(a: string, b: string)
    ensures TrimStart(a) != [] ==> TrimStart(a + b) == TrimStart(a) + b
    ensures TrimStart(a) == [] ==> TrimStart(a + b) == TrimStart(b)
  {
    if a == [] {
      assert a + b == b;
    } else {
      assert (a + b)[0] == a[0] && (a + b)[1..] == a[1..] + b;
      if IsSpace(a[0]) {
        TrimStartConcat(a[1..], b);
      }
    }
  }

  /** The longest prefix of s made of decimal digits. */
  function DigitPrefix(s: string): (r: string)
    ensures AllDigits(r)
  {
    if s != [] && IsDigit(s[0]) then [s[0]] + DigitPrefix(s[1..]) else []
  }

  /** The digit run is a prefix of the text, and stops at a non-digit or at the end. */
  lemma {:induction false} DigitPrefixShape(s: string)
    ensures var r := DigitPrefix(s);
            r <= s && (|r| < |s| ==> !IsDigit(s[|r|]))
  {
    if s != [] && IsDigit(s[0]) {
      DigitPrefixShape(s[1..]);
    }
  }

  lemma {:induction false} DigitPrefixOfDigits(s: string)
    requires AllDigits(s)
    ensures DigitPrefix(s) == s
  {
    if s != [] {
      DigitPrefixOfDigits(s[1..]);
    }
  }

  /**
   * `parseInt(s, 10)`: skip leading whitespace, read an optional sign, then the longest run
   * of digits; `None` stands for NaN (no digit after the sign).
   */
  function ParseInt(s: string): Option<int>
  {
    var t := TrimStart(s);
    var unsigned := if |t| > 0 && (t[0] == '-' || t[0] == '+') then t[1..] else t;
    var d := DigitPrefix(unsigned);
    if d == [] then None
    else if |t| > 0 && t[0] == '-' then Some(0 - DigitsValue(d) as int)
    else Some(DigitsValue(d))
  }

  /** A text without any digit (such as the empty string or "abc") parses as NaN. */
  lemma {:induction false} ParseIntNoDigits(s: string)
    requires forall i :: 0 <= i < |s| ==> !IsDigit(s[i])
    ensures ParseInt(s) == None
  {
    TrimStartSuffix(s);
    var t := TrimStart(s);
    var unsigned := if |t| > 0 && (t[0] == '-' || t[0] == '+') then t[1..] else t;
    assert unsigned == [] || !IsDigit(unsigned[0]) by {
      if unsigned != [] {
        assert unsigned == s[|s| - |unsigned|..];
        assert unsigned[0] == s[|s| - |unsigned|];
      }
    }
  }

  lemma DigitsUntrimmed(n: nat)
    ensures TrimStart(Digits(n)) == Digits(n)
    ensures TrimStart("-" + Digits(n)) == "-" + Digits(n)
  {
    var d := Digits(n);
    assert IsDigit(d[0]) && !IsSpace(d[0]);
    assert ("-" + d)[0] == '-' && !IsSpace('-');
  }

  /** `parseInt` of a non-empty run of digits is the number the digits denote. */
  lemma ParseIntOfAllDigits(s: string)
    requires s != [] && AllDigits(s)
    ensures ParseInt(s) == Some(DigitsValue(s))
  {
    assert IsDigit(s[0]) && !IsSpace(s[0]) && s[0] != '-' && s[0] != '+';
    assert TrimStart(s) == s;
    DigitPrefixOfDigits(s);
    var d := DigitPrefix(s);
    assert d == s && d != [];
  }

  /** `parseInt(String(n))` gives back n for a non-negative n. */
  lemma ParseIntOfDigits(n: nat)
    ensures ParseInt(Digits(n)) == Some(n)
  {
    ParseIntOfAllDigits(Digits(n));
    DigitsValueOfDigits(n);
  }

  /** `parseInt("-" + String(n))` gives back -n. */
  lemma ParseIntOfNegative(n: nat)
    ensures ParseInt("-" + Digits(n)) == Some(-(n as int))
  {
    var s := "-" + Digits(n);
    DigitsUntrimmed(n);
    assert s[0] == '-' && s[1..] == Digits(n);
    DigitPrefixOfDigits(Digits(n));
    DigitsValueOfDigits(n);
  }

  /** `parseInt(String(i))` gives back i: a counter stored as text reads back as itself. */
  lemma ParseIntOfIntToString(i: int)
    ensures ParseInt(IntToString(i)) == Some(i)
  {
    var s := IntToString(i);
    if i < 0 {
      var n: nat := -i;
      assert s == "-" + Digits(n);
      ParseIntOfNegative(n);
    } else {
      assert s == Digits(i);
      ParseIntOfDigits(i);
    }
  }

  /** `s.padStart(width, c)`: pads on the left with c up to width characters; never truncates. */
  function PadStart(s: string, width: int, c: char): (r: string)
    ensures |r| == if width > |s| then width else |s|
    ensures r[|r| - |s|..] == s
    ensures forall i :: 0 <= i < |r| - |s| ==> r[i] == c
  {
    if width <= |s| then s else seq(width - |s|, _ => c) + s
  }

  lemma {:induction false} ZerosValue(z: string)
    requires forall i :: 0 <= i < |z| ==> z[i] == '0'
    ensures AllDigits(z) && DigitsValue(z) == 0
  {
    if z != [] {
      ZerosValue(z[..|z| - 1]);
    }
  }

  lemma {:induction false} LeadingZerosValue(z: string, s: string)
    requires forall i :: 0 <= i < |z| ==> z[i] == '0'
    requires AllDigits(s)
    ensures AllDigits(z + s) && DigitsValue(z + s) == DigitsValue(s)
    decreases |s|
  {
    ZerosValue(z);
    if s != [] {
      LeadingZerosValue(z, s[..|s| - 1]);
      assert (z + s)[..|z + s| - 1] == z + s[..|s| - 1];
    } else {
      assert z + s == z;
    }
  }

  /** Zero-padding a number's digits keeps the number they denote. */
  lemma PaddedDigitsValue(n: nat, width: int)
    ensures AllDigits(PadStart(Digits(n), width, '0'))
    ensures DigitsValue(PadStart(Digits(n), width, '0')) == n
  {
    var s := Digits(n);
    var r := PadStart(s, width, '0');
    DigitsValueOfDigits(n);
    if width > |s| {
      var z := r[..|r| - |s|];
      assert r == z + s;
      LeadingZerosValue(z, s);
    }
  }

  /** Different numbers padded to the same width give different texts. */
  lemma PaddedDistinct(m: nat, n: nat, width: int)
    requires m != n
    ensures PadStart(Digits(m), width, '0') != PadStart(Digits(n), width, '0')
  {
    PaddedDigitsValue(m, width);
    PaddedDigitsValue(n, width);
  }

  /** `parseInt` reads a zero-padded number back as the number. */
  lemma ParseIntOfPadded(n: nat, width: int)
    ensures ParseInt(PadStart(Digits(n), width, '0')) == Some(n)
  {
    PaddedDigitsValue(n, width);
    ParseIntOfAllDigits(PadStart(Digits(n), width, '0'));
  }

  function LowerChar(c: char): char {
    if 'A' <= c <= 'Z' then (c as int + 32) as char else c
  }

  function UpperChar(c: char): char {
    if 'a' <= c <= 'z' then (c as int - 32) as char else c
  }

  /** `s.toLowerCase()` on ASCII letters. */
  function Lower(s: string): (r: string)
    ensures |r| == |s|
  {
    seq(|s|, i requires 0 <= i < |s| => LowerChar(s[i]))
  }

  /** `s.toUpperCase()` on ASCII letters. */
  function Upper(s: string): (r: string)
    ensures |r| == |s|
  {
    seq(|s|, i requires 0 <= i < |s| => UpperChar(s[i]))
  }

  /**
   * JavaScript's `s.length`: the number of UTF-16 code units, so a character outside the
   * Basic Multilingual Plane counts twice.
   */
  function Utf16Length(s: string): (r: nat)
    ensures |s| <= r <= 2 * |s|
    ensures (forall i :: 0 <= i < |s| ==> s[i] as int < 0x1_0000) ==> r == |s|
  {
    if s == [] then 0
    else (if s[0] as int < 0x1_0000 then 1 else 2) + Utf16Length(s[1..])
  }

  /** The code units of two texts joined are the code units of each, added. */
  lemma {:induction false} Utf16LengthConcat(a: string, b: string)
    ensures Utf16Length(a + b) == Utf16Length(a) + Utf16Length(b)
  {
    if a == [] {
      assert a + b == b;
    } else {
      assert (a + b)[1..] == a[1..] + b;
      Utf16LengthConcat(a[1..], b);
    }
  }

  /** `s.includes(sub)` in JavaScript, `sub in s` in Python. */
  predicate Contains(s: string, sub: string)
    decreases |s|
  {
    sub <= s || (s != [] && Contains(s[1..], sub))
  }

  /** sub occurs in s starting at position i. */
  predicate OccursAt(s: string, sub: string, i: int) {
    0 <= i && i + |sub| <= |s| && s[i..i + |sub|] == sub
  }

  /** Contains means: sub occurs at some position of s. */
  lemma {:induction false} ContainsIffOccurs(s: string, sub: string)
    ensures Contains(s, sub) <==> exists i :: OccursAt(s, sub, i)
    decreases |s|
  {
    if sub <= s {
      assert OccursAt(s, sub, 0);
    } else if s != [] {
      ContainsIffOccurs(s[1..], sub);
      if exists i :: OccursAt(s, sub, i) {
        var i :| OccursAt(s, sub, i);
        assert s[0..|sub|] == s[..|sub|];
        assert i != 0;
        assert OccursAt(s[1..], sub, i - 1);
      }
      if exists i :: OccursAt(s[1..], sub, i) {
        var i :| OccursAt(s[1..], sub, i);
        assert OccursAt(s, sub, i + 1);
      }
    } else {
      assert forall i :: !OccursAt(s, sub, i);
    }
  }

  /** Every string contains the empty string, and itself. */
  lemma ContainsTrivial(s: string)
    ensures Contains(s, "") && Contains(s, s)
  {
  }

  /** `parts.join(sep)`. */
  function Join(parts: seq<string>, sep: string): string
  {
    if parts == [] then "" else if |parts| == 1 then parts[0] else parts[0] + sep + Join(parts[1..], sep)
  }

  /** `s.split(c)` for a one-character separator: the pieces between the occurrences of c. */
  function Split(s: string, c: char): (r: seq<string>)
    ensures |r| >= 1
  {
    if s == [] then [""]
    else
      var rest := Split(s[1..], c);
      if s[0] == c then [""] + rest else [[s[0]] + rest[0]] + rest[1..]
  }

  lemma {:induction false} SplitNoSeparator(p: string, c: char)
    requires c !in p
    ensures Split(p, c) == [p]
  {
    if p != [] {
      SplitNoSeparator(p[1..], c);
      assert [p[0]] + p[1..] == p;
    }
  }

  lemma {:induction false} SplitFirstPiece(p: string, c: char, rest: string)
    requires c !in p
    ensures Split(p + [c] + rest, c) == [p] + Split(rest, c)
  {
    if p == [] {
      assert p + [c] + rest == [c] + rest;
      assert ([c] + rest)[1..] == rest;
    } else {
      SplitFirstPiece(p[1..], c, rest);
      assert (p + [c] + rest)[1..] == p[1..] + [c] + rest;
      assert [p[0]] + p[1..] == p;
    }
  }

  /** Splitting a join gives the pieces back when no piece holds the separator. */
  lemma {:induction false} SplitJoin(parts: seq<string>, c: char)
    requires |parts| >= 1
    requires forall k :: 0 <= k < |parts| ==> c !in parts[k]
    ensures Split(Join(parts, [c]), c) == parts
  {
    if |parts| == 1 {
      SplitNoSeparator(parts[0], c);
    } else {
      SplitJoin(parts[1..], c);
      SplitFirstPiece(parts[0], c, Join(parts[1..], [c]));
      assert [parts[0]] + parts[1..] == parts;
    }
  }

  /** Python `s.replace(pat, rep)`: every non-overlapping occurrence, scanning left to right. */
  function ReplaceAll(s: string, pat: string, rep: string): string
    requires pat != []
    decreases |s|
  {
    if |s| < |pat| then s
    else if pat <= s then rep + ReplaceAll(s[|pat|..], pat, rep)
    else [s[0]] + ReplaceAll(s[1..], pat, rep)
  }

  /** Text without an occurrence of pat is left exactly as it was. */
  lemma {:induction false} ReplaceAbsent(s: string, pat: string, rep: string)
    requires pat != [] && !Contains(s, pat)
    ensures ReplaceAll(s, pat, rep) == s
    decreases |s|
  {
    if |s| >= |pat| {
      ReplaceAbsent(s[1..], pat, rep);
      assert [s[0]] + s[1..] == s;
    }
  }

  lemma ReplaceAtStart(pat: string, b: string, rep: string)
    requires pat != [] && !Contains(b, pat)
    ensures ReplaceAll(pat + b, pat, rep) == rep + b
  {
    var s := pat + b;
    assert pat <= s;
    assert s[|pat|..] == b;
    ReplaceAbsent(b, pat, rep);
  }

  lemma ReplaceSkip(s: string, pat: string, rep: string)
    requires pat != [] && |s| >= |pat| && !(pat <= s)
    ensures ReplaceAll(s, pat, rep) == [s[0]] + ReplaceAll(s[1..], pat, rep)
  {
  }

  /**
   * A text holding pat exactly once, with no occurrence starting earlier, has exactly that
   * occurrence replaced.
   */
  lemma {:induction false} ReplaceOnce(a: string, pat: string, b: string, rep: string)
    requires pat != []
    requires !Contains(a + pat[..|pat| - 1], pat) && !Contains(b, pat)
    ensures ReplaceAll(a + pat + b, pat, rep) == a + rep + b
    decreases |a|
  {
    if a == [] {
      assert a + pat + b == pat + b;
      ReplaceAtStart(pat, b, rep);
    } else {
      var s := a + pat + b;
      var u := a + pat[..|pat| - 1];
      assert s[..|pat|] == u[..|pat|];
      assert u[1..] == a[1..] + pat[..|pat| - 1];
      assert s[1..] == a[1..] + pat + b;
      ReplaceSkip(s, pat, rep);
      ReplaceOnce(a[1..], pat, b, rep);
      assert [a[0]] + a[1..] == a;
    }
  }
}
