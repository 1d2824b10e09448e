/** The Python string operations that the services call, on strings of Unicode code points. */
module Text {
  import opened Sequences

  import opened Models

  /** True for the characters that `str.strip()` removes. */
  predicate IsSpace(c: char) {
    var n := c as int;
    || 0x09 <= n <= 0x0D
    || 0x1C <= n <= 0x20
    || n in {0x85, 0xA0, 0x1680, 0x2028, 0x2029, 0x202F, 0x205F, 0x3000}
    || 0x2000 <= n <= 0x200A
  }

  /** No whitespace at either end. */
  predicate Trimmed(s: string) {
    s != "" ==> !IsSpace(s[0]) && !IsSpace(s[|s| - 1])
  }

  function LStrip(s: string): (r: string)
    ensures r != "" ==> !IsSpace(r[0])
    ensures |r| <= |s|
    ensures s != "" && !IsSpace(s[0]) ==> r == s
  {
    if s != "" && IsSpace(s[0]) then LStrip(s[1..]) else s
  }

  lemma {:induction false} LStripIsSuffix(s: string)
    ensures LStrip(s) == s[|s| - |LStrip(s)|..]
  {
    hide IsSpace;
    if s != "" && IsSpace(s[0]) {
      LStripIsSuffix(s[1..]);
      var r := LStrip(s[1..]);
      assert s[1..][|s| - 1 - |r|..] == s[|s| - |r|..];
    }
  }

  function RStrip(s: string): (r: string)
    ensures r != "" ==> !IsSpace(r[|r| - 1])
    ensures |r| <= |s| && (r != "" ==> r[0] == s[0])
    ensures s != "" && !IsSpace(s[|s| - 1]) ==> r == s
  {
    if s != "" && IsSpace(s[|s| - 1]) then RStrip(s[..|s| - 1]) else s
  }

  lemma {:induction false} RStripIsPrefix(s: string)
    ensures RStrip(s) == s[..|RStrip(s)|]
  {
    hide IsSpace;
    if s != "" && IsSpace(s[|s| - 1]) {
      RStripIsPrefix(s[..|s| - 1]);
      var r := RStrip(s[..|s| - 1]);
      assert s[..|s| - 1][..|r|] == s[..|r|];
    }
  }

  lemma RStripKeepsHead(s: string)
    requires s != "" && !IsSpace(s[0])
    ensures RStrip(s) != "" && RStrip(s)[0] == s[0]
    decreases |s|
  {
    if |s| > 1 && IsSpace(s[|s| - 1]) {
      RStripKeepsHead(s[..|s| - 1]);
    }
  }

  function Strip(s: string): (r: string)
    ensures Trimmed(r)
    ensures |r| <= |s|
    ensures Trimmed(s) ==> r == s
  {
    RStrip(LStrip(s))
  }

  /** `s or ""`. */
  function OrEmpty(s: Option<string>): string {
    if s.None? then "" else s.value
  }

  /** `sep.join(parts)`. */
  function Join(sep: string, parts: seq<string>): string {
    if parts == [] then ""
    else if |parts| == 1 then parts[0]
    else parts[0] + sep + Join(sep, parts[1..])
  }

  predicate IsDigit(c: char) {
    '0' <= c <= '9'
  }

  /** The decimal digits of `str(n)`. */
  function PrintNat(n: nat): (s: string)
    ensures s != "" && forall c :: c in s ==> IsDigit(c)
  {
    if n < 10 then [('0' as int + n) as char]
    else PrintNat(n / 10) + [('0' as int + n % 10) as char]
  }

  /** `str.lower()` as far as its result can be ASCII: A-Z, and the Kelvin sign. */
  function LowerChar(c: char): char {
    if 'A' <= c <= 'Z' then (c as int + 32) as char
    else if c == '\U{212A}' then 'k'
    else c
  }

  function Lower(s: string): (r: string)
    ensures |r| == |s|
    ensures forall k :: 0 <= k < |s| ==> r[k] == LowerChar(s[k])
  {
    seq(|s|, k requires 0 <= k < |s| => LowerChar(s[k]))
  }

  /** `s.split(sep)` for a separator of one character. */
  function Split(s: string, sep: char): (parts: seq<string>)
    ensures |parts| >= 1
  {
    if s == "" then [""]
    else
      var rest := Split(s[1..], sep);
      if s[0] == sep then [""] + rest else [[s[0]] + rest[0]] + rest[1..]
  }

  lemma {:induction false} SplitPlain(s: string, sep: char)
    requires sep !in s
    ensures Split(s, sep) == [s]
  {
    if s != "" {
      SplitPlain(s[1..], sep);
      assert [s[0]] + s[1..] == s;
    }
  }

  lemma {:induction false} SplitFirst(a: string, sep: char, b: string)
    requires sep !in a
    ensures Split(a + [sep] + b, sep) == [a] + Split(b, sep)
  {
    if a == "" {
      assert a + [sep] + b == [sep] + b && ([sep] + b)[1..] == b;
    } else {
      SplitFirst(a[1..], sep, b);
      assert (a + [sep] + b)[1..] == a[1..] + [sep] + b;
      assert [a[0]] + a[1..] == a;
    }
  }

  /** Splitting undoes joining when no part contains the separator. */
  lemma {:induction false} SplitJoin(parts: seq<string>, sep: char)
    requires parts != [] && forall p :: p in parts ==> sep !in p
    ensures Split(Join([sep], parts), sep) == parts
  {
    assert parts[0] in parts;
    if |parts| == 1 {
      SplitPlain(parts[0], sep);
    } else {
      SplitJoin(parts[1..], sep);
      SplitFirst(parts[0], sep, Join([sep], parts[1..]));
    }
  }

  function Prefixed(sep: string, parts: seq<string>): seq<string> {
    seq(|parts|, k requires 0 <= k < |parts| => sep + parts[k])
  }

  lemma {:induction false} JoinPrefixed(sep: string, parts: seq<string>)
    requires parts != []
    ensures sep + Join(sep, parts) == Flatten(Prefixed(sep, parts))
  {
    if |parts| == 1 {
      assert Prefixed(sep, parts) == [sep + parts[0]];
      FlattenOne(sep + parts[0]);
    } else {
      JoinPrefixed(sep, parts[1..]);
      assert Prefixed(sep, parts) == [sep + parts[0]] + Prefixed(sep, parts[1..]);
      FlattenCons(sep + parts[0], Prefixed(sep, parts[1..]));
      Associative(sep, parts[0], sep + Join(sep, parts[1..]));
      Associative(parts[0], sep, Join(sep, parts[1..]));
    }
  }

  lemma NothingPrefixed(sep: string)
    ensures Prefixed(sep, []) == []
  {}

  lemma JoinHead(sep: string, head: string, lines: seq<string>)
    ensures Join(sep, [head] + lines) == head + Flatten(Prefixed(sep, lines))
  {
    assert ([head] + lines)[1..] == lines;
    if lines == [] {
      NothingPrefixed(sep);
      assert [head] + lines == [head];
    } else {
      JoinPrefixed(sep, lines);
      Associative(head, sep, Join(sep, lines));
    }
  }

  lemma JoinThree(sep: string, a: string, b: string, c: string)
    ensures Join(sep, [a, b, c]) == a + sep + (b + sep + c)
  {
    assert [a, b, c][1..] == [b, c] && [b, c][1..] == [c];
    assert Join(sep, [c]) == c;
    assert Join(sep, [b, c]) == b + sep + c;
  }

  // ------------------------------------------------------------------ integers

  /** Digits with single underscores between them. */
  predicate IsDigits(s: string) {
    && s != "" && IsDigit(s[0]) && IsDigit(s[|s| - 1])
    && (forall k :: 0 <= k < |s| ==> IsDigit(s[k]) || s[k] == '_')
    && (forall k :: 0 <= k < |s| - 1 ==> s[k] != '_' || s[k + 1] != '_')
  }

  function Digit(c: char): nat
    requires IsDigit(c)
  {
    c as int - '0' as int
  }

  function DigitsValue(s: string): nat
    requires forall k :: 0 <= k < |s| ==> IsDigit(s[k]) || s[k] == '_'
  {
    if s == "" then 0
    else
      var n := |s| - 1;
      var before: nat := DigitsValue(s[..n]);
      if s[n] == '_' then before else 10 * before + Digit(s[n])
  }

  /** `int(s)` for a stripped ASCII string; `None` is the ValueError. */
  function ParseInt(s: string): Option<int> {
    var signed := s != "" && s[0] in {'+', '-'};
    var digits := if signed then s[1..] else s;
    if !IsDigits(digits) then None
    else if signed && s[0] == '-' then Some(-(DigitsValue(digits) as int))
    else Some(DigitsValue(digits) as int)
  }

  lemma {:induction false} DigitsOfPrint(n: nat)
    ensures forall k :: 0 <= k < |PrintNat(n)| ==> IsDigit(PrintNat(n)[k])
    ensures DigitsValue(PrintNat(n)) == n
  {
    assert forall k :: 0 <= k < |PrintNat(n)| ==> PrintNat(n)[k] in PrintNat(n);
    if n >= 10 {
      DigitsOfPrint(n / 10);
      var s := PrintNat(n);
      assert s[..|s| - 1] == PrintNat(n / 10);
    }
  }

  /** `int(str(n)) == n`. */
  lemma ParsePrinted(n: nat)
    ensures ParseInt(PrintNat(n)) == Some(n as int)
  {
    var s := PrintNat(n);
    assert forall k :: 0 <= k < |s| ==> s[k] in s;
    assert IsDigit(s[0]) && IsDigits(s);
    DigitsOfPrint(n);
  }
}
