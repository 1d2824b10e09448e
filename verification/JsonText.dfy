/**
 * `json.dumps(value, separators=(",", ":"))` with its ASCII escapes, and the fact that the text
 * can be read in one way only. Objects list their members in the order of the text.
 */
module JsonText {
  import opened Models
  import opened Text

  datatype Value =
    | Null
    | Number(n: int)
    | Str(s: string)
    | List(items: Values)
    | Obj(members: Members)

  datatype Values = Nil | Cons(head: Value, tail: Values)

  datatype Members = NoMore | Member(key: string, value: Value, rest: Members)

  function PrintInt(n: int): string {
    if n < 0 then "-" + PrintNat(-n) else PrintNat(n)
  }

  // ------------------------------------------------------------------ escapes

  function HexDigit(n: nat): char
    requires n < 16
  {
    if n < 10 then ('0' as int + n) as char else ('a' as int + n - 10) as char
  }

  function Hex4(n: nat): string
    requires n < 0x10000
  {
    [HexDigit(n / 0x1000), HexDigit(n / 0x100 % 0x10), HexDigit(n / 0x10 % 0x10), HexDigit(n % 0x10)]
  }

  /** The two-character escapes. */
  function ShortEscape(c: char): Option<char> {
    if c == '"' then Some('"')
    else if c == '\\' then Some('\\')
    else if c == '\n' then Some('n')
    else if c == '\r' then Some('r')
    else if c == '\t' then Some('t')
    else if c as int == 0x0C then Some('f')
    else if c as int == 0x08 then Some('b')
    else None
  }

  function Unicode(n: nat): string
    requires n < 0x10000
  {
    ['\\', 'u'] + Hex4(n)
  }

  /** Printable ASCII stands for itself; above the 16-bit range a surrogate pair is written. */
  function Escape(c: char): string {
    var n := c as int;
    if ShortEscape(c).Some? then ['\\', ShortEscape(c).value]
    else if 0x20 <= n <= 0x7E then [c]
    else if n < 0x10000 then Unicode(n)
    else Unicode(0xD800 + (n - 0x10000) / 0x400) + Unicode(0xDC00 + (n - 0x10000) % 0x400)
  }

  function EscapeAll(s: string): string {
    if s == "" then "" else Escape(s[0]) + EscapeAll(s[1..])
  }

  function Quoted(s: string): string {
    ['"'] + EscapeAll(s) + ['"']
  }

  /** The digits of the escapes are lower-case hexadecimal. */
  lemma HexSays(n: nat)
    requires n < 16
    ensures HexDigit(n) == "0123456789abcdef"[n]
  {}

  // ------------------------------------------------------------------ values

  function Dumps(v: Value): string {
    match v
    case Null => ['n', 'u', 'l', 'l']
    case Number(n) => PrintInt(n)
    case Str(s) => Quoted(s)
    case List(items) => ['['] + DumpItems(items, true)
    case Obj(members) => ['{'] + DumpMembers(members, true)
  }

  function Comma(first: bool): string {
    if first then "" else [',']
  }

  /** The items with the closing bracket. */
  function DumpItems(items: Values, first: bool): string {
    match items
    case Nil => [']']
    case Cons(head, tail) => Comma(first) + (Dumps(head) + DumpItems(tail, false))
  }

  function DumpMembers(members: Members, first: bool): string {
    match members
    case NoMore => ['}']
    case Member(key, value, rest) => Comma(first) + (Quoted(key) + ([':'] + (Dumps(value) + DumpMembers(rest, false))))
  }

  /** Brackets, separators and their order; no blanks. */
  lemma DumpsSays(a: Value, b: Value, k: string, l: string)
    ensures Dumps(Null) == "null" && Dumps(List(Nil)) == "[]" && Dumps(Obj(NoMore)) == "{}"
    ensures Dumps(List(Cons(a, Cons(b, Nil)))) == "[" + Dumps(a) + "," + Dumps(b) + "]"
    ensures Dumps(Obj(Member(k, a, Member(l, b, NoMore))))
         == "{" + Dumps(Str(k)) + ":" + Dumps(a) + "," + Dumps(Str(l)) + ":" + Dumps(b) + "}"
  {
    hide Quoted, PrintInt;
    var x, y, q, r := Dumps(a), Dumps(b), Quoted(k), Quoted(l);
    assert DumpItems(Nil, false) == "]" && DumpMembers(NoMore, false) == "}";
    assert DumpItems(Cons(b, Nil), false) == "," + (y + "]");
    assert DumpMembers(Member(l, b, NoMore), false) == "," + (r + (":" + (y + "}")));
    assert Dumps(List(Cons(a, Cons(b, Nil)))) == "[" + ("" + (x + ("," + (y + "]"))));
    assert Dumps(Obj(Member(k, a, Member(l, b, NoMore))))
        == "{" + ("" + (q + (":" + (x + ("," + (r + (":" + (y + "}"))))))));
    hide Dumps, DumpItems, DumpMembers;
    FiveParts("[", x, ",", y, "]");
    NineParts("{", q, ":", x, ",", r, ":", y, "}");
  }

  lemma FiveParts(a: string, b: string, c: string, d: string, e: string)
    ensures a + ("" + (b + (c + (d + e)))) == a + b + c + d + e
  {}

  lemma NineParts(a: string, b: string, c: string, d: string, e: string, f: string, g: string, h: string, i: string)
    ensures a + ("" + (b + (c + (d + (e + (f + (g + (h + i)))))))) == a + b + c + d + e + f + g + h + i
  {}

  /** What can follow a value. */
  predicate Ends(s: string) {
    s == "" || s[0] in {',', ']', '}'}
  }

  lemma Peel(a: string, x: string, b: string, y: string)
    requires |a| == |b| && a + x == b + y
    ensures a == b && x == y
  {
    assert (a + x)[..|a|] == a && (a + x)[|a|..] == x;
    assert (b + y)[..|b|] == b && (b + y)[|b|..] == y;
  }

  lemma Assoc(a: string, b: string, c: string)
    ensures (a + b) + c == a + (b + c)
  {}

  // ------------------------------------------------------------------ one reading: escapes

  lemma HexDigitsDiffer(a: nat, b: nat)
    requires a < 16 && b < 16
    ensures HexDigit(a) == HexDigit(b) ==> a == b
  {}

  lemma Hex4Unique(a: nat, b: nat)
    requires a < 0x10000 && b < 0x10000 && Hex4(a) == Hex4(b)
    ensures a == b
  {
    HexDigitsDiffer(a / 0x1000, b / 0x1000);
    HexDigitsDiffer(a / 0x100 % 0x10, b / 0x100 % 0x10);
    HexDigitsDiffer(a / 0x10 % 0x10, b / 0x10 % 0x10);
    HexDigitsDiffer(a % 0x10, b % 0x10);
    assert Hex4(a)[0] == Hex4(b)[0] && Hex4(a)[1] == Hex4(b)[1] && Hex4(a)[2] == Hex4(b)[2] && Hex4(a)[3] == Hex4(b)[3];
    hide HexDigit, Hex4;
    DigitsBase16(a);
    DigitsBase16(b);
  }

  lemma DigitsBase16(n: nat)
    requires n < 0x10000
    ensures n == n / 0x1000 * 0x1000 + n / 0x100 % 0x10 * 0x100 + n / 0x10 % 0x10 * 0x10 + n % 0x10
  {
    assert n / 0x10 / 0x10 == n / 0x100;
    assert n / 0x100 / 0x10 == n / 0x1000;
  }

  lemma UnicodeUnique(a: nat, x: string, b: nat, y: string)
    requires a < 0x10000 && b < 0x10000 && Unicode(a) + x == Unicode(b) + y
    ensures a == b && x == y
  {
    hide HexDigit;
    assert (Unicode(a) + x)[2..6] == Hex4(a) && (Unicode(b) + y)[2..6] == Hex4(b);
    assert (Unicode(a) + x)[6..] == x && (Unicode(b) + y)[6..] == y;
    Hex4Unique(a, b);
  }

  /** The escapes are a prefix code, and none starts like the closing quote. */
  lemma EscapeUnique(c: char, x: string, d: char, y: string)
    requires Escape(c) + x == Escape(d) + y
    ensures c == d && x == y
  {
    var e, f := Escape(c) + x, Escape(d) + y;
    hide Hex4;
    if ShortEscape(c).Some? || ShortEscape(d).Some? {
      assert e[0] == f[0] && (|e| > 1 ==> e[1] == f[1]);
      ShortEscapesDiffer(c, d);
      assert e[|Escape(c)|..] == x && f[|Escape(d)|..] == y;
    } else if 0x20 <= c as int <= 0x7E || 0x20 <= d as int <= 0x7E {
      assert e[0] == f[0];
      assert e[1..] == f[1..];
      assert e[|Escape(c)|..] == x && f[|Escape(d)|..] == y;
    } else {
      LongEscapeUnique(c, x, d, y);
    }
  }

  lemma ShortEscapesDiffer(c: char, d: char)
    ensures ShortEscape(c).Some? && ShortEscape(c) == ShortEscape(d) ==> c == d
    ensures ShortEscape(c) != Some('u')
    ensures ShortEscape(c).None? ==> c != '\\' && c != '"'
  {}

  lemma LongEscapeUnique(c: char, x: string, d: char, y: string)
    requires Escape(c) + x == Escape(d) + y
    requires ShortEscape(c).None? && !(0x20 <= c as int <= 0x7E)
    requires ShortEscape(d).None? && !(0x20 <= d as int <= 0x7E)
    ensures c == d && x == y
  {
    hide Unicode;
    var m, n := c as int - 0x10000, d as int - 0x10000;
    var restC := if m < 0 then x else Unicode(0xDC00 + m % 0x400) + x;
    var restD := if n < 0 then y else Unicode(0xDC00 + n % 0x400) + y;
    var headC: nat := if m < 0 then c as int else 0xD800 + m / 0x400;
    var headD: nat := if n < 0 then d as int else 0xD800 + n / 0x400;
    assert Escape(c) + x == Unicode(headC) + restC;
    assert Escape(d) + y == Unicode(headD) + restD;
    UnicodeUnique(headC, restC, headD, restD);
    assert (m < 0) == (n < 0);
    if m >= 0 {
      UnicodeUnique(0xDC00 + m % 0x400, x, 0xDC00 + n % 0x400, y);
      assert m == m / 0x400 * 0x400 + m % 0x400 && n == n / 0x400 * 0x400 + n % 0x400;
    }
  }

  lemma EscapeHead(c: char)
    ensures Escape(c) != "" && Escape(c)[0] != '"'
  {
    hide Hex4;
  }

  /** Whether the string goes on shows in the first character. */
  lemma EscapedHead(s: string, x: string)
    requires x != "" && x[0] == '"'
    ensures EscapeAll(s) + x != ""
    ensures (EscapeAll(s) + x)[0] == '"' <==> s == ""
  {
    hide Escape;
    if s != "" {
      EscapeHead(s[0]);
      assert (EscapeAll(s) + x)[0] == Escape(s[0])[0];
    } else {
      assert EscapeAll(s) + x == x;
    }
  }

  lemma {:induction false} QuotedUnique(s: string, x: string, t: string, y: string)
    requires EscapeAll(s) + (['"'] + x) == EscapeAll(t) + (['"'] + y)
    ensures s == t && x == y
  {
    hide Escape;
    EscapedHead(s, ['"'] + x);
    EscapedHead(t, ['"'] + y);
    if s == "" {
      assert EscapeAll(s) + (['"'] + x) == ['"'] + x && EscapeAll(t) + (['"'] + y) == ['"'] + y;
      Peel(['"'], x, ['"'], y);
    } else {
      var restS, restT := EscapeAll(s[1..]) + (['"'] + x), EscapeAll(t[1..]) + (['"'] + y);
      Assoc(Escape(s[0]), EscapeAll(s[1..]), ['"'] + x);
      Assoc(Escape(t[0]), EscapeAll(t[1..]), ['"'] + y);
      EscapeUnique(s[0], restS, t[0], restT);
      QuotedUnique(s[1..], x, t[1..], y);
      assert s == [s[0]] + s[1..] && t == [t[0]] + t[1..];
    }
  }

  lemma QuotedTail(s: string, x: string)
    ensures Quoted(s) + x == ['"'] + (EscapeAll(s) + (['"'] + x))
  {
    hide EscapeAll;
    Assoc(['"'] + EscapeAll(s), ['"'], x);
    Assoc(['"'], EscapeAll(s), ['"'] + x);
  }

  lemma StringUnique(s: string, x: string, t: string, y: string)
    requires Quoted(s) + x == Quoted(t) + y
    ensures s == t && x == y
  {
    QuotedTail(s, x);
    QuotedTail(t, y);
    hide Quoted;
    Peel(['"'], EscapeAll(s) + (['"'] + x), ['"'], EscapeAll(t) + (['"'] + y));
    QuotedUnique(s, x, t, y);
  }

  // ------------------------------------------------------------------ one reading: numbers

  predicate AllDigits(s: string) {
    forall k :: 0 <= k < |s| ==> IsDigit(s[k])
  }

  lemma DigitsUnique(a: string, x: string, b: string, y: string)
    requires AllDigits(a) && AllDigits(b) && Ends(x) && Ends(y) && a + x == b + y
    ensures a == b && x == y
  {
    DigitsAt(a, x);
    DigitsAt(b, y);
    assert |a| == |b|;
    Peel(a, x, b, y);
  }

  lemma DigitsAt(a: string, x: string)
    requires AllDigits(a) && Ends(x)
    ensures forall k :: 0 <= k < |a| ==> IsDigit((a + x)[k])
    ensures |a + x| == |a| || !IsDigit((a + x)[|a|])
  {}

  lemma NumberUnique(m: int, x: string, n: int, y: string)
    requires Ends(x) && Ends(y) && PrintInt(m) + x == PrintInt(n) + y
    ensures m == n && x == y
  {
    var a, b: nat := if m < 0 then -m else m, if n < 0 then -n else n;
    DigitsOfPrint(a);
    DigitsOfPrint(b);
    NumberHead(m, x);
    NumberHead(n, y);
    hide PrintNat, Ends;
    if m < 0 {
      Assoc("-", PrintNat(a), x);
      Assoc("-", PrintNat(b), y);
      Peel("-", PrintNat(a) + x, "-", PrintNat(b) + y);
    }
    DigitsUnique(PrintNat(a), x, PrintNat(b), y);
  }

  lemma NumberHead(n: int, x: string)
    ensures PrintInt(n) + x != "" && ((PrintInt(n) + x)[0] == '-' <==> n < 0)
  {
    DigitsOfPrint(if n < 0 then -n else n);
  }

  // ------------------------------------------------------------------ one reading: values

  /** The first character tells what a value is. */
  function Kind(c: char): int {
    if c == 'n' then 0
    else if c == '-' || IsDigit(c) then 1
    else if c == '"' then 2
    else if c == '[' then 3
    else if c == '{' then 4
    else 5
  }

  lemma DumpsHead(v: Value)
    ensures Dumps(v) != ""
    ensures Kind(Dumps(v)[0])
         == match v { case Null => 0 case Number(_) => 1 case Str(_) => 2 case List(_) => 3 case Obj(_) => 4 }
  {
    if v.Number? {
      var n: nat := if v.n < 0 then -v.n else v.n;
      DigitsOfPrint(n);
    }
  }

  /** A value followed by anything that can follow it is read in one way. */
  lemma {:induction false} DumpsUnique(v: Value, x: string, w: Value, y: string)
    requires Ends(x) && Ends(y) && Dumps(v) + x == Dumps(w) + y
    ensures v == w && x == y
    decreases v
  {
    DumpsHead(v);
    DumpsHead(w);
    assert (Dumps(v) + x)[0] == Dumps(v)[0] && (Dumps(w) + y)[0] == Dumps(w)[0];
    hide Quoted, PrintInt, Kind, Ends;
    match v
    case Null =>
      Peel(Dumps(v), x, Dumps(w), y);
    case Number(n) =>
      NumberUnique(n, x, w.n, y);
    case Str(s) =>
      StringUnique(s, x, w.s, y);
    case List(items) =>
      hide DumpItems;
      Assoc(['['], DumpItems(items, true), x);
      Assoc(['['], DumpItems(w.items, true), y);
      Peel(['['], DumpItems(items, true) + x, ['['], DumpItems(w.items, true) + y);
      ItemsUnique(items, x, w.items, y, true);
    case Obj(members) =>
      hide DumpMembers;
      Assoc(['{'], DumpMembers(members, true), x);
      Assoc(['{'], DumpMembers(w.members, true), y);
      Peel(['{'], DumpMembers(members, true) + x, ['{'], DumpMembers(w.members, true) + y);
      MembersUnique(members, x, w.members, y, true);
  }

  lemma ItemsEnd(items: Values, x: string)
    ensures Ends(DumpItems(items, false) + x)
  {}

  lemma MembersEnd(members: Members, x: string)
    ensures Ends(DumpMembers(members, false) + x)
  {}

  /** Whether the list goes on shows in the first character. */
  lemma ItemsHead(items: Values, first: bool)
    ensures DumpItems(items, first) != ""
    ensures DumpItems(items, first)[0] == ']' <==> items == Nil
  {
    if items.Cons? {
      DumpsHead(items.head);
      assert DumpItems(items, first)[0] == if first then Dumps(items.head)[0] else ',';
    }
  }

  lemma ItemsStart(v: Values, first: bool, x: string)
    requires v.Cons?
    ensures DumpItems(v, first) + x == Comma(first) + (Dumps(v.head) + (DumpItems(v.tail, false) + x))
  {
    hide Dumps, Comma;
    Assoc(Comma(first), Dumps(v.head) + DumpItems(v.tail, false), x);
    Assoc(Dumps(v.head), DumpItems(v.tail, false), x);
  }

  lemma {:induction false} ItemsUnique(v: Values, x: string, w: Values, y: string, first: bool)
    requires DumpItems(v, first) + x == DumpItems(w, first) + y
    ensures v == w && x == y
    decreases v
  {
    ItemsHead(v, first);
    ItemsHead(w, first);
    assert (DumpItems(v, first) + x)[0] == DumpItems(v, first)[0] &&
             (DumpItems(w, first) + y)[0] == DumpItems(w, first)[0];
    if v == Nil {
      assert (DumpItems(v, first) + x)[1..] == x && (DumpItems(w, first) + y)[1..] == y;
    } else {
      hide Dumps;
      var restV, restW := DumpItems(v.tail, false) + x, DumpItems(w.tail, false) + y;
      ItemsStart(v, first, x);
      ItemsStart(w, first, y);
      hide DumpItems;
      Peel(Comma(first), Dumps(v.head) + restV, Comma(first), Dumps(w.head) + restW);
      ItemsEnd(v.tail, x);
      ItemsEnd(w.tail, y);
      DumpsUnique(v.head, restV, w.head, restW);
      ItemsUnique(v.tail, x, w.tail, y, false);
    }
  }

  lemma MembersHead(members: Members, first: bool)
    ensures DumpMembers(members, first) != ""
    ensures DumpMembers(members, first)[0] == '}' <==> members == NoMore
  {
    hide EscapeAll;
    if members.Member? {
      assert DumpMembers(members, first)[0] == if first then '"' else ',';
    }
  }

  lemma MembersStart(v: Members, first: bool, x: string)
    requires v.Member?
    ensures DumpMembers(v, first) + x
         == Comma(first) + (Quoted(v.key) + ([':'] + (Dumps(v.value) + (DumpMembers(v.rest, false) + x))))
  {
    hide Dumps, Quoted, Comma;
    var rest := DumpMembers(v.rest, false);
    Assoc(Comma(first), Quoted(v.key) + ([':'] + (Dumps(v.value) + rest)), x);
    Assoc(Quoted(v.key), [':'] + (Dumps(v.value) + rest), x);
    Assoc([':'], Dumps(v.value) + rest, x);
    Assoc(Dumps(v.value), rest, x);
  }

  lemma {:induction false} MembersUnique(v: Members, x: string, w: Members, y: string, first: bool)
    requires DumpMembers(v, first) + x == DumpMembers(w, first) + y
    ensures v == w && x == y
    decreases v
  {
    MembersHead(v, first);
    MembersHead(w, first);
    assert (DumpMembers(v, first) + x)[0] == DumpMembers(v, first)[0] &&
             (DumpMembers(w, first) + y)[0] == DumpMembers(w, first)[0];
    if v == NoMore {
      assert (DumpMembers(v, first) + x)[1..] == x && (DumpMembers(w, first) + y)[1..] == y;
    } else {
      hide Dumps, Quoted;
      var restV, restW := DumpMembers(v.rest, false) + x, DumpMembers(w.rest, false) + y;
      MembersStart(v, first, x);
      MembersStart(w, first, y);
      hide DumpMembers;
      Peel(Comma(first), Quoted(v.key) + ([':'] + (Dumps(v.value) + restV)),
           Comma(first), Quoted(w.key) + ([':'] + (Dumps(w.value) + restW)));
      StringUnique(v.key, [':'] + (Dumps(v.value) + restV), w.key, [':'] + (Dumps(w.value) + restW));
      Peel([':'], Dumps(v.value) + restV, [':'], Dumps(w.value) + restW);
      MembersEnd(v.rest, x);
      MembersEnd(w.rest, y);
      DumpsUnique(v.value, restV, w.value, restW);
      MembersUnique(v.rest, x, w.rest, y, false);
    }
  }

  /** Different values have different texts. */
  lemma DumpsInjective(v: Value, w: Value)
    requires Dumps(v) == Dumps(w)
    ensures v == w
  {
    assert Dumps(v) + "" == Dumps(w) + "";
    DumpsUnique(v, "", w, "");
  }
}
