/**
 * The data markers of the chat prompt, and when text built from parts is free of them: parts
 * that are, glued by separators that begin and end with a character no marker contains.
 */
module Markers {
  import opened Text

  const TRIVY_DATA_START := "<<TRIVY_DATA_START>>"
  const TRIVY_DATA_END := "<<TRIVY_DATA_END>>"

  const ZERO_WIDTH_SPACE: char := '\U{200B}'

  predicate IsMarker(m: string) {
    m == TRIVY_DATA_START || m == TRIVY_DATA_END
  }

  predicate OccursAt(s: string, m: string, i: int) {
    0 <= i && i + |m| <= |s| && forall k :: 0 <= k < |m| ==> m[k] == s[i + k]
  }

  lemma OccursIsSlice(s: string, m: string, i: int)
    requires 0 <= i && i + |m| <= |s|
    ensures OccursAt(s, m, i) <==> s[i..i + |m|] == m
  {
    if OccursAt(s, m, i) {
      assert s[i..i + |m|] == m;
    }
    if s[i..i + |m|] == m {
      forall k | 0 <= k < |m|
        ensures m[k] == s[i + k]
      {
        assert s[i..i + |m|][k] == s[i + k];
      }
    }
  }

  lemma OccursChar(s: string, m: string, i: int, k: nat)
    requires k < |m|
    ensures OccursAt(s, m, i) ==> 0 <= i + k < |s| && m[k] == s[i + k] && m[k] in s
  {}

  ghost predicate Contains(s: string, m: string) {
    exists i :: OccursAt(s, m, i)
  }

  /** No literal marker anywhere. */
  ghost predicate Clean(s: string) {
    !Contains(s, TRIVY_DATA_START) && !Contains(s, TRIVY_DATA_END)
  }

  /** All that the proofs use of the two marker texts. */
  lemma MarkerShape(m: string)
    requires IsMarker(m)
    ensures |m| >= 4 && m[0] == '<' && m[1] == '<' && m[|m| - 1] == '>'
    ensures forall k :: 2 <= k < |m| ==> m[k] != '<'
    ensures ZERO_WIDTH_SPACE !in m
  {}

  // ------------------------------------------------------------------ neutralising

  /** `s.replace(m, r)`: non-overlapping occurrences from the left. */
  function Replace(s: string, m: string, r: string): string
    requires m != ""
  {
    if |s| < |m| then s
    else if s[..|m|] == m then r + Replace(s[|m|..], m, r)
    else [s[0]] + Replace(s[1..], m, r)
  }

  /** The harmless spelling of a marker. */
  function Defused(m: string): string
    requires |m| >= 1
  {
    [m[0], ZERO_WIDTH_SPACE] + m[1..]
  }

  function Defuse(s: string, m: string): string
    requires |m| >= 1
  {
    if ContainsFrom(s, m, 0) then Replace(s, m, Defused(m)) else s
  }

  /** The `in` test. */
  predicate ContainsFrom(s: string, m: string, i: nat)
    decreases |s| - i
  {
    i + |m| <= |s| && (s[i..i + |m|] == m || ContainsFrom(s, m, i + 1))
  }

  function NeutralizeMarkers(s: string): string {
    Defuse(Defuse(s, TRIVY_DATA_START), TRIVY_DATA_END)
  }

  lemma {:induction false} ContainsFromIff(s: string, m: string, i: nat)
    ensures ContainsFrom(s, m, i) <==> exists j :: i <= j && OccursAt(s, m, j)
    decreases |s| - i
  {
    if i + |m| <= |s| {
      ContainsFromIff(s, m, i + 1);
      OccursIsSlice(s, m, i);
    }
  }

  /** A text without the inserted character that does not end in `<` starts the result only if it starts the source. */
  lemma {:induction false} ReplaceKeepsPrefix(s: string, m: string, w: string)
    requires IsMarker(m)
    requires ZERO_WIDTH_SPACE !in w && (w != "" ==> w[|w| - 1] != '<')
    requires w <= Replace(s, m, Defused(m))
    ensures w <= s
  {
    MarkerShape(m);
    if w != "" && |s| >= |m| && s[..|m|] != m {
      var r := Replace(s, m, Defused(m));
      assert r[1..] == Replace(s[1..], m, Defused(m));
      assert w[1..] <= r[1..];
      ReplaceKeepsPrefix(s[1..], m, w[1..]);
      assert w[0] == s[0];
    } else if w != "" && |s| >= |m| {
      var r := Replace(s, m, Defused(m));
      StartsDefused(r, m, w);
    }
  }

  lemma StartsDefused(r: string, m: string, w: string)
    requires IsMarker(m) && Defused(m) <= r && w <= r && w != ""
    ensures w[|w| - 1] == '<' || ZERO_WIDTH_SPACE in w
  {
    MarkerShape(m);
    assert r[0] == Defused(m)[0] && r[1] == Defused(m)[1];
    assert |w| >= 2 ==> w[1] == r[1];
  }

  lemma OccursInTail(s: string, n: nat, m: string, i: int)
    requires n <= |s| && n <= i
    ensures OccursAt(s, m, i) <==> OccursAt(s[n..], m, i - n)
  {
    if i + |m| <= |s| {
      OccursIsSlice(s, m, i);
      OccursIsSlice(s[n..], m, i - n);
      assert s[n..][i - n..i - n + |m|] == s[i..i + |m|];
    }
  }

  /** No marker starts inside the harmless spelling of a marker. */
  lemma DefusedStartsNone(m: string, rest: string, marker: string, i: int)
    requires IsMarker(m) && IsMarker(marker)
    requires 0 <= i < |Defused(m)|
    ensures !OccursAt(Defused(m) + rest, marker, i)
  {
    MarkerShape(m);
    MarkerShape(marker);
    var d := Defused(m);
    var s := d + rest;
    assert d[1] == ZERO_WIDTH_SPACE && d[3] == m[2] && (i >= 2 ==> d[i] == m[i - 1]);
    OccursChar(s, marker, i, 0);
    OccursChar(s, marker, i, 1);
  }

  /** What the next step of the replacement consumes and produces. */
  function Consumed(s: string, m: string): nat
    requires 1 <= |m| <= |s|
  {
    if s[..|m|] == m then |m| else 1
  }

  function Produced(s: string, m: string): string
    requires 1 <= |m| <= |s|
  {
    if s[..|m|] == m then Defused(m) else [s[0]]
  }

  lemma ReplaceStep(s: string, m: string)
    requires 1 <= |m| <= |s|
    ensures Replace(s, m, Defused(m)) == Produced(s, m) + Replace(s[Consumed(s, m)..], m, Defused(m))
  {}

  /** The produced text starts no marker, unless the source starts with it. */
  lemma ProducedStartsNone(s: string, m: string, marker: string, i: int)
    requires IsMarker(m) && IsMarker(marker) && |m| <= |s|
    requires marker == m || !OccursAt(s, marker, 0)
    requires 0 <= i < |Produced(s, m)|
    ensures !OccursAt(Replace(s, m, Defused(m)), marker, i)
  {
    MarkerShape(m);
    MarkerShape(marker);
    ReplaceStep(s, m);
    var rest := Replace(s[Consumed(s, m)..], m, Defused(m));
    var r := Replace(s, m, Defused(m));
    if s[..|m|] == m {
      DefusedStartsNone(m, rest, marker, i);
    } else if |marker| <= |r| {
      OccursIsSlice(r, marker, 0);
      if |marker| <= |s| {
        OccursIsSlice(s, marker, 0);
      }
      if r[..|marker|] == marker {
        ReplaceKeepsPrefix(s, m, marker);
      }
    }
  }

  /** Replacing `m` leaves no `m` behind, and creates no other marker that was not there. */
  lemma {:induction false} ReplaceLeavesNone(s: string, m: string, marker: string)
    requires IsMarker(m) && IsMarker(marker)
    requires marker == m || !Contains(s, marker)
    ensures !Contains(Replace(s, m, Defused(m)), marker)
  {
    hide OccursAt;
    MarkerShape(m);
    if |s| < |m| {
      ShortIsClean(s, m);
    } else {
      var n, produced := Consumed(s, m), Produced(s, m);
      if marker != m {
        TailLacks(s, n, marker);
      }
      ReplaceLeavesNone(s[n..], m, marker);
      ReplaceStep(s, m);
      var r := Replace(s, m, Defused(m));
      assert r[|produced|..] == Replace(s[n..], m, Defused(m));
      forall i
        ensures !OccursAt(r, marker, i)
      {
        if 0 <= i < |produced| {
          ProducedStartsNone(s, m, marker, i);
        } else if i >= |produced| {
          OccursInTail(r, |produced|, marker, i);
        } else {
          NotNegative(r, marker, i);
        }
      }
    }
  }

  lemma ShortIsClean(s: string, m: string)
    requires |s| < |m|
    ensures !Contains(s, m)
  {}

  lemma NotNegative(s: string, m: string, i: int)
    requires i < 0
    ensures !OccursAt(s, m, i)
  {}

  lemma TailLacks(s: string, n: nat, m: string)
    requires n <= |s| && !Contains(s, m)
    ensures !Contains(s[n..], m)
  {
    hide OccursAt;
    forall i
      ensures !OccursAt(s[n..], m, i)
    {
      if i >= 0 {
        OccursInTail(s, n, m, i + n);
      } else {
        NotNegative(s[n..], m, i);
      }
    }
  }

  /** After neutralising, no marker is left. */
  lemma NeutralizedIsClean(s: string)
    ensures Clean(NeutralizeMarkers(s))
  {
    var once := Defuse(s, TRIVY_DATA_START);
    ContainsFromIff(s, TRIVY_DATA_START, 0);
    ReplaceLeavesNone(s, TRIVY_DATA_START, TRIVY_DATA_START);
    ContainsFromIff(once, TRIVY_DATA_END, 0);
    ReplaceLeavesNone(once, TRIVY_DATA_END, TRIVY_DATA_START);
    ReplaceLeavesNone(once, TRIVY_DATA_END, TRIVY_DATA_END);
  }

  // ------------------------------------------------------------------ gluing

  /** A character that no marker contains. */
  predicate Fence(c: char) {
    c !in TRIVY_DATA_START && c !in TRIVY_DATA_END
  }

  /** A separator between two parts of a text. */
  predicate Separator(lit: string) {
    lit != "" && '<' !in lit && Fence(lit[0]) && Fence(lit[|lit| - 1])
  }

  /** The occurrences of a marker in glued text are those in the two sides. */
  lemma GlueOccurs(a: string, lit: string, b: string, m: string, i: int)
    requires IsMarker(m) && Separator(lit)
    ensures OccursAt(a + lit + b, m, i) <==> OccursAt(a, m, i) || OccursAt(b, m, i - |a| - |lit|)
  {
    MarkerShape(m);
    var s := a + lit + b;
    assert s[|a| + |lit|..] == b && s[..|a|] == a;
    if i >= |a| + |lit| {
      OccursInTail(s, |a| + |lit|, m, i);
    } else if 0 <= i && i + |m| <= |a| {
      OccursIsSlice(s, m, i);
      OccursIsSlice(a, m, i);
      assert s[i..i + |m|] == a[i..i + |m|];
    } else if 0 <= i <= |a| {
      assert s[|a|] == lit[0];
      OccursChar(s, m, i, |a| - i);
    } else if |a| < i {
      assert s[i] == lit[i - |a|] && lit[i - |a|] in lit;
      OccursChar(s, m, i, 0);
    }
  }

  lemma GlueIsClean(a: string, lit: string, b: string)
    requires Clean(a) && Clean(b) && Separator(lit)
    ensures Clean(a + lit + b)
  {
    forall m, i | IsMarker(m)
      ensures !OccursAt(a + lit + b, m, i)
    {
      GlueOccurs(a, lit, b, m, i);
    }
  }

  /** Text without `<` is clean. */
  lemma PlainIsClean(s: string)
    requires '<' !in s
    ensures Clean(s)
  {
    forall m, i | IsMarker(m)
      ensures !OccursAt(s, m, i)
    {
      MarkerShape(m);
      OccursChar(s, m, i, 0);
    }
  }

  lemma PrefixIsClean(s: string, n: nat)
    requires Clean(s) && n <= |s|
    ensures Clean(s[..n])
  {
    forall m, i | IsMarker(m)
      ensures !OccursAt(s[..n], m, i)
    {
      assert OccursAt(s[..n], m, i) ==> OccursAt(s, m, i);
    }
  }

  lemma {:induction false} JoinIsClean(sep: string, parts: seq<string>)
    requires Separator(sep)
    requires forall p :: p in parts ==> Clean(p)
    ensures Clean(Join(sep, parts))
  {
    if parts == [] {
      PlainIsClean("");
    } else if |parts| > 1 {
      JoinIsClean(sep, parts[1..]);
      assert parts[0] in parts;
      GlueIsClean(parts[0], sep, Join(sep, parts[1..]));
    }
  }

  // ------------------------------------------------------------------ templates

  /** A formatted string: literals and fields take turns, beginning and ending with a literal. */
  function Format(literals: seq<string>, fields: seq<string>): string
    requires |literals| == |fields| + 1
  {
    if fields == [] then literals[0]
    else literals[0] + fields[0] + Format(literals[1..], fields[1..])
  }

  /** Inner literals separate; the outer two need a fence only towards the fields, and may be empty. */
  predicate Template(literals: seq<string>) {
    && |literals| >= 2
    && (literals[0] != "" ==> '<' !in literals[0] && Fence(literals[0][|literals[0]| - 1]))
    && (forall k :: 0 < k < |literals| - 1 ==> Separator(literals[k]))
    && (var last := literals[|literals| - 1]; last != "" ==> '<' !in last && Fence(last[0]))
  }

  lemma {:induction false} TailIsClean(literals: seq<string>, fields: seq<string>, done: string)
    requires |literals| == |fields| + 1 && fields != []
    requires forall k :: 0 <= k < |literals| - 1 ==> Separator(literals[k])
    requires var last := literals[|literals| - 1]; last != "" ==> '<' !in last && Fence(last[0])
    requires Clean(done)
    requires forall f :: f in fields ==> Clean(f)
    ensures Clean(done + Format(literals, fields))
  {
    hide Clean, Separator, Fence, Format;
    var field := fields[0];
    assert field in fields;
    GlueIsClean(done, literals[0], field);
    var more := done + literals[0] + field;
    FormatAfter(done, literals, fields);
    if |fields| == 1 {
      FormatNothing(literals[1..]);
      assert fields[1..] == [];
      EndIsClean(more, literals[1]);
    } else {
      forall f | f in fields[1..]
        ensures Clean(f)
      {
        assert f in fields;
      }
      TailIsClean(literals[1..], fields[1..], more);
    }
  }

  lemma FormatNothing(literals: seq<string>)
    requires |literals| == 1
    ensures Format(literals, []) == literals[0]
  {}

  lemma FormatAfter(done: string, literals: seq<string>, fields: seq<string>)
    requires |literals| == |fields| + 1 && fields != []
    ensures done + Format(literals, fields) == done + literals[0] + fields[0] + Format(literals[1..], fields[1..])
  {
    Regroup(done, literals[0], fields[0], Format(literals[1..], fields[1..]));
  }

  lemma Regroup(a: string, b: string, c: string, d: string)
    ensures a + (b + c + d) == a + b + c + d
  {}

  lemma EndIsClean(s: string, last: string)
    requires Clean(s)
    requires last != "" ==> '<' !in last && Fence(last[0])
    ensures Clean(s + last)
  {
    if last == "" {
      assert s + last == s;
    } else {
      PlainIsClean(last[1..]);
      GlueIsClean(s, [last[0]], last[1..]);
      assert s + [last[0]] + last[1..] == s + last;
    }
  }

  /** A formatted string with clean fields is clean. */
  lemma FormatIsClean(literals: seq<string>, fields: seq<string>)
    requires Template(literals) && |literals| == |fields| + 1
    requires forall f :: f in fields ==> Clean(f)
    ensures Clean(Format(literals, fields))
  {
    hide Clean;
    var head, field := literals[0], fields[0];
    assert field in fields;
    StartIsClean(head, field);
    if |fields| == 1 {
      EndIsClean(head + field, literals[1]);
      assert Format(literals, fields) == head + field + Format(literals[1..], fields[1..]);
    } else {
      TailIsClean(literals[1..], fields[1..], head + field);
      assert Format(literals, fields) == head + field + Format(literals[1..], fields[1..]);
    }
  }

  lemma StartIsClean(head: string, field: string)
    requires head != "" ==> '<' !in head && Fence(head[|head| - 1])
    requires Clean(field)
    ensures Clean(head + field)
  {
    if head == "" {
      assert head + field == field;
    } else {
      var n := |head| - 1;
      PlainIsClean(head[..n]);
      GlueIsClean(head[..n], [head[n]], field);
      assert head[..n] + [head[n]] == head;
    }
  }
}
