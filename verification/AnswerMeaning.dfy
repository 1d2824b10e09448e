/** What an accepted model answer says: from which key each part comes, and which parts are let through. */
module AnswerMeaning {
  import opened Models
  import opened Text
  import opened Json
  import opened PatternSanitizer
  import opened Pass1Validation
  import opened Pass2Validation

  // ------------------------------------------------------------------ labels and patterns

  predicate IsLabelText(s: string) {
    && 1 <= |s| <= 64
    && ('a' <= s[0] <= 'z' || '0' <= s[0] <= '9')
    && forall k :: 0 <= k < |s| ==>
         'a' <= s[k] <= 'z' || '0' <= s[k] <= '9' || (k > 0 && (s[k] == '.' || s[k] == '_' || s[k] == '-'))
  }

  /** A label is up to 64 lower-case letters, digits, dots, underscores and dashes, and possibly one newline. */
  lemma LabelSays(s: string)
    ensures IsLabel(s) <==> IsLabelText(s) || (s != "" && s[|s| - 1] == '\n' && IsLabelText(s[..|s| - 1]))
  {
    PlainLabelSays(s);
    if s != "" {
      PlainLabelSays(s[..|s| - 1]);
    }
    hide IsPlainLabel, IsLabelText;
  }

  lemma PlainLabelSays(s: string)
    ensures IsPlainLabel(s) <==> IsLabelText(s)
  {}

  predicate IsAscii(s: string) {
    forall k :: 0 <= k < |s| ==> s[k] as int != 0 && s[k] as int < 128
  }

  /** The patterns that would match everything. */
  predicate IsCatchAll(s: string) {
    s == "" || s == "/" || s == "*" || s == "**"
  }

  /** A name pattern survives as its stripped text: ASCII, at most 256 characters, no catch-all. */
  lemma NameSays(j: Json, p: string)
    ensures SanitizePkgName(j) == Some(p)
       <==> j.Str? && p == Strip(j.s) && IsAscii(p) && |p| <= 256 && !IsCatchAll(p)
  {
    hide Strip;
  }

  lemma PurlSays(j: Json, p: string)
    ensures SanitizePurlPattern(j) == Some(p)
       <==> j.Str? && p == Strip(j.s) && IsAscii(p) && |p| <= 512 && !IsCatchAll(p)
  {
    hide Strip;
  }

  /** A glob survives like a name, unless nothing but stars and white space is in it. */
  lemma GlobSays(j: Json, p: string)
    ensures SanitizePkgGlob(j) == Some(p)
       <==> && SanitizePkgName(j) == Some(p)
            && exists k :: 0 <= k < |Strip(j.s)| && Strip(j.s)[k] != '*' && !IsSpace(Strip(j.s)[k])
  {
    if j.Str? {
      OnlyStarsIff(Strip(j.s));
    }
    hide Strip, IsSpace, WithoutStars, SanitizePkgName;
    NameSays(j, p);
  }

  /** A path prefix survives as its stripped text without the leading slashes. */
  lemma PrefixSays(j: Json, p: string)
    ensures SanitizePathPrefix(j) == Some(p)
       <==> && j.Str? && IsAscii(Strip(j.s)) && IsWithoutSlashes(Strip(j.s), p)
            && |p| <= 256 && !IsCatchAll(p) && !IsCatchAll(Strip(j.s))
  {
    if j.Str? {
      WithoutSlashesSays(Strip(j.s), p);
      ForbiddenSays(Strip(j.s));
      ForbiddenSays(p);
    }
    hide Strip, LStripSlashes, IsWithoutSlashes, Forbidden, IsCatchAll;
  }

  lemma ForbiddenSays(s: string)
    ensures Forbidden(s) <==> IsCatchAll(s)
    ensures IsAsciiNoNul(s) <==> IsAscii(s)
  {}

  predicate IsWithoutSlashes(s: string, p: string) {
    && |p| <= |s| && p == s[|s| - |p|..] && (p == "" || p[0] != '/')
    && forall k :: 0 <= k < |s| - |p| ==> s[k] == '/'
  }

  lemma WithoutSlashesSays(s: string, p: string)
    ensures p == LStripSlashes(s) <==> IsWithoutSlashes(s, p)
  {
    var q := LStripSlashes(s);
    LStripSlashesCuts(s);
    hide LStripSlashes;
    assert IsWithoutSlashes(s, q);
    if IsWithoutSlashes(s, p) {
      TwoTails(s, p, q);
      TwoTails(s, q, p);
    }
  }

  lemma TwoTails(s: string, p: string, q: string)
    requires IsWithoutSlashes(s, p) && IsWithoutSlashes(s, q)
    ensures |p| >= |q|
  {}

  /** What survives of a list: the items the sanitiser lets through, in order. */
  lemma {:induction false} SurvivingSays(items: seq<Json>, more: seq<Json>, sanitize: Json -> Option<string>, s: string)
    ensures s in Surviving(items, sanitize) <==> exists k :: 0 <= k < |items| && sanitize(items[k]) == Some(s)
    ensures Surviving(items + more, sanitize) == Surviving(items, sanitize) + Surviving(more, sanitize)
    decreases |items| + |more|
  {
    if more != [] {
      var n := |more| - 1;
      SurvivingSays(items, more[..n], sanitize, s);
      assert (items + more)[..|items| + n] == items + more[..n];
    } else {
      assert items + more == items;
      if items != [] {
        var n := |items| - 1;
        SurvivingSays(items[..n], [], sanitize, s);
        assert forall k :: 0 <= k < n ==> items[..n][k] == items[k];
      }
    }
  }

  // ------------------------------------------------------------------ groups

  /** The list under a key, sanitised; a missing key or null is an empty list. */
  function Sanitised(fields: map<string, Json>, key: string, sanitize: Json -> Option<string>): seq<string> {
    if key in fields && fields[key].List? then Surviving(fields[key].items, sanitize) else []
  }

  /** The parts of an accepted group come from the keys named after them. */
  lemma GroupSays(raw: Json)
    requires GroupShape(raw)
    ensures
      var g := GroupOf(raw);
      && raw.Obj? && "label" in raw.fields && raw.fields["label"] == Str(g.groupLabel)
      && (if "explanation" in raw.fields && raw.fields["explanation"].Str?
          then g.explanation == Some(raw.fields["explanation"].s) else g.explanation == None)
      && "finding_ids" in raw.fields && raw.fields["finding_ids"].List?
      && |raw.fields["finding_ids"].items| == |g.findingIds|
      && forall k :: 0 <= k < |g.findingIds| ==> raw.fields["finding_ids"].items[k] == Int(g.findingIds[k])
  {}

  /** Each pattern list comes from its own rule key; rules that are missing, null or empty give none. */
  lemma PatternsSay(raw: Json)
    requires GroupShape(raw)
    ensures
      var g, rules := GroupOf(raw), if "match_rules" in raw.fields && raw.fields["match_rules"].Obj?
                                    then raw.fields["match_rules"].fields else map[];
      && g.pathPrefixes == Sanitised(rules, "path_prefixes", SanitizePathPrefix)
      && g.pkgNameExact == Sanitised(rules, "pkg_name_exact", SanitizePkgName)
      && g.pkgNameGlob == Sanitised(rules, "pkg_name_glob", SanitizePkgGlob)
      && g.pkgPurlPattern == Sanitised(rules, "pkg_purl_pattern", SanitizePurlPattern)
  {
    hide SanitizePathPrefix, SanitizePkgName, SanitizePkgGlob, SanitizePurlPattern, Surviving, IsLabel;
  }

  // ------------------------------------------------------------------ evaluations

  predicate IsText(fields: map<string, Json>, key: string) {
    key in fields && fields[key].Str?
  }

  /** Exactly which entries are accepted. */
  lemma EntrySays(raw: Json, shown: Shown, fixLane: Option<FixLane>)
    ensures EntryFits(raw, shown, fixLane)
       <==> && raw.Obj?
            && IsText(raw.fields, "group_label") && raw.fields["group_label"].s in shown
            && IsText(raw.fields, "risk_band")
            && MayBeSent(raw.fields["risk_band"].s, fixLane)
            && IsText(raw.fields, "reason") && |raw.fields["reason"].s| <= 8192
            && (forall k :: 0 <= k < |raw.fields["reason"].s| ==> raw.fields["reason"].s[k] as int != 0)
            && ("worst_finding_id" !in raw.fields || raw.fields["worst_finding_id"] == Null
                || (raw.fields["worst_finding_id"].Int?
                    && raw.fields["worst_finding_id"].n in shown[raw.fields["group_label"].s]))
  {
    if raw.Obj? && IsText(raw.fields, "reason") {
      var reason := raw.fields["reason"].s;
      assert '\0' !in reason <==> forall k :: 0 <= k < |reason| ==> reason[k] as int != 0;
    }
  }

  predicate MayBeSent(band: string, fixLane: Option<FixLane>) {
    || band == "escalate" || band == "mitigate" || band == "monitor" || band == "noise"
    || (band == "act" && fixLane != Some(Mitigate))
  }

  /** An accepted entry comes back as sent, except that the band `mitigate` becomes `escalate`. */
  lemma EvaluationSays(raw: Json, shown: Shown, fixLane: Option<FixLane>)
    requires EntryFits(raw, shown, fixLane)
    ensures
      var e := EvaluationOf(raw, shown, fixLane);
      && raw.Obj? && "group_label" in raw.fields && raw.fields["group_label"] == Str(e.groupLabel)
      && "risk_band" in raw.fields && raw.fields["risk_band"].Str?
      && (raw.fields["risk_band"].s == "mitigate" ==> e.riskBand == "escalate")
      && (raw.fields["risk_band"].s != "mitigate" ==> e.riskBand == raw.fields["risk_band"].s)
      && "reason" in raw.fields && raw.fields["reason"] == Str(e.reason)
      && (if "worst_finding_id" in raw.fields && raw.fields["worst_finding_id"].Int?
          then e.worstFindingId == Some(raw.fields["worst_finding_id"].n) else e.worstFindingId == None)
  {}
}
